/**
  * What a client does with any frame whatever, honest, forged or misplaced: which frames change its keys,
  * its log or its mailboxes, and what it sends in return.
  */
module Intake {
  import opened Common
  import opened Crypto
  import opened ClientCore

  // ---------------------------------------------------------------- the tie-break

  /** At the first byte in which two keys differ, the first has the smaller one. */
  ghost predicate SmallerKey(me: Party, them: Party) {
    exists k | 0 <= k < 32 :: me[..k] == them[..k] && me[k] < them[k]
  }

  /** The initiator of the initial handshake is the party with the smaller key. */
  lemma InitiatorIsSmaller(me: Party, them: Party)
    ensures IsInitialPfsInitiator(me, them) <==> SmallerKey(me, them)
  {
    LexLessIff(me, them);
    hide LexLess;
    if k: nat :| SmallerAt(me, them, k) {
      assert me[..k] == them[..k];
    }
    if k: nat :| 0 <= k < 32 && me[..k] == them[..k] && me[k] < them[k] {
      assert forall i | 0 <= i < k :: me[i] == me[..k][i] && them[i] == them[..k][i];
      assert SmallerAt(me, them, k);
    }
  }

  // ---------------------------------------------------------------- frames that count

  /** The frame is on a mailbox p listens on and sealed under the key kept with that mailbox. */
  predicate Reads(p: Local, f: MailFrame) {
    var c := p.contact;
    && f.payload.Sealed?
    && if c.oldRxId == Some(f.mailbox) && c.oldRxKey.Some? then f.payload.key == c.oldRxKey.value
       else (c.oldRxId == Some(f.mailbox) || c.rxId == f.mailbox) && f.payload.key == c.rxKey
  }

  /** A rotation request that the contact itself has signed. */
  predicate SignedRequest(p: Local, f: MailFrame) {
    && f.action == Push && Reads(p, f) && f.payload.plain.RotateRequest?
    && f.payload.plain.signature == Signature(p.contact.publicKey, [f.payload.plain.key])
  }

  /** A request p answers: signed, and after the initial handshake or from the side that initiates it. */
  ghost predicate Answerable(p: Local, f: MailFrame) {
    SignedRequest(p, f) && (p.contact.complete || !SmallerKey(p.me, p.contact.publicKey))
  }

  /** The answer p waits for: signed by the contact over p's pending key and its own. */
  predicate AwaitedAnswer(p: Local, f: MailFrame) {
    && f.action == Push && Reads(p, f) && f.payload.plain.RotateAck?
    && p.contact.pfs == RotationRequested && p.contact.pending.Some?
    && f.payload.plain.signature
       == Signature(p.contact.publicKey, [PublicKey(p.contact.pending.value), f.payload.plain.key])
  }

  predicate ReadableText(p: Local, f: MailFrame) {
    f.action == Push && Reads(p, f) && f.payload.plain.Text? && p.contact.complete
  }

  predicate ReadableReceipt(p: Local, f: MailFrame) {
    f.action == Ack && Reads(p, f) && f.payload.plain.Receipt?
  }

  /** A signed initial request that meets the side which is to initiate itself and has not yet. */
  ghost predicate TurnedRound(p: Local, f: MailFrame) {
    && SignedRequest(p, f) && !p.contact.complete && SmallerKey(p.me, p.contact.publicKey)
    && p.connected && p.contact.pfs == Idle
  }

  // ---------------------------------------------------------------- the handlers, flattened

  lemma OpensIff(p: Local, f: MailFrame)
    ensures Reads(p, f) <==>
              && Listens(p.contact, f.mailbox)
              && Open(KeyFor(p.contact, p.contact.oldRxId == Some(f.mailbox)), f.payload).Some?
    ensures Reads(p, f) ==>
              Open(KeyFor(p.contact, p.contact.oldRxId == Some(f.mailbox)), f.payload) == Some(f.payload.plain)
  {
  }

  function Retired(p: Local, f: MailFrame): Local {
    p.(contact := DropOld(p.contact, p.contact.oldRxId == Some(f.mailbox)))
  }

  /** The dispatch of a frame, once it is known whether it opens. */
  lemma Dispatched(p: Local, f: MailFrame)
    ensures var e := Receive(p, f);
            var q := Retired(p, f);
            if f.action == Push && Reads(p, f) then
              match f.payload.plain
              case Text(data) => e == if p.contact.complete then HandleText(q, data) else Effect(q, [], TextBeforePfs)
              case RotateRequest(key, s) => e == HandleRotateRequest(q, key, s)
              case RotateAck(key, s) => e == HandleRotateAck(q, key, s)
              case Receipt(_) => e == Effect(q, [], Quiet)
            else
              && e.out == [] && e.local.(history := p.history) == p
              && e.local.history == if ReadableReceipt(p, f) then UpdateStatus(p.history, f.payload.plain.id, Delivered) else p.history
  {
    OpensIff(p, f);
    hide Reads, Open, HandleText, HandleRotateRequest, HandleRotateAck, UpdateStatus;
  }

  /**
    * Keys change for a signed request or the awaited answer and for nothing else. An answered request
    * brings keys of a fresh own key, the answer those of the pending one; both start the message count
    * again and complete the initial handshake.
    */
  lemma KeysChangeIff(p: Local, f: MailFrame)
    ensures var c, d := p.contact, Receive(p, f).local.contact;
            && (Answerable(p, f) ==>
                  var k := Derive(Ephemeral(p.me, p.generated), f.payload.plain.key);
                  && d.txId == k.txId && d.txKey == k.txKey && d.rxId == k.rxId && d.rxKey == k.rxKey
                  && d.complete && d.counter == 0 && d.pending == c.pending
                  && d.pfs == if c.complete then c.pfs else Idle)
            && (AwaitedAnswer(p, f) ==>
                  var k := Derive(c.pending.value, f.payload.plain.key);
                  && d.txId == k.txId && d.txKey == k.txKey && d.rxId == k.rxId && d.rxKey == k.rxKey
                  && d.complete && d.counter == 0 && d.pending == None && d.pfs == Idle)
            && (!Answerable(p, f) && !AwaitedAnswer(p, f) ==>
                  && d.txId == c.txId && d.txKey == c.txKey && d.rxId == c.rxId && d.rxKey == c.rxKey
                  && d.complete == c.complete
                  && (TurnedRound(p, f) ==> d.counter == 0 && d.pfs == RotationRequested
                                            && d.pending == Some(Ephemeral(p.me, p.generated)))
                  && (!TurnedRound(p, f) ==> d.counter == c.counter && d.pending == c.pending && d.pfs == c.pfs))
  {
    assert Reads(p, f) ==> f.payload.Sealed?;
    hide Reads, Receive, SmallerKey, IsInitialPfsInitiator, Derive, UpdateStatus, HandleRotateRequest, HandleRotateAck;
    Dispatched(p, f);
    InitiatorIsSmaller(p.me, p.contact.publicKey);
    if f.payload.Sealed? && f.payload.plain.RotateRequest? {
      RequestEffect(Retired(p, f), f.payload.plain.key, f.payload.plain.signature);
    } else if f.payload.Sealed? && f.payload.plain.RotateAck? {
      AnswerEffect(Retired(p, f), f.payload.plain.key, f.payload.plain.signature);
    }
  }

  lemma RequestEffect(p: Local, key: PublicKey, s: Signature)
    ensures var c, d, k := p.contact, HandleRotateRequest(p, key, s).local.contact, Derive(Ephemeral(p.me, p.generated), key);
            var signed := s == Signature(c.publicKey, [key]);
            var initiates := !c.complete && IsInitialPfsInitiator(p.me, c.publicKey);
            && (signed && !initiates ==>
                  && d.txId == k.txId && d.txKey == k.txKey && d.rxId == k.rxId && d.rxKey == k.rxKey
                  && d.complete && d.counter == 0 && d.pending == c.pending && d.pfs == if c.complete then c.pfs else Idle)
            && (signed && initiates && p.connected && c.pfs == Idle ==>
                  d == c.(counter := 0, pfs := RotationRequested, pending := Some(Ephemeral(p.me, p.generated))))
            && (!signed || (initiates && !(p.connected && c.pfs == Idle)) ==> d == c)
  {
    hide Derive, IsInitialPfsInitiator;
  }

  lemma AnswerEffect(p: Local, key: PublicKey, s: Signature)
    ensures var c, d := p.contact, HandleRotateAck(p, key, s).local.contact;
            if c.pfs == RotationRequested && c.pending.Some? && s == Signature(c.publicKey, [PublicKey(c.pending.value), key]) then
              var k := Derive(c.pending.value, key);
              && d.txId == k.txId && d.txKey == k.txKey && d.rxId == k.rxId && d.rxKey == k.rxKey
              && d.complete && d.counter == 0 && d.pending == None && d.pfs == Idle
            else d == c
  {
    hide Derive;
  }

  /** The log grows by a text read after the handshake, and a receipt marks one entry; nothing else touches it. */
  lemma LogChangesIff(p: Local, f: MailFrame)
    ensures Receive(p, f).local.history
         == if ReadableText(p, f) then
              p.history + [Entry(MessageId(f.payload.plain.data), Inbound, Delivered, [0x01] + f.payload.plain.data)]
            else if ReadableReceipt(p, f) then UpdateStatus(p.history, f.payload.plain.id, Delivered)
            else p.history
  {
    Dispatched(p, f);
    hide Reads, Receive, IsInitialPfsInitiator, Derive, UpdateStatus;
  }

  /**
    * What is sent in return, always to the mailbox and under the key in use when the frame arrived: an
    * answer signed over both keys, a receipt for a text, one's own first request, or nothing.
    */
  lemma RepliesIff(p: Local, f: MailFrame)
    ensures var c := p.contact;
            var mine := PublicKey(Ephemeral(p.me, p.generated));
            var plains :=
              if Answerable(p, f) then [RotateAck(mine, Signature(p.me, [f.payload.plain.key, mine]))]
              else if ReadableText(p, f) then [Receipt(MessageId(f.payload.plain.data))]
              else if TurnedRound(p, f) then [RotateRequest(mine, Signature(p.me, [mine]))]
              else [];
            && |Receive(p, f).out| == |plains|
            && forall i | 0 <= i < |plains| ::
                 Receive(p, f).out[i] == Frame(if plains[i].Receipt? then Ack else Push, c.txId, Sealed(c.txKey, plains[i]))
  {
    Dispatched(p, f);
    InitiatorIsSmaller(p.me, p.contact.publicKey);
    hide Reads, Receive, SmallerKey, IsInitialPfsInitiator, Derive, UpdateStatus;
  }

  /** A periodic rotation keeps the mailbox it leaves; the first push read on another mailbox retires it. */
  lemma RetainedIff(p: Local, f: MailFrame)
    ensures var c, d := p.contact, Receive(p, f).local.contact;
            if Answerable(p, f) && c.complete then d.oldRxId == Some(c.rxId) && d.oldRxKey == Some(c.rxKey)
            else if f.action == Push && Reads(p, f) && c.oldRxId.Some? && c.oldRxId != Some(f.mailbox) then
              d.oldRxId == None && d.oldRxKey == None
            else d.oldRxId == c.oldRxId && d.oldRxKey == c.oldRxKey
  {
    Dispatched(p, f);
    InitiatorIsSmaller(p.me, p.contact.publicKey);
    hide Reads, Receive, SmallerKey, IsInitialPfsInitiator, Derive, UpdateStatus;
  }

  /** A rotation frame with any other signature is reported, unanswered and without effect on keys or log. */
  lemma BadSignatureIsNamed(p: Local, f: MailFrame)
    requires f.action == Push && Reads(p, f)
    requires || (f.payload.plain.RotateRequest? && !SignedRequest(p, f))
             || (f.payload.plain.RotateAck? && p.contact.pfs == RotationRequested && p.contact.pending.Some? && !AwaitedAnswer(p, f))
    ensures Receive(p, f) == Effect(Retired(p, f), [], BadSignature)
  {
    Dispatched(p, f);
    hide Reads, Receive, IsInitialPfsInitiator, Derive, UpdateStatus;
  }

  // ---------------------------------------------------------------- the user's side

  predicate Due(p: Local) {
    p.interval > 0 && p.contact.counter >= p.interval && p.contact.pfs == Idle
  }

  function FirstRequest(p: Local): MailFrame {
    var mine := PublicKey(Ephemeral(p.me, p.generated));
    Frame(Push, p.contact.txId, Sealed(p.contact.txKey, RotateRequest(mine, Signature(p.me, [mine]))))
  }

  /** The initial handshake is to be started by p. */
  ghost predicate StartsHandshake(p: Local) {
    p.connected && !p.contact.complete && p.contact.pfs == Idle && SmallerKey(p.me, p.contact.publicKey)
  }

  /**
    * A text is logged and sent exactly after the initial handshake, behind a rotation request when one is
    * due. Before it, the text leaves no trace, and at most the handshake is started.
    */
  lemma SendsIff(p: Local, data: seq<byte>)
    ensures var e := Send(p, data);
            var c := p.contact;
            && e.local.contact.(counter := c.counter, pfs := c.pfs, pending := c.pending) == c
            && (c.complete ==>
                  && e.local.history == p.history + [Entry(MessageId(data), Outbound, PendingAck, data)]
                  && e.out == (if Due(p) then [FirstRequest(p)] else [])
                              + [Frame(Push, c.txId, Sealed(c.txKey, Text(data)))]
                  && e.notice == Queued)
            && (!c.complete ==>
                  && e.local.history == p.history
                  && e.out == (if StartsHandshake(p) then [FirstRequest(p)] else [])
                  && e.notice == NotReady)
  {
    InitiatorIsSmaller(p.me, p.contact.publicKey);
    hide SmallerKey, IsInitialPfsInitiator;
  }

  /** Connecting starts the initial handshake exactly on the side with the smaller key, and does no more. */
  lemma ConnectsIff(p: Local)
    ensures var e := Connect(p);
            var on := p.(connected := true);
            && e.local.connected && e.local.history == p.history
            && e.out == (if !p.connected && StartsHandshake(on) then [FirstRequest(p)] else [])
            && (e.out == [] ==> e.local == on)
  {
    InitiatorIsSmaller(p.me, p.contact.publicKey);
    hide SmallerKey, IsInitialPfsInitiator;
  }
}
