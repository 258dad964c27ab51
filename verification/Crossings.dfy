/**
  * Why agreement needs the restriction on runs: only the initial handshake breaks ties. When both
  * clients start a periodic rotation in the same epoch and each answers the other, they end on
  * different keys, and no continuation of the run brings them back together.
  */
module Crossings {
  import opened Common
  import opened Crypto
  import opened ClientCore
  import opened LossyMail
  import opened Rotation

  // ---------------------------------------------------------------- what single deliveries do

  /** A delivery as opening the frame and then handling its plaintext, mailbox by mailbox. */
  lemma DeliverShape(a: Abs, w: Who, m: MailboxId)
    requires Arriving(a, w, m) && !a.mail(m)[0].payload.plain.Receipt?
    ensures var b := Deliver(a, w, m);
            var c := a.At(w).contact;
            var p := a.At(w).(contact := DropOld(c, c.oldRxId == Some(m)));
            var e := Handle(p, a.mail(m)[0].payload.plain);
            && Base(b) && Base(Opened(a, w, m)) && Opened(a, w, m).At(w) == p
            && b.At(w) == e.local && b.At(Other(w)) == a.At(Other(w))
            && m != c.txId
            && forall n :: b.mail(n)
                 == if n == m then a.mail(m)[1..] else if n == c.txId then a.mail(n) + e.out else a.mail(n)
  {
    hide Base, Receive, Handle;
    DeliverKeepsBase(a, w, m);
    OpenedKeepsBase(a, w, m);
    PushSplits(a, w, m);
    LocalOf(a, w);
  }

  lemma DeliverRequest(a: Abs, w: Who, m: MailboxId, key: PublicKey)
    requires Arriving(a, w, m) && a.At(w).contact.complete
    requires a.mail(m)[0].payload.plain.RotateRequest? && a.mail(m)[0].payload.plain.key == key
    ensures var b := Deliver(a, w, m);
            var p := a.At(w);
            var c := p.contact;
            var d := b.At(w).contact;
            var f := Ephemeral(p.me, p.generated);
            && Base(b)
            && b.At(Other(w)) == a.At(Other(w))
            && b.At(w).me == p.me && b.At(w).generated == p.generated + 1
            && d.complete && d.pfs == c.pfs && d.pending == c.pending && d.counter == 0
            && d.txId == MailboxOf(f, key.secret) && d.rxId == MailboxOf(key.secret, f)
            && d.oldRxId == Some(c.rxId)
            && forall n :: b.mail(n)
                 == if n == m then a.mail(m)[1..]
                    else if n == c.txId then a.mail(n) + [SealTo(Push, c, RotateAck(PublicKey(f), Signature(p.me, [key, PublicKey(f)])))]
                    else a.mail(n)
  {
    hide Base, Arriving, Deliver, Opened;
    DeliverShape(a, w, m);
    RequestKeepsBase(a, w, m);
  }

  lemma DeliverAck(a: Abs, w: Who, m: MailboxId, key: PublicKey)
    requires Arriving(a, w, m)
    requires a.mail(m)[0].payload.plain.RotateAck? && a.mail(m)[0].payload.plain.key == key
    ensures var b := Deliver(a, w, m);
            var c := a.At(w).contact;
            var d := b.At(w).contact;
            && Base(b) && c.pending.Some?
            && b.At(Other(w)) == a.At(Other(w))
            && b.At(w).me == a.At(w).me && b.At(w).generated == a.At(w).generated
            && d.complete && d.pfs == Idle && d.pending == None && d.counter == 0
            && b.At(w).interval == a.At(w).interval
            && d.txId == MailboxOf(c.pending.value, key.secret) && d.rxId == MailboxOf(key.secret, c.pending.value)
            && d.oldRxId == (if c.oldRxId == Some(m) then c.oldRxId else None)
            && b.At(w).history == a.At(w).history
            && forall n :: b.mail(n) == if n == m then a.mail(m)[1..] else a.mail(n)
  {
    hide Base, Arriving, Deliver, Opened;
    DeliverShape(a, w, m);
    AckKeepsBase(a, w, m);
  }

  function TextEntry(data: seq<byte>): Entry {
    Entry(MessageId(data), Inbound, Delivered, [TEXT_OPCODE] + data)
  }

  lemma DeliverText(a: Abs, w: Who, m: MailboxId)
    requires Arriving(a, w, m) && a.mail(m)[0].payload.plain.Text?
    ensures var b := Deliver(a, w, m);
            var c := a.At(w).contact;
            && Base(b)
            && b.At(Other(w)) == a.At(Other(w))
            && b.At(w).me == a.At(w).me && b.At(w).generated == a.At(w).generated
            && b.At(w).interval == a.At(w).interval
            && b.At(w).contact == DropOld(c, c.oldRxId == Some(m))
            && b.At(w).history == a.At(w).history + [TextEntry(a.mail(m)[0].payload.plain.data)]
            && forall n :: b.mail(n)
                 == if n == m then a.mail(m)[1..]
                    else if n == c.txId then a.mail(n) + [SealTo(Ack, c, Receipt(MessageId(a.mail(m)[0].payload.plain.data)))]
                    else a.mail(n)
  {
    hide Base, Arriving, Deliver, Opened;
    DeliverShape(a, w, m);
    TextKeepsBase(a, w, m);
  }

  /** The initial request, at the side that is not the deterministic initiator. */
  lemma DeliverFirstRequest(a: Abs, w: Who, m: MailboxId, key: PublicKey)
    requires Arriving(a, w, m) && !a.At(w).contact.complete
    requires a.mail(m)[0].payload.plain.RotateRequest? && a.mail(m)[0].payload.plain.key == key
    ensures var b := Deliver(a, w, m);
            var p := a.At(w);
            var c := p.contact;
            var d := b.At(w).contact;
            var f := Ephemeral(p.me, p.generated);
            && Base(b)
            && b.At(Other(w)) == a.At(Other(w)) && b.At(w).interval == p.interval
            && d.complete && d.pfs == Idle && d.pending == c.pending && d.counter == 0
            && d.txId == MailboxOf(f, key.secret) && d.rxId == MailboxOf(key.secret, f)
            && d.oldRxId == None && b.At(w).history == p.history
            && forall n :: b.mail(n)
                 == if n == m then a.mail(m)[1..]
                    else if n == c.txId then a.mail(n) + [SealTo(Push, c, RotateAck(PublicKey(f), Signature(p.me, [key, PublicKey(f)])))]
                    else a.mail(n)
  {
    hide Base, Deliver, Opened;
    assert a.At(w).contact.oldRxId == None by {
      LocalOf(a, w);
    }
    hide Arriving;
    DeliverShape(a, w, m);
    RequestKeepsBase(a, w, m);
  }

  lemma DeliverReceipt(a: Abs, w: Who, m: MailboxId)
    requires Arriving(a, w, m) && a.mail(m)[0].payload.plain.Receipt?
    ensures var b := Deliver(a, w, m);
            && Base(b)
            && b.At(Other(w)) == a.At(Other(w)) && b.At(w).interval == a.At(w).interval
            && b.At(w).contact == a.At(w).contact
            && b.At(w).history == UpdateStatus(a.At(w).history, a.mail(m)[0].payload.plain.id, Delivered)
            && forall n :: b.mail(n) == if n == m then a.mail(m)[1..] else a.mail(n)
  {
    hide Base, Receive, UpdateStatus;
    OtherwiseKeepsBase(a, w, m);
    ListensOpens(a, w, m);
    ReceiptEffect(a.At(w), a.mail(m)[0]);
  }

  lemma ReceiptEffect(p: Local, f: MailFrame)
    requires Listens(p.contact, f.mailbox) && f.action == Ack && f.payload.Sealed? && f.payload.plain.Receipt?
    requires Open(KeyFor(p.contact, p.contact.oldRxId == Some(f.mailbox)), f.payload) == Some(f.payload.plain)
    ensures Receive(p, f).local.history == UpdateStatus(p.history, f.payload.plain.id, Delivered)
  {
    hide UpdateStatus;
  }

  /** A text sent before a rotation is due. */
  lemma SendPlain(a: Abs, w: Who, data: seq<byte>)
    requires Base(a) && a.At(w).contact.complete
    requires a.At(w).interval == 0 || a.At(w).contact.counter < a.At(w).interval
    ensures var b := Perform(a, w, Send(a.At(w), data));
            var c := a.At(w).contact;
            && Base(b)
            && b.At(Other(w)) == a.At(Other(w)) && b.At(w).interval == a.At(w).interval
            && b.At(w).contact == c.(counter := (c.counter + 1) % UINT32_RANGE)
            && (a.At(w).interval > 0 ==> c.counter + 1 < UINT32_RANGE)
            && b.At(w).history == a.At(w).history + [Entry(MessageId(data), Outbound, PendingAck, data)]
            && forall n :: b.mail(n) == if n == c.txId then a.mail(n) + [SealTo(Push, c, Text(data))] else a.mail(n)
  {
    hide Base;
    SendKeepsBase(a, w, data);
    LocalOf(a, w);
    assert a.At(w).interval > 0 ==> a.At(w).contact.counter + 1 < UINT32_RANGE;
    hide LocalOk;
  }

  lemma ListensArrive(a: Abs, w: Who, m: MailboxId)
    requires Base(a) && a.mail(m) != [] && Listens(a.At(w).contact, m)
    ensures Arriving(a, w, m)
  {
    hide Base;
    LocalOf(a, w);
    MailOf(a, m, 0);
  }

  lemma FreshDiffers(a: Abs, w: Who)
    requires Base(a)
    ensures Ephemeral(a.At(w).me, a.At(w).generated) != Sender(a.At(w).contact.txId)
    ensures a.alice.contact.txId != a.bob.contact.txId
    ensures a.At(w).contact.oldRxId != Some(a.At(w).contact.rxId)
    ensures a.At(w).contact.pending !in {Some(Sender(a.At(w).contact.txId)), Some(Ephemeral(a.At(w).me, a.At(w).generated))}
    ensures Sender(a.At(w).contact.txId).party == a.At(w).me && a.alice.me != a.bob.me
  {
    hide Base;
    LocalOf(a, w);
    LocalOf(a, Other(w));
  }

  // ---------------------------------------------------------------- the crossed round

  /** The round's cast: the mailboxes both sides start on, and the keys they ask with. */
  datatype Cast = Cast(aliceTx: MailboxId, bobTx: MailboxId, aliceKey: SecretKey, bobKey: SecretKey)

  function Tx(c: Cast, w: Who): MailboxId {
    if w == Alice then c.aliceTx else c.bobTx
  }

  function Asking(c: Cast, w: Who): SecretKey {
    if w == Alice then c.aliceKey else c.bobKey
  }

  /** How a side stands: it has asked, it has also answered, or it has got its own answer too. */
  datatype Stand = Asked | AnsweredWith(mine: SecretKey) | Done(mine: SecretKey, theirs: SecretKey)

  predicate StandOk(p: Local, c: Cast, w: Who, st: Stand) {
    var d := p.contact;
    var e := Asking(c, w);
    && d.complete
    && match st
       case Asked =>
         && d.pending == Some(e) && d.pfs == RotationRequested
         && d.txId == Tx(c, w) && d.rxId == Tx(c, Other(w))
       case AnsweredWith(f) =>
         && d.pending == Some(e) && d.pfs == RotationRequested
         && d.txId == MailboxOf(f, Asking(c, Other(w))) && d.rxId == MailboxOf(Asking(c, Other(w)), f)
         && d.oldRxId == Some(Tx(c, Other(w)))
         && f != Sender(Tx(c, w)) && f != e
       case Done(f, r) =>
         && d.pending == None && d.pfs == Idle
         && d.txId == MailboxOf(e, r) && d.rxId == MailboxOf(r, e)
         && d.oldRxId == Some(Tx(c, Other(w)))
         && f != Sender(Tx(c, w)) && f != e
  }

  datatype Kind = ARequest(key: SecretKey) | AnAnswer(key: SecretKey) | AText

  predicate KindOk(f: MailFrame, kind: Kind) {
    && f.payload.Sealed?
    && match kind
       case ARequest(key) => f.payload.plain.RotateRequest? && f.payload.plain.key == PublicKey(key)
       case AnAnswer(key) => f.payload.plain.RotateAck? && f.payload.plain.key == PublicKey(key)
       case AText => f.payload.plain.Text?
  }

  predicate Kinds(fs: seq<MailFrame>, kinds: seq<Kind>) {
    |fs| == |kinds| && forall i | 0 <= i < |fs| :: KindOk(fs[i], kinds[i])
  }

  /** A point of the round: how both sides stand, and what the two starting mailboxes hold. */
  ghost predicate Stage(a: Abs, c: Cast, w: Who, mine: Stand, theirs: Stand, sent: seq<Kind>, inbox: seq<Kind>) {
    && Base(a)
    && StandOk(a.At(w), c, w, mine)
    && StandOk(a.At(Other(w)), c, Other(w), theirs)
    && Kinds(a.mail(Tx(c, w)), sent)
    && Kinds(a.mail(Tx(c, Other(w))), inbox)
    && Sender(Tx(c, w)).party == a.At(w).me && Sender(Tx(c, Other(w))).party == a.At(Other(w)).me
    && Asking(c, w) != Sender(Tx(c, w)) && Asking(c, Other(w)) != Sender(Tx(c, Other(w)))
  }

  lemma StageFlip(a: Abs, c: Cast, w: Who, mine: Stand, theirs: Stand, sent: seq<Kind>, inbox: seq<Kind>)
    requires Stage(a, c, w, mine, theirs, sent, inbox)
    ensures Stage(a, c, Other(w), theirs, mine, inbox, sent)
  {
  }

  lemma SameStage(a: Abs, b: Abs, c: Cast, w: Who, mine: Stand, theirs: Stand, sent: seq<Kind>, inbox: seq<Kind>)
    requires Same(a, b) && Stage(a, c, w, mine, theirs, sent, inbox)
    ensures Stage(b, c, w, mine, theirs, sent, inbox)
  {
    SameBase(a, b);
    hide Base;
  }

  lemma KindsHead(fs: seq<MailFrame>, kind: Kind, rest: seq<Kind>)
    requires Kinds(fs, [kind] + rest)
    ensures fs != [] && KindOk(fs[0], kind) && Kinds(fs[1..], rest)
  {
    assert forall i | 0 <= i < |rest| :: ([kind] + rest)[i + 1] == rest[i];
  }

  lemma KindsSnoc(fs: seq<MailFrame>, kinds: seq<Kind>, f: MailFrame, kind: Kind)
    requires Kinds(fs, kinds) && KindOk(f, kind)
    ensures Kinds(fs + [f], kinds + [kind])
  {
  }

  /** w answers the request at the head of its mailbox. */
  lemma StageAnswer(a: Abs, c: Cast, w: Who, theirs: Stand, sent: seq<Kind>, rest: seq<Kind>) returns (f: SecretKey)
    requires Stage(a, c, w, Asked, theirs, sent, [ARequest(Asking(c, Other(w)))] + rest)
    ensures Possible(a, DeliverMove(w, Tx(c, Other(w)))) && Listens(a.At(w).contact, Tx(c, Other(w)))
    ensures Stage(Deliver(a, w, Tx(c, Other(w))), c, w, AnsweredWith(f), theirs, sent + [AnAnswer(f)], rest)
  {
    var m := Tx(c, Other(w));
    hide Base, Deliver, Arriving;
    FreshDiffers(a, w);
    ListensArrive(a, w, m);
    KindsHead(a.mail(m), ARequest(Asking(c, Other(w))), rest);
    hide Kinds;
    f := Ephemeral(a.At(w).me, a.At(w).generated);
    DeliverRequest(a, w, m, PublicKey(Asking(c, Other(w))));
    var ack := RotateAck(PublicKey(f), Signature(a.At(w).me, [PublicKey(Asking(c, Other(w))), PublicKey(f)]));
    KindsSnoc(a.mail(Tx(c, w)), sent, SealTo(Push, a.At(w).contact, ack), AnAnswer(f));
  }

  /** w, having answered, reads a text from its old mailbox. */
  lemma StageText(a: Abs, c: Cast, w: Who, f: SecretKey, theirs: Stand, sent: seq<Kind>, rest: seq<Kind>)
    requires Stage(a, c, w, AnsweredWith(f), theirs, sent, [AText] + rest)
    ensures Possible(a, DeliverMove(w, Tx(c, Other(w)))) && Listens(a.At(w).contact, Tx(c, Other(w)))
    ensures Stage(Deliver(a, w, Tx(c, Other(w))), c, w, AnsweredWith(f), theirs, sent, rest)
  {
    var m := Tx(c, Other(w));
    hide Base, Deliver, Arriving;
    FreshDiffers(a, w);
    ListensArrive(a, w, m);
    KindsHead(a.mail(m), AText, rest);
    hide Kinds;
    DeliverText(a, w, m);
    assert a.At(w).contact.txId != Tx(c, w) && a.At(w).contact.txId != m;
  }

  /** w, having answered, reads the answer to its own request from its old mailbox. */
  lemma StageAck(a: Abs, c: Cast, w: Who, f: SecretKey, r: SecretKey, theirs: Stand, sent: seq<Kind>, rest: seq<Kind>)
    requires Stage(a, c, w, AnsweredWith(f), theirs, sent, [AnAnswer(r)] + rest)
    ensures Possible(a, DeliverMove(w, Tx(c, Other(w)))) && Listens(a.At(w).contact, Tx(c, Other(w)))
    ensures Stage(Deliver(a, w, Tx(c, Other(w))), c, w, Done(f, r), theirs, sent, rest)
  {
    var m := Tx(c, Other(w));
    hide Base, Deliver, Arriving;
    FreshDiffers(a, w);
    ListensArrive(a, w, m);
    KindsHead(a.mail(m), AnAnswer(r), rest);
    hide Kinds;
    DeliverAck(a, w, m, PublicKey(r));
  }

  /** Both clients idle on common keys, nothing in transit, and both due to rotate at their next text. */
  ghost predicate Due(a: Abs) {
    && Base(a)
    && Paired(a.alice.contact, a.bob.contact)
    && (forall m :: a.mail(m) == [])
    && IsDue(a.alice) && IsDue(a.bob)
  }

  predicate IsDue(p: Local) {
    p.contact.complete && p.contact.pfs == Idle && 0 < p.interval <= p.contact.counter
  }

  lemma SendAsks(a: Abs, w: Who, data: seq<byte>)
    requires Base(a) && IsDue(a.At(w)) && a.mail(a.At(w).contact.txId) == []
    ensures var b := Perform(a, w, Send(a.At(w), data));
            var p := a.At(w);
            var d := b.At(w).contact;
            var e := Ephemeral(p.me, p.generated);
            && Base(b) && b.At(Other(w)) == a.At(Other(w)) && b.At(w).me == p.me
            && d.complete && d.pending == Some(e) && d.pfs == RotationRequested
            && d.txId == p.contact.txId && d.rxId == p.contact.rxId
            && (forall n :: n != p.contact.txId ==> b.mail(n) == a.mail(n))
            && Kinds(b.mail(p.contact.txId), [ARequest(e), AText])
  {
    SendKeepsBase(a, w, data);
    hide Base;
  }

  function CastOf(a: Abs): Cast {
    Cast(a.alice.contact.txId, a.bob.contact.txId,
         Ephemeral(a.alice.me, a.alice.generated), Ephemeral(a.bob.me, a.bob.generated))
  }

  /** Alice's text starts a rotation and leaves Bob due. */
  ghost predicate AliceAsked(a: Abs, c: Cast) {
    && Base(a) && IsDue(a.bob)
    && StandOk(a.alice, c, Alice, Asked)
    && a.bob.contact.txId == c.bobTx && a.bob.contact.rxId == c.aliceTx
    && Kinds(a.mail(c.aliceTx), [ARequest(c.aliceKey), AText]) && a.mail(c.bobTx) == []
    && c.bobKey == Ephemeral(a.bob.me, a.bob.generated)
  }

  lemma AliceAsks(a: Abs, x: seq<byte>)
    requires Due(a)
    ensures AliceAsked(Perform(a, Alice, Send(a.alice, x)), CastOf(a))
  {
    FreshDiffers(a, Alice);
    SendAsks(a, Alice, x);
    hide Base, Send;
  }

  lemma SameAliceAsked(a: Abs, b: Abs, c: Cast)
    requires Same(a, b) && AliceAsked(a, c)
    ensures AliceAsked(b, c)
  {
    SameBase(a, b);
    hide Base;
  }

  lemma BobAsks(a: Abs, c: Cast, y: seq<byte>)
    requires AliceAsked(a, c)
    ensures Stage(Perform(a, Bob, Send(a.bob, y)), c, Alice, Asked, Asked,
                  [ARequest(c.aliceKey), AText], [ARequest(c.bobKey), AText])
  {
    FreshDiffers(a, Alice);
    FreshDiffers(a, Bob);
    SendAsks(a, Bob, y);
    hide Base, Send;
  }

  // ---------------------------------------------------------------- the split

  /** No frame of the handshake waits in a mailbox w listens on. */
  ghost predicate NoHandshakeFor(a: Abs, w: Who) {
    forall m, i | Listens(a.At(w).contact, m) && 0 <= i < |a.mail(m)| ::
      a.mail(m)[i].payload.Sealed? && (a.mail(m)[i].payload.plain.Text? || a.mail(m)[i].payload.plain.Receipt?)
  }

  /** Neither side listens where the other sends, and no handshake frame is left that could change it. */
  ghost predicate Split(a: Abs) {
    && !Listens(a.bob.contact, a.alice.contact.txId)
    && !Listens(a.alice.contact, a.bob.contact.txId)
    && a.alice.contact.complete && a.bob.contact.complete
    && NoHandshakeFor(a, Alice)
    && NoHandshakeFor(a, Bob)
  }

  /** Two sides that each answered the other and then took the other's answer are split. */
  lemma BothDoneSplit(a: Abs, c: Cast, f: SecretKey, r: SecretKey, sent: seq<Kind>, inbox: seq<Kind>)
    requires Stage(a, c, Alice, Done(f, r), Done(r, f), sent, inbox)
    ensures Split(a)
  {
    assert LocalOk(a, Alice) && LocalOk(a, Bob);
    IdleHasNoTokens(a, Alice);
    IdleHasNoTokens(a, Bob);
    forall w, m, i | Listens(a.At(w).contact, m) && 0 <= i < |a.mail(m)|
      ensures a.mail(m)[i].payload.Sealed? && (a.mail(m)[i].payload.plain.Text? || a.mail(m)[i].payload.plain.Receipt?)
    {
      assert TransitOk(a, m, a.mail(m)[i]);
      assert !TokenAt(a, Alice, m, i) && !TokenAt(a, Bob, m, i);
    }
  }

  // ---------------------------------------------------------------- a split is permanent

  lemma PerformKeepsSplit(a: Abs, w: Who, e: Effect)
    requires Base(a) && Split(a)
    requires var c := a.At(w).contact;
             var d := e.local.contact;
             d.txId == c.txId && d.rxId == c.rxId && d.complete && d.oldRxId in {c.oldRxId, None}
    ensures Split(Perform(a, w, e))
  {
    var b := Perform(a, w, e);
    assert LocalOk(a, w);
    forall v, m | Listens(b.At(v).contact, m)
      ensures Listens(a.At(v).contact, m) && b.mail(m) == a.mail(m)
    {
    }
  }

  lemma TakeKeepsSplit(a: Abs, n: MailboxId, i: nat)
    requires Split(a) && i < |a.mail(n)|
    ensures Split(Take(a, n, i))
  {
    var b := Take(a, n, i);
    forall w, m, k | Listens(b.At(w).contact, m) && 0 <= k < |b.mail(m)|
      ensures b.mail(m)[k].payload.Sealed? && (b.mail(m)[k].payload.plain.Text? || b.mail(m)[k].payload.plain.Receipt?)
    {
      TakeAt(a, n, i, m, k);
      assert Listens(a.At(w).contact, m);
    }
  }

  lemma SameSplit(a: Abs, b: Abs)
    requires Same(a, b) && Split(a)
    ensures Split(b)
  {
    forall w, m, i | Listens(b.At(w).contact, m) && 0 <= i < |b.mail(m)|
      ensures b.mail(m)[i] == a.mail(m)[i] && Listens(a.At(w).contact, m)
    {
    }
  }

  /** On a split, a delivered frame is text or a receipt, or nobody listens to it. */
  lemma ReceiveOnSplit(a: Abs, w: Who, m: MailboxId)
    requires Base(a) && Split(a) && Possible(a, DeliverMove(w, m))
    ensures var c := a.At(w).contact;
            var d := Receive(a.At(w), a.mail(m)[0]).local.contact;
            d.txId == c.txId && d.rxId == c.rxId && d.complete && d.oldRxId in {c.oldRxId, None}
  {
    var f := a.mail(m)[0];
    assert NoHandshakeFor(a, w) && a.At(w).contact.complete;
    hide Base, Split, Receive;
    if Listens(a.At(w).contact, m) && f.payload.plain.Text? {
      ListensOpens(a, w, m);
      PushEffect(a.At(w), f);
    } else {
      OtherwiseKeepsBase(a, w, m);
    }
  }

  lemma SendOnSplit(p: Local, data: seq<byte>)
    requires p.contact.complete
    ensures forall d | d in {Send(p, data).local.contact, Connect(p).local.contact} ::
              d.txId == p.contact.txId && d.rxId == p.contact.rxId && d.complete && d.oldRxId == p.contact.oldRxId
  {
  }

  /** No move mends a split. */
  lemma MoveKeepsSplit(a: Abs, mv: Move)
    requires Base(a) && Split(a) && Possible(a, mv)
    ensures Split(Moved(a, mv))
  {
    if mv.ConnectMove? || mv.SendMove? {
      SendOnSplit(a.At(mv.w), if mv.SendMove? then mv.data else []);
    }
    hide Base, Split, Perform, Take, Send, Connect, Receive;
    match mv
    case Stay =>
    case ConnectMove(w) => PerformKeepsSplit(a, w, Connect(a.At(w)));
    case SendMove(w, data) => PerformKeepsSplit(a, w, Send(a.At(w), data));
    case LoseMove(m, i) => TakeKeepsSplit(a, m, i);
    case DeliverMove(w, m) => DeliverKeepsSplit(a, w, m);
  }

  lemma DeliverKeepsSplit(a: Abs, w: Who, m: MailboxId)
    requires Base(a) && Split(a) && Possible(a, DeliverMove(w, m))
    ensures Split(Deliver(a, w, m))
  {
    hide Base, Split, Perform, Receive;
    ReceiveOnSplit(a, w, m);
    TakeKeepsBase(a, m, 0);
    TakeKeepsSplit(a, m, 0);
    PerformKeepsSplit(Take(a, m, 0), w, Receive(a.At(w), a.mail(m)[0]));
  }
}
