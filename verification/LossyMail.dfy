/**
  * Two clients and, per mailbox, one queue of mail in transit that may lose frames. This is the
  * abstraction on which the rotation protocol is proved; the relay pipeline refines it.
  */
module LossyMail {
  import opened Common
  import opened Crypto
  import opened ClientCore

  datatype Who = Alice | Bob

  function Other(w: Who): Who {
    if w == Alice then Bob else Alice
  }

  datatype Abs = Abs(alice: Local, bob: Local, mail: MailboxId -> seq<MailFrame>) {
    function At(w: Who): Local {
      if w == Alice then alice else bob
    }

    function Put(w: Who, p: Local): Abs {
      if w == Alice then this.(alice := p) else this.(bob := p)
    }
  }

  function Sender(m: MailboxId): SecretKey {
    m.digest.first.secret
  }

  function Receiver(m: MailboxId): SecretKey {
    m.digest.second.secret
  }

  /** One client's effect: its new state, and its frames appended to the mailbox it sends to. */
  function Perform(a: Abs, w: Who, e: Effect): Abs {
    var tx := a.At(w).contact.txId;
    a.Put(w, e.local).(mail := (m: MailboxId) => if m == tx then a.mail(m) + e.out else a.mail(m))
  }

  /** Removes the i-th frame of a mailbox: delivery of the oldest one, or loss of any one. */
  function Take(a: Abs, n: MailboxId, i: nat): Abs
    requires i < |a.mail(n)|
  {
    a.(mail := (m: MailboxId) => if m == n then a.mail(n)[..i] + a.mail(n)[i + 1..] else a.mail(m))
  }

  /** Delivery of the oldest frame of a mailbox to the client it is addressed to. */
  function Deliver(a: Abs, w: Who, m: MailboxId): Abs
    requires a.mail(m) != []
  {
    Perform(Take(a, m, 0), w, Receive(a.At(w), a.mail(m)[0]))
  }

  // ---------------------------------------------------------------- what every run keeps

  predicate Known(a: Abs, k: SecretKey) {
    && (k.party == a.alice.me || k.party == a.bob.me)
    && (k.Ephemeral? && k.party == a.alice.me ==> k.n < a.alice.generated)
    && (k.Ephemeral? && k.party == a.bob.me ==> k.n < a.bob.generated)
  }

  /** m is a mailbox from w to the other side, derived from keys that exist. */
  predicate MailboxOk(a: Abs, w: Who, m: MailboxId) {
    && m == MailboxOf(Sender(m), Receiver(m))
    && Sender(m).party == a.At(w).me
    && Receiver(m).party == a.At(Other(w)).me
    && Known(a, Sender(m))
    && Known(a, Receiver(m))
    && Sender(m).Ephemeral? == Receiver(m).Ephemeral?
  }

  predicate OldOk(a: Abs, w: Who, c: ContactState) {
    && c.oldRxId.Some? == c.oldRxKey.Some?
    && (c.oldRxId.Some? ==>
          && MailboxOk(a, Other(w), c.oldRxId.value)
          && Receiver(c.oldRxId.value).Ephemeral?
          && c.oldRxKey.value.digest == c.oldRxId.value.digest
          && c.oldRxId.value != c.rxId
          && c.pending != Some(Receiver(c.oldRxId.value))
          && c.complete)
  }

  predicate PendingOk(p: Local, c: ContactState) {
    && c.pfs != RotationResponding
    && (c.pfs == RotationRequested <==> c.pending.Some?)
    && (c.pending.Some? ==>
          && c.pending.value.Ephemeral?
          && c.pending.value.party == p.me
          && c.pending.value.n < p.generated
          && c.pending.value != Sender(c.txId))
    && (!c.complete && c.pending.Some? ==> IsInitialPfsInitiator(p.me, c.publicKey))
  }

  /** Every (id, key) pair of a contact comes from one derivation, and the two directions belong together. */
  predicate LocalOk(a: Abs, w: Who) {
    var p := a.At(w);
    var c := p.contact;
    && c.publicKey == a.At(Other(w)).me
    && MailboxOk(a, w, c.txId)
    && c.txKey.digest == c.txId.digest
    && c.rxId == MailboxOf(Receiver(c.txId), Sender(c.txId))
    && c.rxKey.digest == c.rxId.digest
    && c.complete == Sender(c.txId).Ephemeral?
    && OldOk(a, w, c)
    && PendingOk(p, c)
    && c.counter < UINT32_RANGE
    && (c.pfs == Idle && p.interval > 0 ==> c.counter <= p.interval)
    && p.interval < UINT32_RANGE
  }

  /** A frame in mailbox m from w: sealed under that mailbox's key, and of a kind allowed there. */
  predicate FrameOk(a: Abs, w: Who, m: MailboxId, f: MailFrame) {
    && f.mailbox == m
    && f.payload.Sealed?
    && f.payload.key.digest == m.digest
    && f.action == (if f.payload.plain.Receipt? then Ack else Push)
    && match f.payload.plain
       case Text(_) => Sender(m).Ephemeral?
       case Receipt(_) => Sender(m).Ephemeral?
       case RotateRequest(key, s) =>
         && s == Signature(a.At(w).me, [key])
         && (Sender(m).Identity? ==> IsInitialPfsInitiator(a.At(w).me, a.At(Other(w)).me))
       case RotateAck(key, s) =>
         && s.signer == a.At(w).me && |s.message| == 2 && s.message[1] == key
         && key.secret.Ephemeral? && key.secret.party == a.At(w).me && Known(a, key.secret)
         && (Sender(m).Identity? ==> !IsInitialPfsInitiator(a.At(w).me, a.At(Other(w)).me))
  }

  function SideOf(a: Abs, m: MailboxId): Who {
    if Sender(m).party == a.alice.me then Alice else Bob
  }

  /** The mailbox of a frame in transit is well formed, and so is the frame. */
  predicate TransitOk(a: Abs, m: MailboxId, f: MailFrame) {
    MailboxOk(a, SideOf(a, m), m) && FrameOk(a, SideOf(a, m), m, f)
  }

  ghost predicate MailOk(a: Abs) {
    forall m, i | 0 <= i < |a.mail(m)| :: TransitOk(a, m, a.mail(m)[i])
  }

  /** The handshake frames that concern w's own outstanding request. */
  predicate IsToken(a: Abs, w: Who, f: MailFrame) {
    && f.payload.Sealed?
    && (|| (f.payload.plain.RotateRequest? && Sender(f.mailbox).party == a.At(w).me)
        || (f.payload.plain.RotateAck? && Sender(f.mailbox).party == a.At(Other(w)).me))
  }

  predicate TokenMatches(c: ContactState, plain: Plaintext)
    requires plain.RotateRequest? || plain.RotateAck?
  {
    && c.pending.Some?
    && (plain.RotateRequest? ==> plain.key == PublicKey(c.pending.value))
    && (plain.RotateAck? ==> |plain.signature.message| > 0 && plain.signature.message[0] == PublicKey(c.pending.value))
  }

  predicate TokenAt(a: Abs, w: Who, m: MailboxId, i: int) {
    0 <= i < |a.mail(m)| && IsToken(a, w, a.mail(m)[i])
  }

  ghost predicate TokensMatch(a: Abs, w: Who) {
    forall m, i | TokenAt(a, w, m, i) :: TokenMatches(a.At(w).contact, a.mail(m)[i].payload.plain)
  }

  /** At most one handshake frame is in transit for w's outstanding request. */
  ghost predicate TokensUnique(a: Abs, w: Who) {
    forall m, i, n, j | TokenAt(a, w, m, i) && TokenAt(a, w, n, j) :: m == n && i == j
  }

  ghost predicate NoTokens(a: Abs, w: Who) {
    forall m, i :: !TokenAt(a, w, m, i)
  }

  ghost predicate TokensOk(a: Abs) {
    && TokensMatch(a, Alice) && TokensUnique(a, Alice)
    && TokensMatch(a, Bob) && TokensUnique(a, Bob)
  }

  ghost predicate Base(a: Abs) {
    && a.alice.me != a.bob.me
    && LocalOk(a, Alice)
    && LocalOk(a, Bob)
    && MailOk(a)
    && TokensOk(a)
  }

  lemma LocalOf(a: Abs, w: Who)
    requires Base(a)
    ensures LocalOk(a, w) && a.alice.me != a.bob.me
  {
    hide MailOk, TokensOk;
  }

  lemma MailOf(a: Abs, m: MailboxId, i: nat)
    requires Base(a) && i < |a.mail(m)|
    ensures TransitOk(a, m, a.mail(m)[i])
  {
    hide LocalOk, TokensOk;
  }

  lemma TokensOf(a: Abs, w: Who)
    requires Base(a)
    ensures TokensMatch(a, w) && TokensUnique(a, w)
  {
    hide LocalOk, MailOk;
  }

  lemma IdleHasNoTokens(a: Abs, w: Who)
    requires Base(a) && a.At(w).contact.pfs == Idle
    ensures NoTokens(a, w)
  {
    hide Base;
    LocalOf(a, w);
    TokensOf(a, w);
  }

  // ---------------------------------------------------------------- one lemma per elementary effect

  /** Where the k-th remaining frame of mailbox m stood before the i-th of mailbox n was taken. */
  function Before(n: MailboxId, i: nat, m: MailboxId, k: nat): nat {
    if m == n && k >= i then k + 1 else k
  }

  lemma TakeAt(a: Abs, n: MailboxId, i: nat, m: MailboxId, k: nat)
    requires i < |a.mail(n)| && k < |Take(a, n, i).mail(m)|
    ensures Before(n, i, m, k) < |a.mail(m)|
    ensures Take(a, n, i).mail(m)[k] == a.mail(m)[Before(n, i, m, k)]
    ensures m == n ==> Before(n, i, m, k) != i
  {
  }

  lemma TakeKeepsMail(a: Abs, n: MailboxId, i: nat)
    requires MailOk(a) && i < |a.mail(n)|
    ensures MailOk(Take(a, n, i))
  {
    var b := Take(a, n, i);
    forall m, k | 0 <= k < |b.mail(m)|
      ensures TransitOk(b, m, b.mail(m)[k])
    {
      TakeAt(a, n, i, m, k);
      assert TransitOk(a, m, a.mail(m)[Before(n, i, m, k)]);
    }
  }

  lemma TakeKeepsTokens(a: Abs, n: MailboxId, i: nat, w: Who)
    requires TokensMatch(a, w) && TokensUnique(a, w) && i < |a.mail(n)|
    ensures TokensMatch(Take(a, n, i), w) && TokensUnique(Take(a, n, i), w)
    ensures IsToken(a, w, a.mail(n)[i]) ==> NoTokens(Take(a, n, i), w)
  {
    var b := Take(a, n, i);
    forall m, k | TokenAt(b, w, m, k)
      ensures TokenAt(a, w, m, Before(n, i, m, k)) && b.mail(m)[k] == a.mail(m)[Before(n, i, m, k)]
      ensures m == n ==> Before(n, i, m, k) != i
    {
      TakeAt(a, n, i, m, k);
    }
    assert IsToken(a, w, a.mail(n)[i]) ==> TokenAt(a, w, n, i);
  }

  /** Losing or taking out a frame keeps the base invariant; taking a token leaves none. */
  lemma TakeKeepsBase(a: Abs, n: MailboxId, i: nat)
    requires Base(a) && i < |a.mail(n)|
    ensures Base(Take(a, n, i))
    ensures forall w :: IsToken(a, w, a.mail(n)[i]) ==> NoTokens(Take(a, n, i), w)
  {
    hide MailOk, TokensMatch, TokensUnique, NoTokens;
    TakeKeepsMail(a, n, i);
    TakeKeepsTokens(a, n, i, Alice);
    TakeKeepsTokens(a, n, i, Bob);
  }

  /** What Perform does to one position of the mail. */
  lemma PerformAt(a: Abs, w: Who, e: Effect, m: MailboxId, k: nat)
    requires k < |Perform(a, w, e).mail(m)|
    ensures k < |a.mail(m)| ==> Perform(a, w, e).mail(m)[k] == a.mail(m)[k]
    ensures k >= |a.mail(m)| ==>
              && m == a.At(w).contact.txId
              && k - |a.mail(m)| < |e.out|
              && Perform(a, w, e).mail(m)[k] == e.out[k - |a.mail(m)|]
  {
  }

  predicate SameParty(p: Local, q: Local) {
    && q.me == p.me && q.interval == p.interval && p.generated <= q.generated
    && q.contact.publicKey == p.contact.publicKey
  }

  lemma KnownGrows(a: Abs, w: Who, q: Local, mail: MailboxId -> seq<MailFrame>, k: SecretKey)
    requires SameParty(a.At(w), q) && Known(a, k)
    ensures Known(a.Put(w, q).(mail := mail), k)
  {
  }

  lemma PerformKeepsMail(a: Abs, w: Who, e: Effect)
    requires MailOk(a) && LocalOk(a, w) && a.alice.me != a.bob.me
    requires SameParty(a.At(w), e.local)
    requires forall f | f in e.out :: FrameOk(Perform(a, w, e), w, a.At(w).contact.txId, f)
    ensures MailOk(Perform(a, w, e))
  {
    var b := Perform(a, w, e);
    forall m, k | 0 <= k < |b.mail(m)|
      ensures TransitOk(b, m, b.mail(m)[k])
    {
      PerformAt(a, w, e, m, k);
      if k < |a.mail(m)| {
        assert TransitOk(a, m, a.mail(m)[k]);
      }
    }
  }

  lemma PerformKeepsTokens(a: Abs, w: Who, e: Effect, t: Who)
    requires TokensMatch(a, t) && TokensUnique(a, t)
    requires SameParty(a.At(w), e.local)
    requires |e.out| <= 1
    requires NoTokens(a, t) || Perform(a, w, e).At(t).contact.pending == a.At(t).contact.pending
    requires e.out != [] && IsToken(a, t, e.out[0]) ==>
               NoTokens(a, t) && TokenMatches(Perform(a, w, e).At(t).contact, e.out[0].payload.plain)
    ensures TokensMatch(Perform(a, w, e), t) && TokensUnique(Perform(a, w, e), t)
  {
    var b := Perform(a, w, e);
    forall m, k | TokenAt(b, t, m, k)
      ensures k < |a.mail(m)| ==> TokenAt(a, t, m, k) && b.mail(m)[k] == a.mail(m)[k]
      ensures k >= |a.mail(m)| ==>
                && m == a.At(w).contact.txId && k == |a.mail(m)|
                && e.out != [] && b.mail(m)[k] == e.out[0] && IsToken(a, t, e.out[0])
    {
      PerformAt(a, w, e, m, k);
    }
  }

  /** Text, receipts, history and the retirement of an old mailbox: nothing of the handshake changes. */
  predicate Calm(p: Local, e: Effect) {
    var c := p.contact;
    var d := e.local.contact;
    && e.local == p.(contact := d, history := e.local.history, connected := e.local.connected)
    && d.(counter := c.counter) in [c, c.(oldRxId := None, oldRxKey := None)]
    && d.counter < UINT32_RANGE
    && (d.pfs == Idle && p.interval > 0 ==> d.counter <= p.interval)
    && (e.out == [] || (c.complete && |e.out| == 1 && CalmFrame(c, e.out[0])))
  }

  predicate CalmFrame(c: ContactState, f: MailFrame) {
    && f.payload.Sealed?
    && var plain := f.payload.plain;
       || (plain.Text? && f == SealTo(Push, c, plain))
       || (plain.Receipt? && f == SealTo(Ack, c, plain))
  }

  lemma CalmLocalOk(a: Abs, w: Who, e: Effect)
    requires LocalOk(a, w) && Calm(a.At(w), e)
    ensures LocalOk(Perform(a, w, e), w)
    ensures SameParty(a.At(w), e.local)
  {
    var b := Perform(a, w, e);
    assert b.At(w) == e.local && b.At(Other(w)) == a.At(Other(w));
    hide Perform;
    CalmMailboxes(a, w, e);
    hide MailboxOk;
  }

  lemma CalmMailboxes(a: Abs, w: Who, e: Effect)
    requires e.local.me == a.At(w).me && e.local.generated == a.At(w).generated
    ensures forall x, m :: MailboxOk(Perform(a, w, e), x, m) == MailboxOk(a, x, m)
  {
  }

  lemma CalmFramesOk(a: Abs, w: Who, e: Effect)
    requires LocalOk(a, w) && Calm(a.At(w), e)
    ensures forall f | f in e.out :: FrameOk(Perform(a, w, e), w, a.At(w).contact.txId, f)
  {
    hide OldOk, PendingOk, MailboxOk;
  }

  /** Calm effects neither change the pending request nor send a handshake frame. */
  lemma CalmTokens(a: Abs, w: Who, e: Effect)
    requires Calm(a.At(w), e)
    ensures |e.out| <= 1
    ensures forall t :: Perform(a, w, e).At(t).contact.pending == a.At(t).contact.pending
    ensures forall t :: e.out != [] ==> !IsToken(a, t, e.out[0])
  {
  }

  lemma CalmKeepsBase(a: Abs, w: Who, e: Effect)
    requires Base(a) && Calm(a.At(w), e)
    ensures Base(Perform(a, w, e))
  {
    hide LocalOk, MailOk, TokensMatch, TokensUnique, Calm, FrameOk, NoTokens;
    LocalOf(a, w);
    LocalOf(a, Other(w));
    CalmLocalOk(a, w, e);
    CalmFramesOk(a, w, e);
    OtherStaysOk(a, w, e);
    CalmTokens(a, w, e);
    PerformKeepsMail(a, w, e);
    PerformKeepsTokens(a, w, e, Alice);
    PerformKeepsTokens(a, w, e, Bob);
  }

  lemma InitiateKeepsBase(a: Abs, w: Who)
    requires Base(a)
    requires a.At(w).contact.complete || IsInitialPfsInitiator(a.At(w).me, a.At(w).contact.publicKey)
    ensures Base(Perform(a, w, InitiateRotation(a.At(w))))
  {
    hide Base;
    if a.At(w).contact.pfs == Idle {
      InitiateIdleKeepsBase(a, w);
    } else {
      LocalOf(a, w);
      CalmKeepsBase(a, w, InitiateRotation(a.At(w)));
    }
  }

  lemma InitiateIdleKeepsBase(a: Abs, w: Who)
    requires Base(a) && a.At(w).contact.pfs == Idle
    requires a.At(w).contact.complete || IsInitialPfsInitiator(a.At(w).me, a.At(w).contact.publicKey)
    ensures Base(Perform(a, w, InitiateRotation(a.At(w))))
  {
    hide MailOk, TokensMatch, TokensUnique, NoTokens, LocalOk;
    LocalOf(a, w);
    LocalOf(a, Other(w));
    var e := InitiateRotation(a.At(w));
    IdleHasNoTokens(a, w);
    InitiateLocalOk(a, w);
    OtherStaysOk(a, w, e);
    InitiateTokensOk(a, w);
    hide InitiateRotation, IsToken, TokenMatches, FrameOk;
    PerformKeepsMail(a, w, e);
    PerformKeepsTokens(a, w, e, w);
    PerformKeepsTokens(a, w, e, Other(w));
  }

  /** A request is a handshake frame of the asker, and matches what it waits for. */
  lemma InitiateTokensOk(a: Abs, w: Who)
    requires LocalOk(a, w) && a.alice.me != a.bob.me && a.At(w).contact.pfs == Idle
    ensures var e := InitiateRotation(a.At(w));
            && |e.out| == 1 && !IsToken(a, Other(w), e.out[0])
            && IsToken(a, w, e.out[0]) && TokenMatches(Perform(a, w, e).At(w).contact, e.out[0].payload.plain)
  {
    hide OldOk, PendingOk;
  }

  lemma InitiateLocalOk(a: Abs, w: Who)
    requires LocalOk(a, w) && a.At(w).contact.pfs == Idle
    requires a.At(w).contact.complete || IsInitialPfsInitiator(a.At(w).me, a.At(w).contact.publicKey)
    ensures var e := InitiateRotation(a.At(w));
            && LocalOk(Perform(a, w, e), w) && SameParty(a.At(w), e.local)
            && forall f | f in e.out :: FrameOk(Perform(a, w, e), w, a.At(w).contact.txId, f)
  {
  }

  lemma OtherStaysOk(a: Abs, w: Who, e: Effect)
    requires a.alice.me != a.bob.me && LocalOk(a, Other(w)) && SameParty(a.At(w), e.local)
    ensures LocalOk(Perform(a, w, e), Other(w))
  {
  }

  /** A contact that adopts keys derived from a fresh or pending own key and the other side's key is in order. */
  lemma AdoptedOk(a: Abs, w: Who, mine: SecretKey, theirs: PublicKey, c: ContactState)
    requires a.alice.me != a.bob.me
    requires mine.Ephemeral? && mine.party == a.At(w).me && Known(a, mine)
    requires theirs.secret.Ephemeral? && theirs.secret.party == a.At(Other(w)).me && Known(a, theirs.secret)
    requires var d := Derive(mine, theirs);
             c.txId == d.txId && c.txKey == d.txKey && c.rxId == d.rxId && c.rxKey == d.rxKey
    ensures MailboxOk(a, w, c.txId) && c.txKey.digest == c.txId.digest
    ensures c.rxId == MailboxOf(Receiver(c.txId), Sender(c.txId)) && c.rxKey.digest == c.rxId.digest
    ensures Sender(c.txId) == mine && Receiver(c.txId) == theirs.secret
  {
  }

  predicate MayAnswer(a: Abs, w: Who, key: PublicKey, s: Signature) {
    && a.At(Other(w)).contact.pending == Some(key.secret)
    && s == Signature(a.At(Other(w)).me, [key])
    && (a.At(w).contact.complete || !IsInitialPfsInitiator(a.At(w).me, a.At(w).contact.publicKey))
  }

  lemma AnswerLocalOk(a: Abs, w: Who, key: PublicKey, s: Signature)
    requires Base(a) && MayAnswer(a, w, key, s)
    ensures LocalOk(Perform(a, w, HandleRotateRequest(a.At(w), key, s)), w)
  {
    hide Base;
    LocalOf(a, w);
    LocalOf(a, Other(w));
    var p := a.At(w);
    var e := HandleRotateRequest(p, key, s);
    var b := Perform(a, w, e);
    var f := Ephemeral(p.me, p.generated);
    KnownGrows(a, w, e.local, b.mail, key.secret);
    AdoptedOk(b, w, f, key, e.local.contact);
    assert p.contact.complete ==> MailboxOk(b, Other(w), p.contact.rxId);
    assert PendingOk(e.local, e.local.contact);
    assert OldOk(b, w, e.local.contact);
    hide MailboxOk, OldOk, PendingOk;
  }

  lemma AnswerFrames(a: Abs, w: Who, key: PublicKey, s: Signature)
    requires Base(a) && MayAnswer(a, w, key, s)
    ensures var e := HandleRotateRequest(a.At(w), key, s);
            && SameParty(a.At(w), e.local)
            && forall f | f in e.out :: FrameOk(Perform(a, w, e), w, a.At(w).contact.txId, f)
  {
    hide Base;
    LocalOf(a, w);
    LexLessTrichotomy(a.alice.me, a.bob.me);
  }

  /** An answer is a handshake frame of the asker, and matches its request. */
  lemma AnswerTokensOk(a: Abs, w: Who, key: PublicKey, s: Signature)
    requires LocalOk(a, w) && a.alice.me != a.bob.me && MayAnswer(a, w, key, s)
    ensures var e := HandleRotateRequest(a.At(w), key, s);
            var b := Perform(a, w, e);
            && |e.out| == 1 && e.local.contact.pending == a.At(w).contact.pending && !IsToken(a, w, e.out[0])
            && IsToken(a, Other(w), e.out[0]) && TokenMatches(b.At(Other(w)).contact, e.out[0].payload.plain)
  {
    hide OldOk, PendingOk;
  }

  /** Answering a request whose sender still waits, with no other handshake frame of that sender about. */
  lemma AnswerKeepsBase(a: Abs, w: Who, key: PublicKey, s: Signature)
    requires Base(a) && NoTokens(a, Other(w)) && MayAnswer(a, w, key, s)
    ensures Base(Perform(a, w, HandleRotateRequest(a.At(w), key, s)))
  {
    hide MailOk, TokensMatch, TokensUnique, NoTokens, FrameOk, LocalOk, HandleRotateRequest;
    var e := HandleRotateRequest(a.At(w), key, s);
    LocalOf(a, w);
    LocalOf(a, Other(w));
    AnswerTokensOk(a, w, key, s);
    hide MayAnswer, IsToken, TokenMatches;
    AnswerLocalOk(a, w, key, s);
    AnswerFrames(a, w, key, s);
    OtherStaysOk(a, w, e);
    PerformKeepsMail(a, w, e);
    PerformKeepsTokens(a, w, e, w);
    PerformKeepsTokens(a, w, e, Other(w));
  }

  predicate MayComplete(a: Abs, w: Who, key: PublicKey, s: Signature) {
    && a.At(w).contact.pending.Some?
    && s == Signature(a.At(Other(w)).me, [PublicKey(a.At(w).contact.pending.value), key])
    && key.secret.Ephemeral? && key.secret.party == a.At(Other(w)).me && Known(a, key.secret)
  }

  lemma CompleteLocalOk(a: Abs, w: Who, key: PublicKey, s: Signature)
    requires Base(a) && MayComplete(a, w, key, s)
    ensures LocalOk(Perform(a, w, HandleRotateAck(a.At(w), key, s)), w)
  {
    hide Base;
    LocalOf(a, w);
    var p := a.At(w);
    var e := HandleRotateAck(p, key, s);
    var b := Perform(a, w, e);
    AdoptedOk(b, w, p.contact.pending.value, key, e.local.contact);
    assert OldOk(b, w, e.local.contact);
    hide MailboxOk, OldOk;
  }

  lemma CompleteKeepsBase(a: Abs, w: Who, key: PublicKey, s: Signature)
    requires Base(a) && NoTokens(a, w) && MayComplete(a, w, key, s)
    ensures Base(Perform(a, w, HandleRotateAck(a.At(w), key, s)))
  {
    hide LocalOk, MailOk, TokensMatch, TokensUnique, NoTokens;
    var e := HandleRotateAck(a.At(w), key, s);
    LocalOf(a, w);
    LocalOf(a, Other(w));
    CompleteLocalOk(a, w, key, s);
    CompleteSilent(a, w, key, s);
    hide HandleRotateAck, MayComplete;
    OtherStaysOk(a, w, e);
    PerformKeepsMail(a, w, e);
    PerformKeepsTokens(a, w, e, w);
    PerformKeepsTokens(a, w, e, Other(w));
  }

  lemma CompleteSilent(a: Abs, w: Who, key: PublicKey, s: Signature)
    requires LocalOk(a, w) && MayComplete(a, w, key, s)
    ensures var e := HandleRotateAck(a.At(w), key, s);
            e.out == [] && SameParty(a.At(w), e.local)
  {
  }

  // ---------------------------------------------------------------- whole handlers

  ghost predicate Same(a: Abs, b: Abs) {
    a.alice == b.alice && a.bob == b.bob && forall m :: a.mail(m) == b.mail(m)
  }

  lemma SameBase(a: Abs, b: Abs)
    requires Same(a, b) && Base(a)
    ensures Base(b)
  {
    hide MailOk, TokensMatch, TokensUnique, LocalOk;
    SameMail(a, b);
    SameTokens(a, b, Alice);
    SameTokens(a, b, Bob);
    SameLocalOk(a, b, Alice);
    SameLocalOk(a, b, Bob);
  }

  lemma SameLocals(a: Abs, b: Abs)
    requires Same(a, b)
    ensures a.alice == b.alice && a.bob == b.bob
    ensures forall w :: a.At(w) == b.At(w)
  {
  }

  lemma TakeKeepsLocals(a: Abs, m: MailboxId, i: nat)
    requires i < |a.mail(m)|
    ensures Take(a, m, i).alice == a.alice && Take(a, m, i).bob == a.bob
    ensures forall w :: Take(a, m, i).At(w) == a.At(w)
  {
  }

  lemma SameMail(a: Abs, b: Abs)
    requires Same(a, b) && MailOk(a)
    ensures MailOk(b)
  {
    forall m, i | 0 <= i < |b.mail(m)|
      ensures TransitOk(b, m, b.mail(m)[i])
    {
      assert TransitOk(a, m, a.mail(m)[i]);
    }
  }

  lemma SameTokens(a: Abs, b: Abs, w: Who)
    requires Same(a, b) && TokensMatch(a, w) && TokensUnique(a, w)
    ensures TokensMatch(b, w) && TokensUnique(b, w)
  {
    forall m, i
      ensures TokenAt(b, w, m, i) == TokenAt(a, w, m, i)
    {
    }
  }

  lemma SameLocalOk(a: Abs, b: Abs, w: Who)
    requires Same(a, b) && LocalOk(a, w)
    ensures LocalOk(b, w)
  {
  }

  /** Two effects of one client in a row, sent to the same mailbox, are one effect. */
  function Then(e: Effect, f: Effect): Effect {
    Effect(f.local, e.out + f.out, f.notice)
  }

  lemma PerformThen(a: Abs, w: Who, e: Effect, f: Effect)
    requires e.local.contact.txId == a.At(w).contact.txId
    ensures Same(Perform(a, w, Then(e, f)), Perform(Perform(a, w, e), w, f))
  {
    var tx := a.At(w).contact.txId;
    assert a.mail(tx) + (e.out + f.out) == (a.mail(tx) + e.out) + f.out;
  }

  lemma StartKeepsBase(a: Abs, w: Who)
    requires Base(a)
    ensures Base(Perform(a, w, MaybeStartInitialPfs(a.At(w))))
  {
    var e := MaybeStartInitialPfs(a.At(w));
    if e.out == [] {
      CalmKeepsBase(a, w, e);
    } else {
      InitiateKeepsBase(a, w);
    }
  }

  lemma ConnectKeepsBase(a: Abs, w: Who)
    requires Base(a)
    ensures Base(Perform(a, w, Connect(a.At(w))))
  {
    hide Base, Same;
    var p := a.At(w);
    LocalOf(a, w);
    if p.connected {
      CalmKeepsBase(a, w, Connect(p));
    } else {
      var on := Effect(p.(connected := true), [], Quiet);
      CalmKeepsBase(a, w, on);
      var b := Perform(a, w, on);
      StartKeepsBase(b, w);
      PerformThen(a, w, on, MaybeStartInitialPfs(b.At(w)));
      assert Then(on, MaybeStartInitialPfs(b.At(w))) == Connect(p);
      SameSym(Perform(a, w, Connect(p)), Perform(b, w, MaybeStartInitialPfs(b.At(w))));
      SameBase(Perform(b, w, MaybeStartInitialPfs(b.At(w))), Perform(a, w, Connect(p)));
    }
  }

  /** Send, cut into logging the text, perhaps starting a rotation, and queueing the text. */
  function Logged(p: Local, data: seq<byte>): Effect {
    Effect(p.(history := AppendMessage(p.history, Entry(MessageId(data), Outbound, PendingAck, data))), [], Quiet)
  }

  function Started(p: Local): Effect {
    if p.interval > 0 && p.contact.counter >= p.interval && p.contact.pfs == Idle
    then InitiateRotation(p) else Effect(p, [], Quiet)
  }

  function Posted(p: Local, data: seq<byte>): Effect {
    Effect(
      p.(contact := p.contact.(counter := (p.contact.counter + 1) % UINT32_RANGE)),
      [SealTo(Push, p.contact, Text(data))],
      Queued)
  }

  lemma SendSplits(p: Local, data: seq<byte>)
    requires p.contact.complete
    ensures var e := Logged(p, data);
            var f := Started(e.local);
            Send(p, data) == Then(Then(e, f), Posted(f.local, data))
  {
  }

  lemma PostedKeepsBase(a: Abs, w: Who, data: seq<byte>)
    requires Base(a)
    requires var p := a.At(w);
             p.contact.complete && (p.contact.pfs == Idle && p.interval > 0 ==> p.contact.counter < p.interval)
    ensures Base(Perform(a, w, Posted(a.At(w), data)))
  {
    var p := a.At(w);
    assert LocalOk(a, w);
    assert Posted(p, data).out == [SealTo(Push, p.contact, Text(data))];
    CalmKeepsBase(a, w, Posted(p, data));
  }

  lemma StartedKeepsBase(a: Abs, w: Who)
    requires Base(a) && a.At(w).contact.complete
    ensures var f := Started(a.At(w));
            var c := f.local.contact;
            && Base(Perform(a, w, f))
            && c.complete && c.txId == a.At(w).contact.txId
            && (c.pfs == Idle && f.local.interval > 0 ==> c.counter < f.local.interval)
  {
    hide Base;
    LocalOf(a, w);
    hide OldOk, MailboxOk;
    if Started(a.At(w)).out == [] {
      CalmKeepsBase(a, w, Started(a.At(w)));
    } else {
      InitiateKeepsBase(a, w);
    }
  }

  lemma SendKeepsBase(a: Abs, w: Who, data: seq<byte>)
    requires Base(a)
    ensures Base(Perform(a, w, Send(a.At(w), data)))
  {
    var p := a.At(w);
    if !p.contact.complete {
      StartKeepsBase(a, w);
      SameBase(Perform(a, w, MaybeStartInitialPfs(p)), Perform(a, w, Send(p, data)));
    } else {
      SendSplits(p, data);
      var e := Logged(p, data);
      LoggedKeepsBase(a, w, data);
      hide Base, Send, Started, Same, Logged, Posted, Then;
      var b := Perform(a, w, e);
      var f := Started(b.At(w));
      StartedKeepsBase(b, w);
      PerformThen(a, w, e, f);
      SameBase(Perform(b, w, f), Perform(a, w, Then(e, f)));
      var c := Perform(a, w, Then(e, f));
      var g := Posted(f.local, data);
      PostedKeepsBase(c, w, data);
      PerformThen(a, w, Then(e, f), g);
      SameBase(Perform(c, w, g), Perform(a, w, Send(p, data)));
    }
  }

  lemma LoggedKeepsBase(a: Abs, w: Who, data: seq<byte>)
    requires Base(a)
    ensures Base(Perform(a, w, Logged(a.At(w), data)))
    ensures Logged(a.At(w), data).local.contact == a.At(w).contact
  {
    assert LocalOk(a, w);
    CalmKeepsBase(a, w, Logged(a.At(w), data));
  }

  /** Notices that report a frame as bad or out of place. */
  predicate Rejected(n: Notice) {
    n in {Malformed, TextBeforePfs, BadSignature, SimultaneousInitial, UnexpectedAck}
  }

  /** A frame on a mailbox its receiver listens on opens under the key kept with that mailbox. */
  lemma ListensOpens(a: Abs, w: Who, m: MailboxId)
    requires Arriving(a, w, m)
    ensures var f := a.mail(m)[0];
            var c := a.At(w).contact;
            && FrameOk(a, Other(w), m, f)
            && Open(KeyFor(c, c.oldRxId == Some(m)), f.payload) == Some(f.payload.plain)
            && c.complete == Sender(m).Ephemeral?
  {
    hide Base;
    MailOf(a, m, 0);
    LocalOf(a, w);
  }

  /** The part of a delivery before the opcode is looked at: the frame is gone, an old mailbox perhaps retired. */
  function Opened(a: Abs, w: Who, m: MailboxId): Abs
    requires a.mail(m) != []
  {
    var p := a.At(w);
    var q := p.(contact := DropOld(p.contact, p.contact.oldRxId == Some(m)));
    Perform(Take(a, m, 0), w, Effect(q, [], Quiet))
  }

  lemma SilentKeepsNoTokens(a: Abs, w: Who, e: Effect, t: Who)
    requires NoTokens(a, t) && e.out == [] && SameParty(a.At(w), e.local)
    ensures NoTokens(Perform(a, w, e), t)
  {
    forall m, i
      ensures !TokenAt(Perform(a, w, e), t, m, i)
    {
      assert !TokenAt(a, t, m, i);
    }
  }

  lemma OpenedKeepsBase(a: Abs, w: Who, m: MailboxId)
    requires Base(a) && a.mail(m) != []
    ensures Base(Opened(a, w, m))
    ensures forall t :: IsToken(a, t, a.mail(m)[0]) ==> NoTokens(Opened(a, w, m), t)
  {
    hide Base, NoTokens;
    TakeKeepsBase(a, m, 0);
    var b := Take(a, m, 0);
    var p := a.At(w);
    var e := Effect(p.(contact := DropOld(p.contact, p.contact.oldRxId == Some(m))), [], Quiet);
    assert Calm(b.At(w), e) by {
      LocalOf(b, w);
    }
    hide Calm;
    CalmKeepsBase(b, w, e);
    forall t | NoTokens(b, t)
      ensures NoTokens(Opened(a, w, m), t)
    {
      SilentKeepsNoTokens(b, w, e, t);
    }
  }

  function Handle(p: Local, plain: Plaintext): Effect {
    match plain
    case Text(data) => if p.contact.complete then HandleText(p, data) else Effect(p, [], TextBeforePfs)
    case RotateRequest(key, s) => HandleRotateRequest(p, key, s)
    case RotateAck(key, s) => HandleRotateAck(p, key, s)
    case Receipt(_) => Effect(p, [], Quiet)
  }

  lemma PushEffect(p: Local, f: MailFrame)
    requires Listens(p.contact, f.mailbox) && f.action == Push && f.payload.Sealed?
    requires Open(KeyFor(p.contact, p.contact.oldRxId == Some(f.mailbox)), f.payload) == Some(f.payload.plain)
    ensures Receive(p, f)
         == Handle(p.(contact := DropOld(p.contact, p.contact.oldRxId == Some(f.mailbox))), f.payload.plain)
  {
  }

  /** The mail w is about to act on: the head of a mailbox it listens to. */
  ghost predicate Arriving(a: Abs, w: Who, m: MailboxId) {
    Base(a) && a.mail(m) != [] && SideOf(a, m) == Other(w) && Listens(a.At(w).contact, m)
  }

  /** Delivering a push that its receiver listens for: open it, then handle its plaintext. */
  lemma PushSplits(a: Abs, w: Who, m: MailboxId)
    requires Arriving(a, w, m) && !a.mail(m)[0].payload.plain.Receipt?
    ensures var o := Opened(a, w, m);
            var e := Handle(o.At(w), a.mail(m)[0].payload.plain);
            && Receive(a.At(w), a.mail(m)[0]) == e
            && Same(Deliver(a, w, m), Perform(o, w, e))
  {
    hide Base, Handle, Receive, Same;
    var p := a.At(w);
    var f := a.mail(m)[0];
    ListensOpens(a, w, m);
    PushEffect(p, f);
    var q := p.(contact := DropOld(p.contact, p.contact.oldRxId == Some(m)));
    var e := Handle(q, f.payload.plain);
    PerformThen(Take(a, m, 0), w, Effect(q, [], Quiet), e);
    assert Then(Effect(q, [], Quiet), e) == e;
  }

  lemma RequestKeepsBase(a: Abs, w: Who, m: MailboxId)
    requires Arriving(a, w, m) && a.mail(m)[0].payload.plain.RotateRequest?
    ensures var o := Opened(a, w, m);
            var plain := a.mail(m)[0].payload.plain;
            && NoTokens(o, Other(w))
            && MayAnswer(o, w, plain.key, plain.signature)
            && Base(Perform(o, w, HandleRotateRequest(o.At(w), plain.key, plain.signature)))
            && HandleRotateRequest(o.At(w), plain.key, plain.signature).notice == RotationAnswered
  {
    var o := Opened(a, w, m);
    var plain := a.mail(m)[0].payload.plain;
    hide Base, NoTokens, Opened;
    RequestMayBeAnswered(a, w, m);
    OpenedKeepsBase(a, w, m);
    LocalOf(o, w);
    assert HandleRotateRequest(o.At(w), plain.key, plain.signature).notice == RotationAnswered;
    hide LocalOk, MayAnswer, HandleRotateRequest;
    AnswerKeepsBase(o, w, plain.key, plain.signature);
  }

  lemma RequestMayBeAnswered(a: Abs, w: Who, m: MailboxId)
    requires Arriving(a, w, m) && a.mail(m)[0].payload.plain.RotateRequest?
    ensures var plain := a.mail(m)[0].payload.plain;
            IsToken(a, Other(w), a.mail(m)[0]) && MayAnswer(Opened(a, w, m), w, plain.key, plain.signature)
  {
    hide Base;
    ListensOpens(a, w, m);
    LocalOf(a, w);
    assert TokenAt(a, Other(w), m, 0);
    TokensOf(a, Other(w));
    assert TokenMatches(a.At(Other(w)).contact, a.mail(m)[0].payload.plain);
    LexLessTrichotomy(a.alice.me, a.bob.me);
    hide TokensMatch, TokensUnique;
  }

  lemma AckKeepsBase(a: Abs, w: Who, m: MailboxId)
    requires Arriving(a, w, m) && a.mail(m)[0].payload.plain.RotateAck?
    ensures var o := Opened(a, w, m);
            var plain := a.mail(m)[0].payload.plain;
            && NoTokens(o, w)
            && MayComplete(o, w, plain.key, plain.signature)
            && Base(Perform(o, w, HandleRotateAck(o.At(w), plain.key, plain.signature)))
            && HandleRotateAck(o.At(w), plain.key, plain.signature).notice == RotationCompleted
  {
    var o := Opened(a, w, m);
    var plain := a.mail(m)[0].payload.plain;
    hide Base, NoTokens, Opened;
    AckMayComplete(a, w, m);
    OpenedKeepsBase(a, w, m);
    LocalOf(o, w);
    assert HandleRotateAck(o.At(w), plain.key, plain.signature).notice == RotationCompleted;
    hide LocalOk, MayComplete, HandleRotateAck;
    CompleteKeepsBase(o, w, plain.key, plain.signature);
  }

  lemma AckMayComplete(a: Abs, w: Who, m: MailboxId)
    requires Arriving(a, w, m) && a.mail(m)[0].payload.plain.RotateAck?
    ensures var plain := a.mail(m)[0].payload.plain;
            IsToken(a, w, a.mail(m)[0]) && MayComplete(Opened(a, w, m), w, plain.key, plain.signature)
  {
    hide Base;
    ListensOpens(a, w, m);
    LocalOf(a, w);
    assert TokenAt(a, w, m, 0);
    TokensOf(a, w);
    assert TokenMatches(a.At(w).contact, a.mail(m)[0].payload.plain);
    hide TokensMatch, TokensUnique;
  }

  lemma TextKeepsBase(a: Abs, w: Who, m: MailboxId)
    requires Arriving(a, w, m) && a.mail(m)[0].payload.plain.Text?
    ensures var o := Opened(a, w, m);
            var data := a.mail(m)[0].payload.plain.data;
            && o.At(w).contact.complete
            && Base(Perform(o, w, HandleText(o.At(w), data)))
  {
    hide Base;
    var o := Opened(a, w, m);
    ListensOpens(a, w, m);
    OpenedKeepsBase(a, w, m);
    LocalOf(o, w);
    CalmKeepsBase(o, w, HandleText(o.At(w), a.mail(m)[0].payload.plain.data));
  }

  lemma HandleKeepsBase(a: Abs, w: Who, m: MailboxId)
    requires Arriving(a, w, m) && !a.mail(m)[0].payload.plain.Receipt?
    ensures var o := Opened(a, w, m);
            var e := Handle(o.At(w), a.mail(m)[0].payload.plain);
            Base(Perform(o, w, e)) && !Rejected(e.notice)
  {
    hide Base, Handle, HandleRotateAck, HandleRotateRequest, HandleText, Perform, Opened;
    MailOf(a, m, 0);
    var plain := a.mail(m)[0].payload.plain;
    HandleIs(Opened(a, w, m).At(w), plain);
    if plain.Text? {
      TextKeepsBase(a, w, m);
    } else if plain.RotateRequest? {
      RequestKeepsBase(a, w, m);
    } else {
      AckKeepsBase(a, w, m);
    }
  }

  lemma HandleIs(p: Local, plain: Plaintext)
    ensures plain.Text? && p.contact.complete ==>
              Handle(p, plain) == HandleText(p, plain.data) && HandleText(p, plain.data).notice == NewMessage
    ensures plain.RotateRequest? ==> Handle(p, plain) == HandleRotateRequest(p, plain.key, plain.signature)
    ensures plain.RotateAck? ==> Handle(p, plain) == HandleRotateAck(p, plain.key, plain.signature)
  {
    hide HandleRotateAck, HandleRotateRequest;
  }

  /** A frame that changes nothing but history: a receipt, or mail for a mailbox not listened to. */
  lemma OtherwiseKeepsBase(a: Abs, w: Who, m: MailboxId)
    requires Base(a) && a.mail(m) != [] && SideOf(a, m) == Other(w)
    requires Listens(a.At(w).contact, m) ==> a.mail(m)[0].payload.plain.Receipt?
    ensures Base(Deliver(a, w, m))
    ensures var e := Receive(a.At(w), a.mail(m)[0]);
            !Rejected(e.notice) && Calm(a.At(w), e) && e.out == [] && e.local.contact == a.At(w).contact
  {
    hide Base;
    OtherwiseCalm(a, w, m);
    TakeKeepsBase(a, m, 0);
    hide Receive, Calm;
    CalmKeepsBase(Take(a, m, 0), w, Receive(a.At(w), a.mail(m)[0]));
  }

  lemma OtherwiseCalm(a: Abs, w: Who, m: MailboxId)
    requires Base(a) && a.mail(m) != [] && SideOf(a, m) == Other(w)
    requires Listens(a.At(w).contact, m) ==> a.mail(m)[0].payload.plain.Receipt?
    ensures var e := Receive(a.At(w), a.mail(m)[0]);
            !Rejected(e.notice) && Calm(a.At(w), e) && e.out == [] && e.local.contact == a.At(w).contact
  {
    hide Base;
    MailOf(a, m, 0);
    LocalOf(a, w);
    if Listens(a.At(w).contact, m) {
      ListensOpens(a, w, m);
    }
    hide OldOk, PendingOk, MailboxOk, UpdateStatus;
  }

  /** Every delivery keeps the base invariant and no honest frame is reported as bad. */
  lemma DeliverKeepsBase(a: Abs, w: Who, m: MailboxId)
    requires Base(a) && a.mail(m) != [] && SideOf(a, m) == Other(w)
    ensures Base(Deliver(a, w, m))
    ensures !Rejected(Receive(a.At(w), a.mail(m)[0]).notice)
  {
    hide Base, Receive, Handle, Opened;
    MailOf(a, m, 0);
    if Listens(a.At(w).contact, m) && !a.mail(m)[0].payload.plain.Receipt? {
      PushSplits(a, w, m);
      HandleKeepsBase(a, w, m);
      SameBase(Perform(Opened(a, w, m), w, Receive(a.At(w), a.mail(m)[0])), Deliver(a, w, m));
    } else {
      OtherwiseKeepsBase(a, w, m);
    }
  }

  // ---------------------------------------------------------------- the machine

  /** One move of two clients over lossy mail. */
  datatype Move =
    | Stay
    | ConnectMove(w: Who)
    | SendMove(w: Who, data: seq<byte>)
    | LoseMove(m: MailboxId, i: nat)
    | DeliverMove(w: Who, m: MailboxId)

  predicate Possible(a: Abs, mv: Move) {
    match mv
    case LoseMove(m, i) => i < |a.mail(m)|
    case DeliverMove(w, m) => a.mail(m) != [] && SideOf(a, m) == Other(w)
    case _ => true
  }

  function Moved(a: Abs, mv: Move): Abs
    requires Possible(a, mv)
  {
    match mv
    case Stay => a
    case ConnectMove(w) => Perform(a, w, Connect(a.At(w)))
    case SendMove(w, data) => Perform(a, w, Send(a.At(w), data))
    case LoseMove(m, i) => Take(a, m, i)
    case DeliverMove(w, m) => Deliver(a, w, m)
  }

  /** Every move keeps the base invariant. */
  lemma MoveKeepsBase(a: Abs, mv: Move)
    requires Base(a) && Possible(a, mv)
    ensures Base(Moved(a, mv))
  {
    hide Base, Deliver, Perform, Take;
    match mv
    case Stay =>
    case ConnectMove(w) => ConnectKeepsBase(a, w);
    case SendMove(w, data) => SendKeepsBase(a, w, data);
    case LoseMove(m, i) => TakeKeepsBase(a, m, i);
    case DeliverMove(w, m) => DeliverKeepsBase(a, w, m);
  }

  lemma SameSym(a: Abs, b: Abs)
    requires Same(a, b)
    ensures Same(b, a)
  {
  }

  lemma SameTrans(a: Abs, b: Abs, c: Abs)
    requires Same(a, b) && Same(b, c)
    ensures Same(a, c)
  {
  }
}
