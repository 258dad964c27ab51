/**
  * What follows when a client answers a rotation request while its own is outstanding. From then on
  * either some client waits for good, or both end on different keys: no run in which that happened
  * ever has two idle clients that agree.
  */
module Collision {
  import opened Common
  import opened Crypto
  import opened ClientCore
  import opened LossyMail
  import opened Rotation
  import opened Crossings

  /**
    * Crossed(w): w has answered with its own request outstanding, and the other has answered nothing.
    * BothCrossed: each has answered the other, neither has taken the other's answer.
    * HalfDone(w): the other has taken w's answer, w has yet to take the other's.
    * Parted: both have, and neither listens where the other sends.
    * Stranded(w): no answer to w's request can reach it any more.
    */
  datatype Fate = Crossed(w: Who) | BothCrossed | HalfDone(w: Who) | Parted | Stranded(w: Who)

  /** The retained mailbox belongs to an earlier own key than the current one. */
  predicate OldBehind(c: ContactState) {
    c.oldRxId.Some? ==> Receiver(c.oldRxId.value) != Sender(c.txId)
  }

  /** x has adopted keys that answer the other side's outstanding request. */
  predicate HasAnswered(a: Abs, x: Who) {
    && a.At(Other(x)).contact.pending == Some(Receiver(a.At(x).contact.txId))
    && OldBehind(a.At(x).contact)
  }

  ghost predicate CrossedOk(a: Abs, w: Who) {
    var c, d := a.At(w).contact, a.At(Other(w)).contact;
    && c.pending.Some? && HasAnswered(a, w)
    && (forall m, i | TokenAt(a, w, m, i) :: a.mail(m)[i].payload.plain.RotateRequest? && m == d.rxId)
    && (forall m, i | TokenAt(a, Other(w), m, i) ::
          && a.mail(m)[i].payload.plain.RotateAck? && m == d.rxId
          && a.mail(m)[i].payload.plain.key.secret == Sender(c.txId))
    && (forall i, j | TokenAt(a, w, d.rxId, i) && TokenAt(a, Other(w), d.rxId, j) :: i < j)
  }

  ghost predicate AwaitsCrossed(a: Abs, x: Who) {
    forall m, i | TokenAt(a, x, m, i) ::
      && a.mail(m)[i].payload.plain.RotateAck? && m != a.At(x).contact.rxId
      && a.mail(m)[i].payload.plain.key.secret == Sender(a.At(Other(x)).contact.txId)
  }

  ghost predicate HalfDoneOk(a: Abs, w: Who) {
    var c, d := a.At(w).contact, a.At(Other(w)).contact;
    && c.pending.Some? && Paired(c, d) && OnlyRequests(a, Other(w))
    && forall m, i | TokenAt(a, w, m, i) ::
         && a.mail(m)[i].payload.plain.RotateAck? && m != c.rxId
         && a.mail(m)[i].payload.plain.key.secret != Sender(d.txId)
         && (d.oldRxId.Some? ==> Receiver(d.oldRxId.value) != a.mail(m)[i].payload.plain.key.secret)
  }

  ghost predicate StrandedOk(a: Abs, w: Who) {
    && a.At(w).contact.pending.Some?
    && forall m, i | TokenAt(a, w, m, i) ::
         a.mail(m)[i].payload.plain.RotateAck? && !Listens(a.At(w).contact, m)
  }

  ghost predicate FateOk(a: Abs, fate: Fate) {
    && a.alice.contact.complete && a.bob.contact.complete
    && match fate
       case Crossed(w) => CrossedOk(a, w)
       case BothCrossed =>
         && HasAnswered(a, Alice) && AwaitsCrossed(a, Alice)
         && HasAnswered(a, Bob) && AwaitsCrossed(a, Bob)
       case HalfDone(w) => HalfDoneOk(a, w)
       case Parted => Split(a)
       case Stranded(w) => StrandedOk(a, w)
  }

  ghost predicate Collided(a: Abs) {
    exists fate :: FateOk(a, fate)
  }

  /** Two idle clients after a collision have parted. */
  lemma IdleHaveParted(a: Abs)
    requires Base(a) && Collided(a) && a.alice.contact.pfs == Idle && a.bob.contact.pfs == Idle
    ensures Split(a)
  {
    var fate :| FateOk(a, fate);
    assert LocalOk(a, Alice) && LocalOk(a, Bob);
  }

  // ---------------------------------------------------------------- elementary effects

  lemma SameFate(a: Abs, b: Abs, fate: Fate)
    requires Same(a, b) && FateOk(a, fate)
    ensures FateOk(b, fate)
  {
    forall w, m, i
      ensures TokenAt(b, w, m, i) == TokenAt(a, w, m, i) && b.mail(m) == a.mail(m)
    {
    }
    if fate == Parted {
      SameSplit(a, b);
    }
  }

  lemma TakeKeepsFate(a: Abs, n: MailboxId, i: nat, fate: Fate)
    requires FateOk(a, fate) && i < |a.mail(n)|
    ensures FateOk(Take(a, n, i), fate)
  {
    var b := Take(a, n, i);
    forall w, m, k | TokenAt(b, w, m, k)
      ensures TokenAt(a, w, m, Before(n, i, m, k)) && b.mail(m)[k] == a.mail(m)[Before(n, i, m, k)]
    {
      TakeAt(a, n, i, m, k);
    }
    if fate == Parted {
      TakeKeepsSplit(a, n, i);
    }
  }

  /** No handshake frame of t has been added or moved. */
  ghost predicate TokensWithin(a: Abs, b: Abs, t: Who) {
    forall m, i | TokenAt(b, t, m, i) :: TokenAt(a, t, m, i) && b.mail(m)[i] == a.mail(m)[i]
  }

  /** An effect that leaves the keys alone and puts out no handshake frame of t. */
  lemma QuietKeepsTokens(a: Abs, w: Who, e: Effect, t: Who)
    requires e.local.me == a.At(w).me
    requires forall k | 0 <= k < |e.out| :: !IsToken(a, t, e.out[k])
    ensures TokensWithin(a, Perform(a, w, e), t)
  {
    var b := Perform(a, w, e);
    forall m, i | TokenAt(b, t, m, i)
      ensures TokenAt(a, t, m, i) && b.mail(m)[i] == a.mail(m)[i]
    {
      PerformAt(a, w, e, m, i);
    }
  }

  predicate KeepsKeys(c: ContactState, d: ContactState) {
    && d.txId == c.txId && d.rxId == c.rxId && d.complete == c.complete
    && d.oldRxId in {c.oldRxId, None}
  }

  predicate KeepsPending(c: ContactState, d: ContactState) {
    KeepsKeys(c, d) && d.pending == c.pending
  }

  /** A fate is a matter of keys, pending requests and handshake frames. */
  lemma FateCarries(a: Abs, b: Abs, fate: Fate)
    requires FateOk(a, fate) && fate != Parted
    requires KeepsPending(a.alice.contact, b.alice.contact) && KeepsPending(a.bob.contact, b.bob.contact)
    requires TokensWithin(a, b, Alice) && TokensWithin(a, b, Bob)
    ensures FateOk(b, fate)
  {
    hide TokenAt, Split;
  }

  lemma CalmIsQuiet(a: Abs, w: Who, e: Effect)
    requires Calm(a.At(w), e)
    ensures KeepsPending(a.At(w).contact, e.local.contact)
    ensures e.local.me == a.At(w).me
    ensures forall t, k | 0 <= k < |e.out| :: !IsToken(a, t, e.out[k])
  {
  }

  lemma CalmKeepsFate(a: Abs, w: Who, e: Effect, fate: Fate)
    requires Base(a) && FateOk(a, fate) && Calm(a.At(w), e)
    ensures FateOk(Perform(a, w, e), fate)
  {
    CalmIsQuiet(a, w, e);
    hide Calm, Base;
    if fate == Parted {
      PartedKept(a, w, e);
    } else {
      hide FateOk, TokensWithin, KeepsKeys, IsToken;
      QuietKeepsTokens(a, w, e, Alice);
      QuietKeepsTokens(a, w, e, Bob);
      KeepsKeysSelf(a.At(Other(w)).contact);
      FateCarries(a, Perform(a, w, e), fate);
    }
  }

  lemma PartedKept(a: Abs, w: Who, e: Effect)
    requires Base(a) && FateOk(a, Parted) && KeepsKeys(a.At(w).contact, e.local.contact)
    ensures FateOk(Perform(a, w, e), Parted)
  {
    PerformKeepsSplit(a, w, e);
    hide Base;
  }

  lemma KeepsKeysSelf(c: ContactState)
    ensures KeepsKeys(c, c)
  {
  }

  /** A client that may still start a rotation is not one that collided and waits. */
  lemma InitiateKeepsFate(a: Abs, w: Who, fate: Fate)
    requires Base(a) && FateOk(a, fate) && a.At(w).contact.pfs == Idle
    ensures FateOk(Perform(a, w, InitiateRotation(a.At(w))), fate)
  {
    hide Base, Split;
    var e := InitiateRotation(a.At(w));
    LocalOf(a, w);
    QuietKeepsTokens(a, w, e, Other(w));
    hide LocalOk;
    IdleHasNoTokens(a, w);
    var b := Perform(a, w, e);
    forall m, i | TokenAt(b, w, m, i)
      ensures m == a.At(w).contact.txId && b.mail(m)[i] == e.out[0]
    {
      PerformAt(a, w, e, m, i);
      assert !TokenAt(a, w, m, i);
    }
    if fate == Parted {
      PartedKept(a, w, e);
    }
  }

  // ---------------------------------------------------------------- handshake frames delivered

  predicate IsRequest(f: MailFrame, key: PublicKey) {
    f.payload.Sealed? && f.payload.plain.RotateRequest? && f.payload.plain.key == key
  }

  predicate IsAck(f: MailFrame, key: PublicKey) {
    f.payload.Sealed? && f.payload.plain.RotateAck? && f.payload.plain.key == key
  }

  /** The handshake frames of t are those from before, less the head of m. */
  ghost predicate TokensTaken(a: Abs, b: Abs, t: Who, m: MailboxId) {
    forall n, k | TokenAt(b, t, n, k) ::
      TokenAt(a, t, n, Before(m, 0, n, k)) && b.mail(n)[k] == a.mail(n)[Before(m, 0, n, k)]
  }

  /** The only handshake frame of t is the last one of n, carrying key. */
  ghost predicate OnlyAckAtEnd(a: Abs, b: Abs, t: Who, n: MailboxId, key: SecretKey) {
    forall m, k | TokenAt(b, t, m, k) ::
      && m == n && k == |a.mail(n)|
      && b.mail(m)[k].payload.plain.RotateAck? && b.mail(m)[k].payload.plain.key.secret == key
  }

  /** The mail of b is that of a with the head of m gone and out appended to tx. */
  ghost predicate Exchanged(a: Abs, b: Abs, m: MailboxId, tx: MailboxId, out: seq<MailFrame>) {
    && a.mail(m) != [] && m != tx && |out| <= 1
    && b.alice.me == a.alice.me && b.bob.me == a.bob.me
    && forall n :: b.mail(n) == if n == m then a.mail(m)[1..] else if n == tx then a.mail(n) + out else a.mail(n)
  }

  lemma ExchangedTokens(a: Abs, b: Abs, m: MailboxId, tx: MailboxId, out: seq<MailFrame>, t: Who)
    requires Exchanged(a, b, m, tx, out)
    ensures forall n, k | TokenAt(b, t, n, k) ::
              || (TokenAt(a, t, n, Before(m, 0, n, k)) && b.mail(n)[k] == a.mail(n)[Before(m, 0, n, k)])
              || (out != [] && IsToken(a, t, out[0]) && n == tx && k == |a.mail(n)| && b.mail(n)[k] == out[0])
  {
    forall n, k | TokenAt(b, t, n, k)
      ensures || (TokenAt(a, t, n, Before(m, 0, n, k)) && b.mail(n)[k] == a.mail(n)[Before(m, 0, n, k)])
              || (out != [] && IsToken(a, t, out[0]) && n == tx && k == |a.mail(n)| && b.mail(n)[k] == out[0])
    {
      assert b.mail(n) == if n == m then a.mail(m)[1..] else if n == tx then a.mail(n) + out else a.mail(n);
    }
  }

  /** What a delivered request finds. */
  lemma RequestFinds(a: Abs, w: Who, m: MailboxId, key: PublicKey)
    requires Arriving(a, w, m) && IsRequest(a.mail(m)[0], key)
    ensures a.At(Other(w)).contact.pending == Some(key.secret)
    ensures TokenAt(a, Other(w), m, 0) && TokensUnique(a, Other(w)) && m != a.At(w).contact.txId
    ensures Sender(a.At(w).contact.txId).party == a.At(w).me != a.At(Other(w)).me
  {
    hide Base;
    ListensOpens(a, w, m);
    TokensOf(a, Other(w));
    LocalOf(a, w);
    assert TokenAt(a, Other(w), m, 0);
    assert TokenMatches(a.At(Other(w)).contact, a.mail(m)[0].payload.plain);
  }

  lemma RequestTokens(a: Abs, w: Who, m: MailboxId, key: PublicKey)
    requires Arriving(a, w, m) && a.At(w).contact.complete && IsRequest(a.mail(m)[0], key)
    ensures TokensTaken(a, Deliver(a, w, m), w, m)
    ensures OnlyAckAtEnd(a, Deliver(a, w, m), Other(w), a.At(w).contact.txId, Fresh(a.At(w)))
  {
    hide Base, Deliver;
    RequestFinds(a, w, m, key);
    RequestExchanged(a, w, m, key);
    hide Arriving, Exchanged;
    var out := AckFor(a.At(w), key);
    assert !IsToken(a, w, out[0]);
    ExchangedTokens(a, Deliver(a, w, m), m, a.At(w).contact.txId, out, w);
    ExchangedTokens(a, Deliver(a, w, m), m, a.At(w).contact.txId, out, Other(w));
    forall n, k
      ensures !TokenAt(a, Other(w), n, Before(m, 0, n, k))
    {
    }
  }

  /** The answer to a request. */
  function AckFor(p: Local, key: PublicKey): seq<MailFrame> {
    var f := PublicKey(Fresh(p));
    [SealTo(Push, p.contact, RotateAck(f, Signature(p.me, [key, f])))]
  }

  function Fresh(p: Local): SecretKey {
    Ephemeral(p.me, p.generated)
  }

  lemma RequestExchanged(a: Abs, w: Who, m: MailboxId, key: PublicKey)
    requires Arriving(a, w, m) && a.At(w).contact.complete && IsRequest(a.mail(m)[0], key)
    ensures Exchanged(a, Deliver(a, w, m), m, a.At(w).contact.txId, AckFor(a.At(w), key))
  {
    hide Base, Deliver;
    RequestFinds(a, w, m, key);
    DeliverRequest(a, w, m, key);
  }

  lemma AckFinds(a: Abs, w: Who, m: MailboxId, key: PublicKey)
    requires Arriving(a, w, m) && IsAck(a.mail(m)[0], key)
    ensures TokenAt(a, w, m, 0) && TokensUnique(a, w) && m != a.At(w).contact.txId
    ensures a.At(w).contact.pending.Some?
    ensures a.At(w).contact.pending != Some(Sender(a.At(w).contact.txId))
  {
    hide Base;
    ListensOpens(a, w, m);
    TokensOf(a, w);
    LocalOf(a, w);
    assert TokenAt(a, w, m, 0);
    assert TokenMatches(a.At(w).contact, a.mail(m)[0].payload.plain);
  }

  lemma AckExchanged(a: Abs, w: Who, m: MailboxId, key: PublicKey)
    requires Arriving(a, w, m) && IsAck(a.mail(m)[0], key)
    ensures Exchanged(a, Deliver(a, w, m), m, a.At(w).contact.txId, [])
    ensures Base(Deliver(a, w, m)) && Deliver(a, w, m).At(w).contact.pfs == Idle
  {
    hide Base, Deliver;
    AckFinds(a, w, m, key);
    DeliverAck(a, w, m, key);
    assert a.mail(a.At(w).contact.txId) == a.mail(a.At(w).contact.txId) + [];
  }

  lemma AckTokens(a: Abs, w: Who, m: MailboxId, key: PublicKey)
    requires Arriving(a, w, m) && IsAck(a.mail(m)[0], key)
    ensures TokensTaken(a, Deliver(a, w, m), Other(w), m)
    ensures NoTokens(Deliver(a, w, m), w)
  {
    hide Base, Deliver, Exchanged;
    AckExchanged(a, w, m, key);
    hide Arriving;
    IdleHasNoTokens(Deliver(a, w, m), w);
    ExchangedTokens(a, Deliver(a, w, m), m, a.At(w).contact.txId, [], Other(w));
  }

  // ---------------------------------------------------------------- requests after a collision

  /** Mail waits only in mailboxes whose keys exist already, so none for a fresh key. */
  lemma FreshUnused(a: Abs, w: Who, m: MailboxId, t: Who, i: int)
    requires Base(a) && TokenAt(a, t, m, i)
    ensures Receiver(m) != Ephemeral(a.At(w).me, a.At(w).generated)
    ensures Sender(m) != Ephemeral(a.At(w).me, a.At(w).generated)
  {
    hide Base;
    MailOf(a, m, i);
  }

  /** What every reachable contact satisfies about its own keys. */
  predicate KeysOk(c: ContactState, next: SecretKey) {
    && c.txId == MailboxOf(Sender(c.txId), Receiver(c.txId))
    && c.rxId == MailboxOf(Receiver(c.txId), Sender(c.txId))
    && c.pending !in {Some(Sender(c.txId)), Some(next)}
    && Sender(c.txId) != next
  }

  lemma BaseKeysOk(a: Abs, w: Who)
    requires Base(a)
    ensures KeysOk(a.At(w).contact, Fresh(a.At(w)))
  {
    hide Base;
    LocalOf(a, w);
  }

  /** The handshake frames of w after it answered a request; none is in its new mailbox. */
  lemma OwnTokensAfter(a: Abs, w: Who, m: MailboxId, key: PublicKey)
    requires Arriving(a, w, m) && a.At(w).contact.complete && IsRequest(a.mail(m)[0], key)
    ensures TokensTaken(a, Deliver(a, w, m), w, m)
    ensures forall n, k | TokenAt(Deliver(a, w, m), w, n, k) :: Receiver(n) != Fresh(a.At(w))
  {
    hide Base, Deliver;
    var b := Deliver(a, w, m);
    RequestTokens(a, w, m, key);
    forall n, k | TokenAt(b, w, n, k)
      ensures Receiver(n) != Fresh(a.At(w))
    {
      FreshUnused(a, w, n, w, Before(m, 0, n, k));
    }
  }

  /** The other side takes up the crossed request as well. */
  lemma CrossedRequest(a: Abs, w: Who, m: MailboxId, key: PublicKey)
    requires Arriving(a, w, m) && FateOk(a, Crossed(Other(w))) && IsRequest(a.mail(m)[0], key)
    ensures FateOk(Deliver(a, w, m), BothCrossed)
  {
    hide Deliver, Base, TokenAt, IsToken, TokensUnique;
    var b := Deliver(a, w, m);
    BaseKeysOk(a, w);
    BaseKeysOk(a, Other(w));
    RequestFinds(a, w, m, key);
    OwnTokensAfter(a, w, m, key);
    RequestTokens(a, w, m, key);
    DeliverRequest(a, w, m, key);
    hide Arriving;
    assert HasAnswered(b, w) && HasAnswered(b, Other(w));
    assert AwaitsCrossed(b, w);
    assert AwaitsCrossed(b, Other(w));
  }

  /** Answers to w come, if at all, in a mailbox other than its current one. */
  ghost predicate AcksElsewhere(a: Abs, w: Who) {
    && a.At(w).contact.pending.Some?
    && forall m, i | TokenAt(a, w, m, i) ::
         a.mail(m)[i].payload.plain.RotateAck? && m != a.At(w).contact.rxId
  }

  /** A client that waits for a crossed answer and answers once more gives up the mailbox it would come in. */
  lemma AnswerStrands(a: Abs, w: Who, m: MailboxId, key: PublicKey)
    requires Arriving(a, w, m) && AcksElsewhere(a, w) && a.At(w).contact.complete
    requires IsRequest(a.mail(m)[0], key)
    ensures StrandedOk(Deliver(a, w, m), w)
  {
    hide Deliver, Base, IsToken;
    var b := Deliver(a, w, m);
    OwnTokensAfter(a, w, m, key);
    DeliverRequest(a, w, m, key);
    hide Arriving;
  }

  lemma WaitingRequest(a: Abs, w: Who, m: MailboxId, key: PublicKey, fate: Fate)
    requires Arriving(a, w, m) && fate in {HalfDone(w), Stranded(w)} && FateOk(a, fate)
    requires IsRequest(a.mail(m)[0], key)
    ensures FateOk(Deliver(a, w, m), Stranded(w))
  {
    hide Deliver, Base, TokenAt;
    assert AcksElsewhere(a, w);
    DeliverRequest(a, w, m, key);
    hide Arriving, AcksElsewhere, StrandedOk;
    AnswerStrands(a, w, m, key);
  }

  /** In every other fate no request can arrive. */
  lemma NoOtherRequest(a: Abs, w: Who, m: MailboxId, key: PublicKey, fate: Fate)
    requires Arriving(a, w, m) && FateOk(a, fate) && IsRequest(a.mail(m)[0], key)
    ensures fate in {Crossed(Other(w)), HalfDone(w), Stranded(w)}
  {
    hide Base;
    RequestFinds(a, w, m, key);
  }

  // ---------------------------------------------------------------- answers after a collision

  /** A client no answer can reach stays so when the other completes a rotation. */
  lemma StrandedThroughAck(a: Abs, w: Who, m: MailboxId, key: PublicKey)
    requires Arriving(a, w, m) && StrandedOk(a, Other(w)) && IsAck(a.mail(m)[0], key)
    ensures StrandedOk(Deliver(a, w, m), Other(w))
  {
    hide Deliver, Base, TokenAt, IsToken, Listens;
    var b := Deliver(a, w, m);
    AckTokens(a, w, m, key);
    DeliverAck(a, w, m, key);
    hide Arriving;
  }

  /** The request of the client that crossed first is gone: nothing will answer it. */
  lemma CrossedAckFirst(a: Abs, w: Who, m: MailboxId, key: PublicKey)
    requires Arriving(a, w, m) && CrossedOk(a, Other(w)) && IsAck(a.mail(m)[0], key)
    ensures StrandedOk(a, Other(w))
  {
    hide Base, IsToken;
    AckFinds(a, w, m, key);
    hide Arriving;
    forall n, i
      ensures !TokenAt(a, Other(w), n, i)
    {
    }
  }

  lemma OtherAck(a: Abs, w: Who, m: MailboxId, key: PublicKey, fate: Fate)
    requires Arriving(a, w, m) && fate in {Crossed(Other(w)), Stranded(Other(w))} && FateOk(a, fate)
    requires IsAck(a.mail(m)[0], key)
    ensures FateOk(Deliver(a, w, m), Stranded(Other(w)))
  {
    hide Deliver, Base, StrandedOk, CrossedOk;
    DeliverAck(a, w, m, key);
    hide Arriving;
    if fate.Crossed? {
      CrossedAckFirst(a, w, m, key);
    }
    StrandedThroughAck(a, w, m, key);
  }

  /** The first of two crossed answers is taken: for the moment the keys agree again. */
  lemma BothAck(a: Abs, w: Who, m: MailboxId, key: PublicKey)
    requires Arriving(a, w, m) && FateOk(a, BothCrossed) && IsAck(a.mail(m)[0], key)
    ensures FateOk(Deliver(a, w, m), HalfDone(Other(w)))
  {
    hide Deliver, Base, IsToken;
    var b := Deliver(a, w, m);
    BaseKeysOk(a, w);
    BaseKeysOk(a, Other(w));
    AckFinds(a, w, m, key);
    AckTokens(a, w, m, key);
    DeliverAck(a, w, m, key);
    assert HasAnswered(a, w) && HasAnswered(a, Other(w)) && AwaitsCrossed(a, w) && AwaitsCrossed(a, Other(w));
    hide Arriving, TokenAt, FateOk;
    assert Paired(b.At(Other(w)).contact, b.At(w).contact);
    assert HalfDoneOk(b, Other(w));
    assert b.alice.contact.complete && b.bob.contact.complete;
  }

  /** What waits in a mailbox somebody listens on. */
  lemma HandshakeIsToken(a: Abs, w: Who, m: MailboxId, i: nat)
    requires Base(a) && Listens(a.At(w).contact, m) && i < |a.mail(m)|
    ensures a.mail(m)[i].payload.Sealed?
    ensures a.mail(m)[i].payload.plain.RotateRequest? ==> TokenAt(a, Other(w), m, i)
    ensures a.mail(m)[i].payload.plain.RotateAck? ==> TokenAt(a, w, m, i)
  {
    hide Base;
    MailOf(a, m, i);
    LocalOf(a, w);
  }

  /** The second of two crossed answers is taken: the clients part. */
  lemma HalfAck(a: Abs, w: Who, m: MailboxId, key: PublicKey)
    requires Arriving(a, w, m) && FateOk(a, HalfDone(w)) && IsAck(a.mail(m)[0], key)
    ensures FateOk(Deliver(a, w, m), Parted)
  {
    hide Deliver, Base, IsToken, TokenAt;
    var b := Deliver(a, w, m);
    HalfKeysApart(a, w, m, key);
    AckTokens(a, w, m, key);
    DeliverAck(a, w, m, key);
    hide Arriving;
    assert OnlyRequests(b, Other(w));
    hide FateOk, OnlyRequests, NoTokens, Listens;
    NoHandshakeLeft(b, w);
    hide NoHandshakeFor;
  }

  /** The keys of the last answer are not those the other side has moved to. */
  lemma HalfKeysApart(a: Abs, w: Who, m: MailboxId, key: PublicKey)
    requires Arriving(a, w, m) && FateOk(a, HalfDone(w)) && IsAck(a.mail(m)[0], key)
    ensures var b := Deliver(a, w, m);
            && !Listens(b.At(Other(w)).contact, b.At(w).contact.txId)
            && !Listens(b.At(w).contact, b.At(Other(w)).contact.txId)
  {
    hide Deliver, Base, IsToken;
    BaseKeysOk(a, w);
    BaseKeysOk(a, Other(w));
    AckFinds(a, w, m, key);
    DeliverAck(a, w, m, key);
    hide Arriving;
  }

  lemma NoHandshakeLeft(b: Abs, w: Who)
    requires Base(b) && OnlyRequests(b, Other(w)) && NoTokens(b, w)
    requires !Listens(b.At(w).contact, b.At(Other(w)).contact.txId)
    ensures NoHandshakeFor(b, Alice) && NoHandshakeFor(b, Bob)
  {
    hide Base;
    forall x, m, i | Listens(b.At(x).contact, m) && 0 <= i < |b.mail(m)|
      ensures b.mail(m)[i].payload.Sealed? && (b.mail(m)[i].payload.plain.Text? || b.mail(m)[i].payload.plain.Receipt?)
    {
      HandshakeIsToken(b, x, m, i);
    }
  }

  /** In every other fate no answer can arrive. */
  lemma NoOtherAck(a: Abs, w: Who, m: MailboxId, key: PublicKey, fate: Fate)
    requires Arriving(a, w, m) && FateOk(a, fate) && IsAck(a.mail(m)[0], key)
    ensures fate in {Crossed(Other(w)), BothCrossed, HalfDone(w), Stranded(Other(w))}
  {
    hide Base;
    AckFinds(a, w, m, key);
  }

  // ---------------------------------------------------------------- moves

  function FateNext(fate: Fate, w: Who, plain: Plaintext): Fate {
    if plain.RotateRequest? then (if fate.Crossed? then BothCrossed else Stranded(w))
    else if plain.RotateAck? then
      (if fate.HalfDone? then Parted else if fate.BothCrossed? then HalfDone(Other(w)) else Stranded(Other(w)))
    else fate
  }

  lemma HandshakeMovesFate(a: Abs, w: Who, m: MailboxId, fate: Fate)
    requires Arriving(a, w, m) && FateOk(a, fate) && a.mail(m)[0].payload.Sealed?
    requires a.mail(m)[0].payload.plain.RotateRequest? || a.mail(m)[0].payload.plain.RotateAck?
    ensures FateOk(Deliver(a, w, m), FateNext(fate, w, a.mail(m)[0].payload.plain))
  {
    hide FateOk, Deliver, Base;
    var plain := a.mail(m)[0].payload.plain;
    var key := plain.key;
    if plain.RotateRequest? {
      NoOtherRequest(a, w, m, key, fate);
      if fate.Crossed? {
        CrossedRequest(a, w, m, key);
      } else {
        WaitingRequest(a, w, m, key, fate);
      }
    } else {
      NoOtherAck(a, w, m, key, fate);
      if fate.BothCrossed? {
        BothAck(a, w, m, key);
      } else if fate.HalfDone? {
        HalfAck(a, w, m, key);
      } else {
        OtherAck(a, w, m, key, fate);
      }
    }
  }

  lemma OpenedKeepsFate(a: Abs, w: Who, m: MailboxId, fate: Fate)
    requires Base(a) && a.mail(m) != [] && FateOk(a, fate)
    ensures FateOk(Opened(a, w, m), fate)
  {
    hide Base, FateOk;
    TakeKeepsBase(a, m, 0);
    TakeKeepsFate(a, m, 0, fate);
    var p := a.At(w);
    var e := Effect(p.(contact := DropOld(p.contact, p.contact.oldRxId == Some(m))), [], Quiet);
    assert Calm(Take(a, m, 0).At(w), e) by { LocalOf(a, w); }
    hide Calm;
    CalmKeepsFate(Take(a, m, 0), w, e, fate);
  }

  lemma TextKeepsFate(a: Abs, w: Who, m: MailboxId, fate: Fate)
    requires Arriving(a, w, m) && FateOk(a, fate) && a.mail(m)[0].payload.plain.Text?
    ensures FateOk(Deliver(a, w, m), fate)
  {
    hide Base, FateOk, Same, Deliver, Opened, Perform, Calm;
    var e := TextEffect(a, w, m);
    OpenedKeepsBase(a, w, m);
    OpenedKeepsFate(a, w, m, fate);
    var o := Opened(a, w, m);
    CalmKeepsFate(o, w, e, fate);
    SameFate(Perform(o, w, e), Deliver(a, w, m), fate);
  }

  lemma TextEffect(a: Abs, w: Who, m: MailboxId) returns (e: Effect)
    requires Arriving(a, w, m) && a.mail(m)[0].payload.plain.Text?
    ensures Calm(Opened(a, w, m).At(w), e)
    ensures Same(Perform(Opened(a, w, m), w, e), Deliver(a, w, m))
  {
    hide Base, Same, Deliver, Opened, Perform;
    var o := Opened(a, w, m);
    TextKeepsBase(a, w, m);
    OpenedKeepsBase(a, w, m);
    PushSplits(a, w, m);
    LocalOf(o, w);
    e := HandleText(o.At(w), a.mail(m)[0].payload.plain.data);
    SameSym(Deliver(a, w, m), Perform(o, w, e));
  }

  lemma OtherwiseKeepsFate(a: Abs, w: Who, m: MailboxId, fate: Fate)
    requires Base(a) && a.mail(m) != [] && SideOf(a, m) == Other(w) && FateOk(a, fate)
    requires Listens(a.At(w).contact, m) ==> a.mail(m)[0].payload.plain.Receipt?
    ensures FateOk(Deliver(a, w, m), fate)
  {
    hide Base, FateOk, Receive, Calm;
    OtherwiseKeepsBase(a, w, m);
    TakeKeepsBase(a, m, 0);
    TakeKeepsFate(a, m, 0, fate);
    CalmKeepsFate(Take(a, m, 0), w, Receive(a.At(w), a.mail(m)[0]), fate);
  }

  lemma DeliverKeepsCollided(a: Abs, w: Who, m: MailboxId)
    requires Base(a) && Collided(a) && a.mail(m) != [] && SideOf(a, m) == Other(w)
    ensures Collided(Deliver(a, w, m))
  {
    var fate :| FateOk(a, fate);
    hide Base, FateOk, Deliver;
    MailOf(a, m, 0);
    var plain := a.mail(m)[0].payload.plain;
    if !Listens(a.At(w).contact, m) || plain.Receipt? {
      OtherwiseKeepsFate(a, w, m, fate);
    } else if plain.Text? {
      TextKeepsFate(a, w, m, fate);
    } else {
      HandshakeMovesFate(a, w, m, fate);
    }
  }

  lemma StartedKeepsFate(a: Abs, w: Who, fate: Fate)
    requires Base(a) && FateOk(a, fate)
    ensures FateOk(Perform(a, w, Started(a.At(w))), fate)
  {
    hide Base, FateOk;
    LocalOf(a, w);
    if Started(a.At(w)).out == [] {
      CalmKeepsFate(a, w, Started(a.At(w)), fate);
    } else {
      InitiateKeepsFate(a, w, fate);
    }
  }

  lemma LoggedKeepsFate(a: Abs, w: Who, data: seq<byte>, fate: Fate)
    requires Base(a) && FateOk(a, fate)
    ensures FateOk(Perform(a, w, Logged(a.At(w), data)), fate)
  {
    hide Base, FateOk;
    LocalOf(a, w);
    CalmKeepsFate(a, w, Logged(a.At(w), data), fate);
  }

  lemma PostedKeepsFate(a: Abs, w: Who, data: seq<byte>, fate: Fate)
    requires Base(a) && FateOk(a, fate)
    requires var p := a.At(w);
             p.contact.complete && (p.contact.pfs == Idle && p.interval > 0 ==> p.contact.counter < p.interval)
    ensures FateOk(Perform(a, w, Posted(a.At(w), data)), fate)
  {
    hide Base, FateOk;
    LocalOf(a, w);
    CalmKeepsFate(a, w, Posted(a.At(w), data), fate);
  }

  lemma FateComplete(a: Abs, w: Who, fate: Fate)
    requires FateOk(a, fate)
    ensures a.At(w).contact.complete
  {
  }

  lemma SendKeepsFate(a: Abs, w: Who, data: seq<byte>, fate: Fate)
    requires Base(a) && FateOk(a, fate)
    ensures FateOk(Perform(a, w, Send(a.At(w), data)), fate)
  {
    hide Base, FateOk, Send, Started, Same, Logged, Posted, Then;
    var p := a.At(w);
    assert p.contact.complete by { FateComplete(a, w, fate); }
    SendSplits(p, data);
    var e := Logged(p, data);
    LoggedKeepsBase(a, w, data);
    LoggedKeepsFate(a, w, data, fate);
    var b := Perform(a, w, e);
    var f := Started(b.At(w));
    StartedKeepsBase(b, w);
    StartedKeepsFate(b, w, fate);
    PerformThen(a, w, e, f);
    SameSym(Perform(a, w, Then(e, f)), Perform(b, w, f));
    SameBase(Perform(b, w, f), Perform(a, w, Then(e, f)));
    SameFate(Perform(b, w, f), Perform(a, w, Then(e, f)), fate);
    var c := Perform(a, w, Then(e, f));
    var g := Posted(f.local, data);
    PostedKeepsFate(c, w, data, fate);
    PerformThen(a, w, Then(e, f), g);
    SameSym(Perform(a, w, Send(p, data)), Perform(c, w, g));
    SameFate(Perform(c, w, g), Perform(a, w, Send(p, data)), fate);
  }

  lemma ConnectKeepsFate(a: Abs, w: Who, fate: Fate)
    requires Base(a) && FateOk(a, fate)
    ensures FateOk(Perform(a, w, Connect(a.At(w))), fate)
  {
    hide Base;
    assert Calm(a.At(w), Connect(a.At(w))) by { LocalOf(a, w); }
    hide FateOk, Calm;
    CalmKeepsFate(a, w, Connect(a.At(w)), fate);
  }

  /** No move undoes a collision. */
  lemma MoveKeepsCollided(a: Abs, mv: Move)
    requires Base(a) && Collided(a) && Possible(a, mv)
    ensures Collided(Moved(a, mv))
  {
    var fate :| FateOk(a, fate);
    hide Base, FateOk, Deliver, Perform, Take;
    match mv
    case Stay =>
    case ConnectMove(w) => ConnectKeepsFate(a, w, fate);
    case SendMove(w, data) => SendKeepsFate(a, w, data, fate);
    case LoseMove(m, i) => TakeKeepsFate(a, m, i, fate);
    case DeliverMove(w, m) => DeliverKeepsCollided(a, w, m);
  }

  lemma SameCollided(a: Abs, b: Abs)
    requires Same(a, b) && Collided(a)
    ensures Collided(b)
  {
    var fate :| FateOk(a, fate);
    SameFate(a, b, fate);
  }

  // ---------------------------------------------------------------- the first crossing

  /** Only completed contacts cross: the initial handshake has one initiator. */
  lemma CrossingComplete(a: Abs, w: Who, m: MailboxId)
    requires Arriving(a, w, m) && Crossing(a, w, m)
    ensures a.At(w).contact.complete && a.At(w).contact.pending.Some?
  {
    hide Base;
    ListensOpens(a, w, m);
    LocalOf(a, w);
    LexLessTrichotomy(a.alice.me, a.bob.me);
  }

  lemma PairedComplete(a: Abs)
    requires Base(a) && Paired(a.alice.contact, a.bob.contact)
    ensures a.alice.contact.complete == a.bob.contact.complete
  {
    hide Base;
    LocalOf(a, Alice);
    LocalOf(a, Bob);
  }

  /** Answering with one's own request outstanding is a collision. */
  lemma CrossingCollides(a: Abs, w: Who, m: MailboxId, ph: Phase)
    requires Arriving(a, w, m) && PhaseOk(a, ph) && Crossing(a, w, m)
    ensures Collided(Deliver(a, w, m))
  {
    hide Deliver, Base;
    MailOf(a, m, 0);
    var key := a.mail(m)[0].payload.plain.key;
    RequestMeansSynced(a, w, m, ph);
    CrossingComplete(a, w, m);
    PairedComplete(a);
    hide Arriving, Crossing, TransitOk;
    FirstCrossing(a, w, m, key);
    hide CrossedOk;
    assert FateOk(Deliver(a, w, m), Crossed(w));
  }

  lemma FirstCrossing(a: Abs, w: Who, m: MailboxId, key: PublicKey)
    requires Arriving(a, w, m) && PhaseOk(a, Synced) && IsRequest(a.mail(m)[0], key)
    requires a.At(w).contact.complete && a.At(w).contact.pending.Some?
    ensures CrossedOk(Deliver(a, w, m), w)
    ensures forall x :: Deliver(a, w, m).At(x).contact.complete == a.At(x).contact.complete
  {
    hide Deliver, Base, IsToken, TokensUnique;
    var b := Deliver(a, w, m);
    BaseKeysOk(a, w);
    RequestFinds(a, w, m, key);
    RequestTokens(a, w, m, key);
    DeliverRequest(a, w, m, key);
    hide Arriving;
    assert HasAnswered(b, w);
  }
}
