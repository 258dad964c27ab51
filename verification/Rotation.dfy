/**
  * The rotation protocol on lossy mail. While no client answers a rotation request with its own
  * request outstanding, the two ends are either on the same keys, or one of them waits for an
  * answer the other has already given.
  */
module Rotation {
  import opened Common
  import opened Crypto
  import opened ClientCore
  import opened LossyMail

  datatype Phase = Synced | Waiting(w: Who)

  /** Each side sends where the other listens. */
  predicate Paired(p: ContactState, q: ContactState) {
    p.txId == q.rxId && p.rxId == q.txId
  }

  /** p's request was answered by q, which has moved on and keeps p's mailbox as its old one. */
  predicate Answered(p: ContactState, q: ContactState) {
    && p.pending.Some?
    && q.complete
    && Receiver(q.txId) == p.pending.value
    && q.oldRxId == (if p.complete then Some(p.txId) else None)
  }

  /** All handshake frames of w are requests in the mailbox w sends to. */
  ghost predicate OnlyRequests(a: Abs, w: Who) {
    forall m, i | TokenAt(a, w, m, i) ::
      a.mail(m)[i].payload.plain.RotateRequest? && m == a.At(w).contact.txId
  }

  /** The only handshake frame of w is the answer to its request, last in the mailbox w reads. */
  ghost predicate OnlyAnswer(a: Abs, w: Who) {
    forall m, i | TokenAt(a, w, m, i) ::
      && a.mail(m)[i].payload.plain.RotateAck?
      && m == a.At(w).contact.rxId
      && i == |a.mail(m)| - 1
      && a.mail(m)[i].payload.plain.key.secret == Sender(a.At(Other(w)).contact.txId)
  }

  ghost predicate PhaseOk(a: Abs, ph: Phase) {
    match ph
    case Synced =>
      && Paired(a.alice.contact, a.bob.contact)
      && OnlyRequests(a, Alice)
      && OnlyRequests(a, Bob)
    case Waiting(w) =>
      && Answered(a.At(w).contact, a.At(Other(w)).contact)
      && OnlyAnswer(a, w)
      && OnlyRequests(a, Other(w))
      && a.mail(a.At(Other(w)).contact.rxId) == []
  }

  /** w would act on a rotation request although its own is outstanding. */
  predicate Crossing(a: Abs, w: Who, m: MailboxId)
    requires a.mail(m) != []
  {
    && Listens(a.At(w).contact, m)
    && a.mail(m)[0].payload.Sealed?
    && a.mail(m)[0].payload.plain.RotateRequest?
    && a.At(w).contact.pfs == RotationRequested
  }

  // ---------------------------------------------------------------- elementary effects

  lemma TakeKeepsPhase(a: Abs, n: MailboxId, i: nat, ph: Phase)
    requires PhaseOk(a, ph) && i < |a.mail(n)|
    ensures PhaseOk(Take(a, n, i), ph)
  {
    var b := Take(a, n, i);
    forall w, m, k | TokenAt(b, w, m, k)
      ensures TokenAt(a, w, m, Before(n, i, m, k)) && b.mail(m)[k] == a.mail(m)[Before(n, i, m, k)]
      ensures |b.mail(m)| == (if m == n then |a.mail(m)| - 1 else |a.mail(m)|)
    {
      TakeAt(a, n, i, m, k);
    }
  }

  lemma SamePhase(a: Abs, b: Abs, ph: Phase)
    requires Same(a, b) && PhaseOk(a, ph)
    ensures PhaseOk(b, ph)
  {
    forall w, m, i
      ensures TokenAt(b, w, m, i) == TokenAt(a, w, m, i)
    {
    }
  }

  /** In a waiting phase, the mailboxes in play differ from one another. */
  lemma WaitingDistinct(a: Abs, w: Who)
    requires Base(a) && PhaseOk(a, Waiting(w))
    ensures var c := a.At(w).contact;
            var d := a.At(Other(w)).contact;
            && c.txId != d.rxId && d.txId != d.rxId && c.txId != c.rxId && d.txId != c.rxId
            && !Listens(c, d.txId)
  {
    hide Base;
    LocalOf(a, w);
    LocalOf(a, Other(w));
  }

  lemma CalmKeepsRequests(a: Abs, w: Who, e: Effect, t: Who)
    requires Calm(a.At(w), e) && OnlyRequests(a, t)
    ensures OnlyRequests(Perform(a, w, e), t)
  {
    var b := Perform(a, w, e);
    forall m, i | TokenAt(b, t, m, i)
      ensures TokenAt(a, t, m, i) && b.mail(m)[i] == a.mail(m)[i]
    {
      PerformAt(a, w, e, m, i);
    }
  }

  lemma CalmKeepsAnswer(a: Abs, w: Who, e: Effect, t: Who)
    requires Calm(a.At(w), e) && OnlyAnswer(a, t)
    requires a.At(w).contact.txId != a.At(t).contact.rxId
    ensures OnlyAnswer(Perform(a, w, e), t)
  {
    var b := Perform(a, w, e);
    forall m, i | TokenAt(b, t, m, i)
      ensures TokenAt(a, t, m, i) && b.mail(m)[i] == a.mail(m)[i] && b.mail(m) == a.mail(m)
    {
      PerformAt(a, w, e, m, i);
    }
  }

  /** Calm effects keep the phase, unless they retire the mailbox the waiting side still sends to. */
  lemma CalmKeepsPhase(a: Abs, w: Who, e: Effect, ph: Phase)
    requires Base(a) && PhaseOk(a, ph) && Calm(a.At(w), e)
    requires ph == Waiting(Other(w)) ==> e.local.contact.oldRxId == a.At(w).contact.oldRxId
    ensures PhaseOk(Perform(a, w, e), ph)
  {
    hide Base, OnlyRequests, OnlyAnswer;
    match ph {
      case Synced =>
        CalmKeepsRequests(a, w, e, Alice);
        CalmKeepsRequests(a, w, e, Bob);
      case Waiting(t) =>
        WaitingDistinct(a, t);
        CalmKeepsAnswer(a, w, e, t);
        CalmKeepsRequests(a, w, e, Other(t));
    }
  }

  lemma InitiateKeepsPhase(a: Abs, w: Who, ph: Phase)
    requires Base(a) && PhaseOk(a, ph)
    ensures PhaseOk(Perform(a, w, InitiateRotation(a.At(w))), ph)
  {
    hide Base, OnlyRequests, OnlyAnswer;
    LocalOf(a, w);
    LocalOf(a, Other(w));
    assert forall t :: a.At(t).contact.pending.Some? ==> a.At(t).contact.pfs == RotationRequested;
    hide LocalOk;
    match ph {
      case Synced =>
        InitiateKeepsRequests(a, w, Alice);
        InitiateKeepsRequests(a, w, Bob);
      case Waiting(t) =>
        WaitingDistinct(a, t);
        InitiateKeepsRequests(a, w, Other(t));
        InitiateKeepsAnswer(a, w, t);
    }
  }

  lemma InitiateKeepsRequests(a: Abs, w: Who, t: Who)
    requires LocalOk(a, w) && a.alice.me != a.bob.me && OnlyRequests(a, t)
    ensures OnlyRequests(Perform(a, w, InitiateRotation(a.At(w))), t)
  {
    InitiateTokens(a, w);
    hide LocalOk;
  }

  /** The side that waits for an answer starts nothing, and the other side sends elsewhere. */
  lemma InitiateKeepsAnswer(a: Abs, w: Who, t: Who)
    requires LocalOk(a, w) && a.alice.me != a.bob.me && OnlyAnswer(a, t)
    requires a.At(t).contact.pfs == RotationRequested && a.At(w).contact.txId != a.At(t).contact.rxId
    ensures OnlyAnswer(Perform(a, w, InitiateRotation(a.At(w))), t)
  {
    InitiateTokens(a, w);
    hide LocalOk;
  }

  lemma InitiateTokens(a: Abs, w: Who)
    requires LocalOk(a, w) && a.alice.me != a.bob.me
    ensures var e := InitiateRotation(a.At(w));
            var b := Perform(a, w, e);
            forall t, m, i | TokenAt(b, t, m, i) ::
              || (TokenAt(a, t, m, i) && b.mail(m)[i] == a.mail(m)[i])
              || (t == w && m == a.At(w).contact.txId && e.out != [] && b.mail(m)[i] == e.out[0])
  {
    var e := InitiateRotation(a.At(w));
    var b := Perform(a, w, e);
    forall t, m, i | TokenAt(b, t, m, i)
      ensures || (TokenAt(a, t, m, i) && b.mail(m)[i] == a.mail(m)[i])
              || (t == w && m == a.At(w).contact.txId && e.out != [] && b.mail(m)[i] == e.out[0])
    {
      PerformAt(a, w, e, m, i);
    }
  }

  /** Mail exists only in mailboxes whose keys exist. */
  lemma MailIsKnown(a: Abs, m: MailboxId)
    requires MailOk(a)
    ensures a.mail(m) != [] ==> MailboxOk(a, SideOf(a, m), m)
  {
    assert a.mail(m) != [] ==> TransitOk(a, m, a.mail(m)[0]);
  }

  lemma AnswerMovesPhase(a: Abs, w: Who, key: PublicKey, s: Signature)
    requires Base(a) && PhaseOk(a, Synced)
    requires NoTokens(a, Other(w)) && MayAnswer(a, w, key, s)
    requires a.At(w).contact.pfs == Idle
    ensures PhaseOk(Perform(a, w, HandleRotateRequest(a.At(w), key, s)), Waiting(Other(w)))
  {
    var e := HandleRotateRequest(a.At(w), key, s);
    var b := Perform(a, w, e);
    var v := Other(w);
    hide Base;
    AnswerTokens(a, w, key, s);
    AnswerFresh(a, w, key, s);
    LocalOf(a, w);
    LocalOf(a, v);
    assert Answered(b.At(v).contact, b.At(w).contact);
    assert OnlyAnswer(b, v) && OnlyRequests(b, w);
    hide LocalOk;
  }

  /** Nothing waits in the mailbox an answering side adopts. */
  lemma AnswerFresh(a: Abs, w: Who, key: PublicKey, s: Signature)
    requires Base(a) && MayAnswer(a, w, key, s)
    ensures var e := HandleRotateRequest(a.At(w), key, s);
            Perform(a, w, e).mail(e.local.contact.rxId) == []
  {
    var e := HandleRotateRequest(a.At(w), key, s);
    MailIsKnown(a, e.local.contact.rxId);
    hide Base;
    LocalOf(a, w);
  }

  /** After an answer between synced sides the answer is the only handshake frame. */
  lemma AnswerTokens(a: Abs, w: Who, key: PublicKey, s: Signature)
    requires Base(a) && NoTokens(a, Other(w)) && MayAnswer(a, w, key, s) && a.At(w).contact.pfs == Idle
    ensures var e := HandleRotateRequest(a.At(w), key, s);
            var b := Perform(a, w, e);
            forall t, m, i | TokenAt(b, t, m, i) ::
              t == Other(w) && m == a.At(w).contact.txId && i == |b.mail(m)| - 1 && b.mail(m)[i] == e.out[0]
  {
    var e := HandleRotateRequest(a.At(w), key, s);
    var b := Perform(a, w, e);
    hide Base;
    IdleHasNoTokens(a, w);
    LocalOf(a, w);
    forall t, m, i | TokenAt(b, t, m, i)
      ensures t == Other(w) && m == a.At(w).contact.txId && i == |b.mail(m)| - 1 && b.mail(m)[i] == e.out[0]
    {
      PerformAt(a, w, e, m, i);
      assert !TokenAt(a, t, m, i);
    }
  }

  lemma CompleteMovesPhase(a: Abs, w: Who, key: PublicKey, s: Signature)
    requires Base(a) && PhaseOk(a, Waiting(w))
    requires NoTokens(a, w) && MayComplete(a, w, key, s)
    requires key.secret == Sender(a.At(Other(w)).contact.txId)
    ensures PhaseOk(Perform(a, w, HandleRotateAck(a.At(w), key, s)), Synced)
  {
    hide Base, OnlyAnswer;
    LocalOf(a, w);
    LocalOf(a, Other(w));
    var e := HandleRotateAck(a.At(w), key, s);
    var b := Perform(a, w, e);
    assert Paired(b.alice.contact, b.bob.contact);
    assert b.At(Other(w)) == a.At(Other(w)) && e.out == [] && e.local.me == a.At(w).me;
    hide LocalOk, HandleRotateAck, MayComplete;
    SilentKeepsNoTokens(a, w, e, w);
    SilentKeepsRequests(a, w, e, Other(w));
    assert OnlyRequests(b, w);
  }

  lemma SilentKeepsRequests(a: Abs, w: Who, e: Effect, t: Who)
    requires e.out == [] && e.local.me == a.At(w).me && OnlyRequests(a, t) && t != w
    ensures OnlyRequests(Perform(a, w, e), t)
  {
    var b := Perform(a, w, e);
    forall m, i | TokenAt(b, t, m, i)
      ensures TokenAt(a, t, m, i) && b.mail(m)[i] == a.mail(m)[i]
    {
    }
  }

  // ---------------------------------------------------------------- whole handlers

  lemma StartKeepsPhase(a: Abs, w: Who, ph: Phase)
    requires Base(a) && PhaseOk(a, ph)
    ensures PhaseOk(Perform(a, w, MaybeStartInitialPfs(a.At(w))), ph)
  {
    hide Base, PhaseOk;
    var e := MaybeStartInitialPfs(a.At(w));
    if e.out == [] {
      LocalOf(a, w);
      CalmKeepsPhase(a, w, e, ph);
    } else {
      InitiateKeepsPhase(a, w, ph);
    }
  }

  lemma ConnectKeepsPhase(a: Abs, w: Who, ph: Phase)
    requires Base(a) && PhaseOk(a, ph)
    ensures PhaseOk(Perform(a, w, Connect(a.At(w))), ph)
  {
    hide Base, PhaseOk, Same;
    var p := a.At(w);
    LocalOf(a, w);
    if p.connected {
      CalmKeepsPhase(a, w, Connect(p), ph);
    } else {
      var on := Effect(p.(connected := true), [], Quiet);
      CalmKeepsBase(a, w, on);
      CalmKeepsPhase(a, w, on, ph);
      var b := Perform(a, w, on);
      StartKeepsPhase(b, w, ph);
      PerformThen(a, w, on, MaybeStartInitialPfs(b.At(w)));
      assert Then(on, MaybeStartInitialPfs(b.At(w))) == Connect(p);
      SameSym(Perform(a, w, Connect(p)), Perform(b, w, MaybeStartInitialPfs(b.At(w))));
      SamePhase(Perform(b, w, MaybeStartInitialPfs(b.At(w))), Perform(a, w, Connect(p)), ph);
    }
  }

  lemma LoggedKeepsPhase(a: Abs, w: Who, data: seq<byte>, ph: Phase)
    requires Base(a) && PhaseOk(a, ph)
    ensures PhaseOk(Perform(a, w, Logged(a.At(w), data)), ph)
  {
    hide Base, PhaseOk;
    LocalOf(a, w);
    CalmKeepsPhase(a, w, Logged(a.At(w), data), ph);
  }

  lemma StartedKeepsPhase(a: Abs, w: Who, ph: Phase)
    requires Base(a) && PhaseOk(a, ph)
    ensures PhaseOk(Perform(a, w, Started(a.At(w))), ph)
  {
    hide Base, PhaseOk;
    LocalOf(a, w);
    if Started(a.At(w)).out == [] {
      CalmKeepsPhase(a, w, Started(a.At(w)), ph);
    } else {
      InitiateKeepsPhase(a, w, ph);
    }
  }

  lemma PostedKeepsPhase(a: Abs, w: Who, data: seq<byte>, ph: Phase)
    requires Base(a) && PhaseOk(a, ph)
    requires var p := a.At(w);
             p.contact.complete && (p.contact.pfs == Idle && p.interval > 0 ==> p.contact.counter < p.interval)
    ensures PhaseOk(Perform(a, w, Posted(a.At(w), data)), ph)
  {
    hide Base, PhaseOk;
    LocalOf(a, w);
    CalmKeepsPhase(a, w, Posted(a.At(w), data), ph);
  }

  lemma SendKeepsPhase(a: Abs, w: Who, data: seq<byte>, ph: Phase)
    requires Base(a) && PhaseOk(a, ph)
    ensures PhaseOk(Perform(a, w, Send(a.At(w), data)), ph)
  {
    var p := a.At(w);
    if !p.contact.complete {
      hide Base, PhaseOk, MaybeStartInitialPfs;
      StartKeepsPhase(a, w, ph);
      SamePhase(Perform(a, w, MaybeStartInitialPfs(p)), Perform(a, w, Send(p, data)), ph);
    } else {
      SendSplits(p, data);
      var e := Logged(p, data);
      LoggedKeepsBase(a, w, data);
      LoggedKeepsPhase(a, w, data, ph);
      hide Base, PhaseOk, Send, Started, Same, Logged, Posted, Then;
      var b := Perform(a, w, e);
      var f := Started(b.At(w));
      StartedKeepsBase(b, w);
      StartedKeepsPhase(b, w, ph);
      PerformThen(a, w, e, f);
      SameSym(Perform(a, w, Then(e, f)), Perform(b, w, f));
      SameBase(Perform(b, w, f), Perform(a, w, Then(e, f)));
      SamePhase(Perform(b, w, f), Perform(a, w, Then(e, f)), ph);
      var c := Perform(a, w, Then(e, f));
      var g := Posted(f.local, data);
      PostedKeepsPhase(c, w, data, ph);
      PerformThen(a, w, Then(e, f), g);
      SameSym(Perform(a, w, Send(p, data)), Perform(c, w, g));
      SamePhase(Perform(c, w, g), Perform(a, w, Send(p, data)), ph);
    }
  }

  /** The phase after w printed a notice. */
  function After(ph: Phase, w: Who, n: Notice): Phase {
    if n == RotationAnswered then Waiting(Other(w))
    else if n == RotationCompleted then Synced
    else ph
  }

  lemma OpenedKeepsPhase(a: Abs, w: Who, m: MailboxId, ph: Phase)
    requires Arriving(a, w, m) && PhaseOk(a, ph)
    ensures PhaseOk(Opened(a, w, m), ph)
  {
    var p := a.At(w);
    var e := Effect(p.(contact := DropOld(p.contact, p.contact.oldRxId == Some(m))), [], Quiet);
    hide Base;
    assert ph == Waiting(Other(w)) ==> m != p.contact.rxId by { hide OnlyRequests, OnlyAnswer; }
    hide PhaseOk;
    TakeKeepsBase(a, m, 0);
    TakeKeepsPhase(a, m, 0, ph);
    LocalOf(a, w);
    assert Calm(p, e) by { hide OldOk, PendingOk, MailboxOk; }
    hide LocalOk;
    assert ph == Waiting(Other(w)) ==> e.local.contact.oldRxId == p.contact.oldRxId;
    hide Calm;
    CalmKeepsPhase(Take(a, m, 0), w, e, ph);
  }

  /** A request reaches its receiver only while both sides are synced. */
  lemma RequestMeansSynced(a: Abs, w: Who, m: MailboxId, ph: Phase)
    requires Arriving(a, w, m) && PhaseOk(a, ph)
    requires a.mail(m)[0].payload.plain.RotateRequest?
    ensures ph == Synced
  {
    hide Base;
    ListensOpens(a, w, m);
    LocalOf(a, w);
    assert TokenAt(a, Other(w), m, 0);
    if ph == Waiting(w) {
      WaitingDistinct(a, w);
    }
  }

  /** A request is only acted on by an idle side, which then has the other side waiting. */
  lemma RequestMovesPhase(a: Abs, w: Who, m: MailboxId, ph: Phase)
    requires Arriving(a, w, m) && PhaseOk(a, ph) && !Crossing(a, w, m)
    requires a.mail(m)[0].payload.plain.RotateRequest?
    ensures var o := Opened(a, w, m);
            var plain := a.mail(m)[0].payload.plain;
            && ph == Synced
            && PhaseOk(Perform(o, w, HandleRotateRequest(o.At(w), plain.key, plain.signature)), Waiting(Other(w)))
  {
    var plain := a.mail(m)[0].payload.plain;
    hide Base, PhaseOk;
    LocalOf(a, w);
    assert a.At(w).contact.pfs == Idle;
    hide LocalOk;
    RequestMeansSynced(a, w, m, ph);
    RequestKeepsBase(a, w, m);
    OpenedKeepsPhase(a, w, m, ph);
    OpenedKeepsBase(a, w, m);
    AnswerMovesPhase(Opened(a, w, m), w, plain.key, plain.signature);
  }

  lemma AckMovesPhase(a: Abs, w: Who, m: MailboxId, ph: Phase)
    requires Arriving(a, w, m) && PhaseOk(a, ph)
    requires a.mail(m)[0].payload.plain.RotateAck?
    ensures var o := Opened(a, w, m);
            var plain := a.mail(m)[0].payload.plain;
            && ph == Waiting(w) && m == a.At(w).contact.rxId && |a.mail(m)| == 1
            && PhaseOk(Perform(o, w, HandleRotateAck(o.At(w), plain.key, plain.signature)), Synced)
  {
    var plain := a.mail(m)[0].payload.plain;
    AckMeansWaiting(a, w, m, ph);
    hide Base, PhaseOk;
    AckKeepsBase(a, w, m);
    OpenedKeepsPhase(a, w, m, ph);
    OpenedKeepsBase(a, w, m);
    assert a.At(Other(w)).contact.txId == Opened(a, w, m).At(Other(w)).contact.txId;
    CompleteMovesPhase(Opened(a, w, m), w, plain.key, plain.signature);
  }

  /** An answer reaches its receiver only while that side waits for it, and ends the mailbox it came in. */
  lemma AckMeansWaiting(a: Abs, w: Who, m: MailboxId, ph: Phase)
    requires Arriving(a, w, m) && PhaseOk(a, ph)
    requires a.mail(m)[0].payload.plain.RotateAck?
    ensures ph == Waiting(w) && m == a.At(w).contact.rxId && |a.mail(m)| == 1
    ensures a.mail(m)[0].payload.plain.key.secret == Sender(a.At(Other(w)).contact.txId)
  {
    ListensOpens(a, w, m);
    assert TokenAt(a, w, m, 0);
    hide Base;
  }

  lemma TextKeepsPhase(a: Abs, w: Who, m: MailboxId, ph: Phase)
    requires Arriving(a, w, m) && PhaseOk(a, ph)
    requires a.mail(m)[0].payload.plain.Text?
    ensures var o := Opened(a, w, m);
            PhaseOk(Perform(o, w, HandleText(o.At(w), a.mail(m)[0].payload.plain.data)), ph)
  {
    hide Base, PhaseOk, Opened, Perform;
    MailOf(a, m, 0);
    var data := a.mail(m)[0].payload.plain.data;
    TextKeepsBase(a, w, m);
    OpenedKeepsPhase(a, w, m, ph);
    OpenedKeepsBase(a, w, m);
    var o := Opened(a, w, m);
    assert Calm(o.At(w), HandleText(o.At(w), data)) by { LocalOf(o, w); }
    hide Calm;
    CalmKeepsPhase(o, w, HandleText(o.At(w), data), ph);
  }

  lemma HandleMovesPhase(a: Abs, w: Who, m: MailboxId, ph: Phase)
    requires Arriving(a, w, m) && PhaseOk(a, ph) && !Crossing(a, w, m)
    requires !a.mail(m)[0].payload.plain.Receipt?
    ensures var o := Opened(a, w, m);
            var e := Handle(o.At(w), a.mail(m)[0].payload.plain);
            && PhaseOk(Perform(o, w, e), After(ph, w, e.notice))
            && (e.notice == RotationAnswered ==> ph == Synced)
            && (e.notice == RotationCompleted ==> ph == Waiting(w) && m == a.At(w).contact.rxId && |a.mail(m)| == 1)
  {
    var plain := a.mail(m)[0].payload.plain;
    hide Base, Arriving, PhaseOk, HandleRotateAck, HandleRotateRequest, Perform, Opened, Crossing;
    match plain
    case Text(data) =>
      TextKeepsPhase(a, w, m, ph);
      TextKeepsBase(a, w, m);
    case RotateRequest(key, s) =>
      RequestKeepsBase(a, w, m);
      RequestMovesPhase(a, w, m, ph);
    case RotateAck(key, s) =>
      AckKeepsBase(a, w, m);
      AckMovesPhase(a, w, m, ph);
  }

  lemma OtherwiseKeepsPhase(a: Abs, w: Who, m: MailboxId, ph: Phase)
    requires Base(a) && a.mail(m) != [] && SideOf(a, m) == Other(w) && PhaseOk(a, ph)
    requires Listens(a.At(w).contact, m) ==> a.mail(m)[0].payload.plain.Receipt?
    ensures PhaseOk(Deliver(a, w, m), ph)
    ensures Receive(a.At(w), a.mail(m)[0]).notice !in {RotationAnswered, RotationCompleted}
  {
    hide Base, PhaseOk;
    OtherwiseKeepsBase(a, w, m);
    TakeKeepsBase(a, m, 0);
    TakeKeepsPhase(a, m, 0, ph);
    ReceiveShape(a, w, m);
    hide Receive, Calm;
    CalmKeepsPhase(Take(a, m, 0), w, Receive(a.At(w), a.mail(m)[0]), ph);
  }

  lemma ReceiveShape(a: Abs, w: Who, m: MailboxId)
    requires Base(a) && a.mail(m) != [] && SideOf(a, m) == Other(w)
    requires Listens(a.At(w).contact, m) ==> a.mail(m)[0].payload.plain.Receipt?
    ensures Receive(a.At(w), a.mail(m)[0]).notice !in {RotationAnswered, RotationCompleted}
  {
    MailOf(a, m, 0);
    hide Base;
  }

  /**
    * One delivery, not a crossing, moves the phase as its notice says. An answer to a request ends
    * the waiting and was the last frame in the mailbox its receiver abandons.
    */
  lemma DeliverMovesPhase(a: Abs, w: Who, m: MailboxId, ph: Phase)
    requires Base(a) && a.mail(m) != [] && SideOf(a, m) == Other(w) && PhaseOk(a, ph)
    requires !Crossing(a, w, m)
    ensures var n := Receive(a.At(w), a.mail(m)[0]).notice;
            && PhaseOk(Deliver(a, w, m), After(ph, w, n))
            && (n == RotationAnswered ==> ph == Synced)
            && (n == RotationCompleted ==> ph == Waiting(w) && m == a.At(w).contact.rxId && |a.mail(m)| == 1)
  {
    hide Base, Receive, Handle, Opened, PhaseOk, Crossing, Same, Perform;
    MailOf(a, m, 0);
    var e := Receive(a.At(w), a.mail(m)[0]);
    if Listens(a.At(w).contact, m) && !a.mail(m)[0].payload.plain.Receipt? {
      PushSplits(a, w, m);
      HandleMovesPhase(a, w, m, ph);
      SameSym(Deliver(a, w, m), Perform(Opened(a, w, m), w, e));
      SamePhase(Perform(Opened(a, w, m), w, e), Deliver(a, w, m), After(ph, w, e.notice));
    } else {
      OtherwiseKeepsPhase(a, w, m, ph);
    }
  }

  // ---------------------------------------------------------------- moves

  /** The move makes a client answer a rotation request while its own is outstanding. */
  predicate CrossingMove(a: Abs, mv: Move)
    requires Possible(a, mv)
  {
    mv.DeliverMove? && Crossing(a, mv.w, mv.m)
  }

  /** The phase after a move: deliveries move it as their notice says. */
  function PhaseNext(a: Abs, mv: Move, ph: Phase): Phase
    requires Possible(a, mv)
  {
    if mv.DeliverMove? then After(ph, mv.w, Receive(a.At(mv.w), a.mail(mv.m)[0]).notice) else ph
  }

  /** Every move that is not a crossing keeps the two ends on the same keys or one of them waiting. */
  lemma MoveKeepsPhase(a: Abs, mv: Move, ph: Phase)
    requires Base(a) && PhaseOk(a, ph) && Possible(a, mv) && !CrossingMove(a, mv)
    ensures PhaseOk(Moved(a, mv), PhaseNext(a, mv, ph))
  {
    hide Base, PhaseOk, Deliver, Perform, Take, Receive, Crossing;
    match mv
    case Stay =>
    case ConnectMove(w) => ConnectKeepsPhase(a, w, ph);
    case SendMove(w, data) => SendKeepsPhase(a, w, data, ph);
    case LoseMove(m, i) => TakeKeepsPhase(a, m, i, ph);
    case DeliverMove(w, m) => DeliverMovesPhase(a, w, m, ph);
  }
}
