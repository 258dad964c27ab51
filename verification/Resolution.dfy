/** Rotations that can still come to an end, and those that never will. */
module Resolution {
  import opened Common
  import opened Crypto
  import opened ClientCore
  import opened LossyMail
  import opened Rotation
  import opened Relay
  import opened Collision
  import opened Theorems
  import opened Passage
  import opened Lines
  import opened Stalls
  import opened Settings
  import opened Progress
  import Broker

  /**
    * The handshake frame w depends on is on its way: the answer, or a request the other side listens for,
    * or a request and also the answer after which the other side will listen for it.
    */
  ghost predicate InFlight(a: Abs, w: Who) {
    exists m, i ::
      && TokenAt(a, w, m, i)
      && (Answers(a.mail(m)[i]) || Listens(a.At(Other(w)).contact, m) || !NoTokens(a, Other(w)))
  }

  // ---------------------------------------------------------------- it can come to an end

  /** Connecting does no more than set the flag. */
  predicate ConnectsQuietly(p: Local) {
    p.contact.pfs != Idle || p.contact.complete || !IsInitialPfsInitiator(p.me, p.contact.publicKey)
  }

  lemma BothConnectQuietly(a: Abs, w: Who, ph: Phase)
    requires Base(a) && PhaseOk(a, ph) && a.At(w).contact.pfs == RotationRequested
    ensures ConnectsQuietly(a.At(w)) && ConnectsQuietly(a.At(Other(w)))
  {
    hide Base, OnlyRequests, OnlyAnswer;
    LocalOf(a, w);
    LocalOf(a, Other(w));
    LexLessTrichotomy(a.alice.me, a.bob.me);
    if ph == Synced {
      PairedComplete(a);
    }
  }

  function Flagged(side: Side): Side {
    side.(local := side.local.(connected := true))
  }

  function BothFlagged(s: World): World {
    s.(alice := Flagged(s.alice), bob := Flagged(s.bob))
  }

  lemma ConnectFlags(s: World)
    requires ConnectsQuietly(s.alice.local) && ConnectsQuietly(s.bob.local)
    ensures Exec(s, [DoConnect(Alice), DoConnect(Bob)]) == BothFlagged(s)
  {
    ExecTwo(s, DoConnect(Alice), DoConnect(Bob));
    assert s.alice.outbox + [] == s.alice.outbox && s.bob.outbox + [] == s.bob.outbox;
    hide Exec;
  }

  lemma FlaggedSame(s: World, ph: Phase)
    requires PhaseOk(Alpha(s), ph)
    ensures PhaseOk(Alpha(BothFlagged(s)), ph)
    ensures forall m :: InTransit(BothFlagged(s), m) == InTransit(s, m)
  {
    hide InTransit, PhaseOk;
    var t := BothFlagged(s);
    forall m
      ensures InTransit(t, m) == InTransit(s, m)
    {
      FlaggedTransit(s, m);
    }
    ContactsPhase(Alpha(s), Alpha(t), ph);
  }

  lemma FlaggedTransit(s: World, m: MailboxId)
    ensures InTransit(BothFlagged(s), m) == InTransit(s, m)
  {
    hide Mail, Broker.QueueOf, Pipeline;
  }

  /** The phase is a matter of contacts and mail. */
  lemma ContactsPhase(a: Abs, b: Abs, ph: Phase)
    requires a.alice.me == b.alice.me && a.bob.me == b.bob.me && forall m :: a.mail(m) == b.mail(m)
    requires a.alice.contact == b.alice.contact && a.bob.contact == b.bob.contact && PhaseOk(a, ph)
    ensures PhaseOk(b, ph)
  {
    forall w, m, i
      ensures TokenAt(b, w, m, i) == TokenAt(a, w, m, i)
    {
    }
    hide TokenAt;
  }

  /** What is in flight, phase by phase. */
  lemma InFlightCases(a: Abs, w: Who, ph: Phase)
    requires Base(a) && PhaseOk(a, ph) && InFlight(a, w)
    ensures ph == Synced ==> Among(a.mail(a.At(w).contact.txId), a.At(w).contact.txId, true)
    ensures ph == Waiting(w) ==> Among(a.mail(a.At(w).contact.rxId), a.At(w).contact.rxId, false)
    ensures ph == Waiting(Other(w)) ==>
              && Among(a.mail(a.At(w).contact.txId), a.At(w).contact.txId, true)
              && Among(a.mail(a.At(Other(w)).contact.rxId), a.At(Other(w)).contact.rxId, false)
  {
    hide Base, Among;
    var m, i :| TokenAt(a, w, m, i)
                && (Answers(a.mail(m)[i]) || Listens(a.At(Other(w)).contact, m) || !NoTokens(a, Other(w)));
    TokenAmong(a, w, m, i);
    if ph == Waiting(Other(w)) {
      WaitingDistinct(a, Other(w));
      var n, j :| TokenAt(a, Other(w), n, j);
      TokenAmong(a, Other(w), n, j);
    }
  }

  lemma TokenAmong(a: Abs, w: Who, m: MailboxId, i: nat)
    requires Base(a) && TokenAt(a, w, m, i)
    ensures Among(a.mail(m), m, Asks(a.mail(m)[i])) && (Asks(a.mail(m)[i]) || Answers(a.mail(m)[i]))
  {
    hide Base;
    MailOf(a, m, i);
    assert a.mail(m)[i] in a.mail(m);
  }

  /** w awaits the answer in the mailbox it reads. */
  lemma WaitingAwaits(a: Abs, w: Who)
    requires Base(a) && PhaseOk(a, Waiting(w))
    ensures AwaitsAt(a, w, a.At(w).contact.rxId)
  {
    hide Base;
    WaitingDistinct(a, w);
    LocalOf(a, w);
  }

  lemma ResolvingRun(s: World, w: Who, ph: Phase) returns (steps: seq<Step>)
    requires RunOk(s) && LinesOk(s) && s.quota > 0 && PhaseOk(Alpha(s), ph)
    requires s.At(w).local.contact.pfs == RotationRequested && InFlight(Alpha(s), w)
    ensures Exec(s, steps).At(w).local.contact.pfs == Idle
  {
    hide RunOk, LinesOk, InTransit, PhaseOk, InFlight, Among, Exec, AwaitsAt, Base, WellAddressed, ConnectsQuietly;
    RunOkBase(s);
    BothConnectQuietly(Alpha(s), w, ph);
    assert ConnectsQuietly(s.alice.local) && ConnectsQuietly(s.bob.local);
    ConnectFlags(s);
    var first := [DoConnect(Alice), DoConnect(Bob)];
    var t := BothFlagged(s);
    RunKeepsLines(s, first);
    RunOkBase(t);
    FlaggedSame(s, ph);
    InFlightCases(Alpha(s), w, ph);
    assert forall m :: Alpha(s).mail(m) == InTransit(t, m);
    var rest;
    if ph == Synced {
      rest := AskRun(t, w);
    } else if ph == Waiting(w) {
      WaitingAwaits(Alpha(t), w);
      rest := FinishRun(t, w);
    } else {
      rest := CatchUpRun(t, w);
    }
    steps := first + rest;
    ExecConcat(s, first, rest);
  }

  // ---------------------------------------------------------------- it will never come to an end

  lemma NothingInFlight(a: Abs, w: Who, ph: Phase)
    requires Base(a) && PhaseOk(a, ph) && a.At(w).contact.pfs == RotationRequested && !InFlight(a, w)
    ensures Stuck(a, w)
  {
    hide Base;
    if !NoTokens(a, w) {
      var m, i :| TokenAt(a, w, m, i);
      assert ph == Waiting(Other(w));
      WaitingDistinct(a, Other(w));
      LocalOf(a, Other(w));
    }
  }

  lemma StarvedWaits(s: World, step: Step, w: Who)
    requires Starved(s) && s.At(w).local.contact.pfs == RotationRequested
    ensures Do(s, step).At(w).local.contact.pfs == RotationRequested
  {
    if step.DoDeliver? && s.At(step.w).down != [] {
      assert s.At(step.w).down[0] in s.At(step.w).down;
    }
    hide ProcessPush, ProcessAck, Broker.Serve;
  }

  lemma {:induction false} RunStaysStarved(s: World, steps: seq<Step>, w: Who)
    requires Starved(s)
    ensures Starved(Exec(s, steps))
    ensures s.At(w).local.contact.pfs == RotationRequested ==> Exec(s, steps).At(w).local.contact.pfs == RotationRequested
    decreases |steps|
  {
    hide Starved, Do;
    if steps != [] {
      StepStarves(s, steps[0]);
      if s.At(w).local.contact.pfs == RotationRequested {
        StarvedWaits(s, steps[0], w);
      }
      RunStaysStarved(Do(s, steps[0]), steps[1..], w);
    }
  }

  // ---------------------------------------------------------------- the theorem

  predicate Resolves(s: World, more: seq<Step>, w: Who) {
    Exec(s, more).At(w).local.contact.pfs == Idle
  }

  /**
    * After every run without crossings, a client that waits for the answer to its rotation request becomes
    * idle in some continuation exactly when the relay accepts mail at all and the frame the client depends
    * on is in flight. Otherwise it waits for good.
    */
  lemma ResolvesIff(g: Config, steps: seq<Step>, w: Who)
    requires ValidConfig(g) && NoCrossings(Init(g), steps)
    requires Exec(Init(g), steps).At(w).local.contact.pfs == RotationRequested
    ensures var s := Exec(Init(g), steps);
            (exists more :: Resolves(s, more, w)) <==> g.quota > 0 && InFlight(Alpha(s), w)
  {
    hide RunOk, LinesOk, PhaseOk, InFlight, Starved, NoCrossings, Stuck, Base, WellAddressed;
    InitOk(g);
    InitLines(g);
    RunMovesPhase(Init(g), steps, Synced);
    RunKeepsLines(Init(g), steps);
    var s, ph := Exec(Init(g), steps), PhaseAfter(Synced, Init(g), steps);
    assert s.quota == g.quota by { RunKeepsQuota(Init(g), steps); }
    RunOkBase(s);
    if g.quota == 0 {
      assert Starved(Init(g)) by { InitStarved(g); }
      RunStaysStarved(Init(g), steps, w);
      forall more
        ensures !Resolves(s, more, w)
      {
        RunStaysStarved(s, more, w);
      }
    } else if InFlight(Alpha(s), w) {
      var more := ResolvingRun(s, w, ph);
      assert Resolves(s, more, w);
    } else {
      NothingInFlight(Alpha(s), w, ph);
      forall more
        ensures !Resolves(s, more, w)
      {
        RunKeepsStuck(s, more, w);
      }
    }
  }

  lemma InitStarved(g: Config)
    requires g.quota == 0
    ensures Starved(Init(g))
  {
  }

  lemma {:induction false} RunKeepsQuota(s: World, steps: seq<Step>)
    ensures Exec(s, steps).quota == s.quota
    decreases |steps|
  {
    if steps != [] {
      assert Do(s, steps[0]).quota == s.quota by { hide Connect, Send, Receive, Broker.Serve; }
      RunKeepsQuota(Do(s, steps[0]), steps[1..]);
    }
  }

  // ---------------------------------------------------------------- the initial handshake

  lemma StepCompletes(s: World, step: Step, w: Who)
    requires !s.At(w).local.contact.complete && Do(s, step).At(w).local.contact.complete
    ensures Do(s, step).At(w).local.contact.pfs == Idle
  {
    if step.DoDeliver? && s.At(step.w).down != [] {
      ReceiveCompletes(s.At(step.w).local, s.At(step.w).down[0]);
    }
    hide Receive, Broker.Serve;
  }

  lemma ReceiveCompletes(p: Local, f: MailFrame)
    ensures !p.contact.complete && Receive(p, f).local.contact.complete ==> Receive(p, f).local.contact.pfs == Idle
  {
  }

  lemma {:induction false} NeverCompletes(s: World, more: seq<Step>, w: Who)
    requires !s.At(w).local.contact.complete
    requires forall k | 0 <= k <= |more| :: !Resolves(s, more[..k], w)
    ensures !Exec(s, more).At(w).local.contact.complete
    decreases |more|
  {
    hide Do;
    if more != [] {
      var t := Do(s, more[0]);
      assert more[..1] == [more[0]];
      ExecOne(s, more[0]);
      assert !Resolves(s, more[..1], w);
      if t.At(w).local.contact.complete {
        StepCompletes(s, more[0], w);
      }
      forall k | 0 <= k <= |more[1..]|
        ensures !Resolves(t, more[1..][..k], w)
      {
        assert more[..k + 1] == [more[0]] + more[1..][..k];
        ExecConcat(s, [more[0]], more[1..][..k]);
        assert !Resolves(s, more[..k + 1], w);
      }
      NeverCompletes(t, more[1..], w);
    }
  }

  /**
    * A client that waits for the initial handshake with nothing in flight never completes its contact:
    * whatever happens next, it refuses every text.
    */
  lemma InitialStallIsFinal(g: Config, steps: seq<Step>, more: seq<Step>, w: Who, data: seq<byte>)
    requires ValidConfig(g) && NoCrossings(Init(g), steps)
    requires var s := Exec(Init(g), steps);
             && s.At(w).local.contact.pfs == RotationRequested && !s.At(w).local.contact.complete
             && (g.quota == 0 || !InFlight(Alpha(s), w))
    ensures var p := Exec(Exec(Init(g), steps), more).At(w).local;
            && !p.contact.complete && Send(p, data).notice == NotReady
            && forall f | f in Send(p, data).out :: !(f.payload.Sealed? && f.payload.plain.Text?)
  {
    hide InFlight, Exec, Resolves, NoCrossings;
    var s := Exec(Init(g), steps);
    ResolvesIff(g, steps, w);
    NeverCompletes(s, more, w);
  }
}
