/**
  * For which settings the clients can ever be split: exactly those under which the relay accepts mail
  * and both clients rotate their keys.
  */
module Settings {
  import opened Common
  import opened Crypto
  import opened ClientCore
  import opened LossyMail
  import opened Rotation
  import opened Collision
  import opened Relay
  import opened Theorems
  import opened Divergence
  import opened Exactness

  // ---------------------------------------------------------------- a client that never rotates

  predicate RequestAt(a: Abs, w: Who, m: MailboxId, i: int) {
    && 0 <= i < |a.mail(m)|
    && Asks(a.mail(m)[i])
    && Sender(m).party == a.At(w).me
  }

  predicate Asks(f: MailFrame) {
    f.payload.Sealed? && f.payload.plain.RotateRequest?
  }

  /** Idle as soon as its contact is complete. */
  predicate Settled(p: Local) {
    p.interval == 0 && (p.contact.complete ==> p.contact.pfs == Idle)
  }

  /** w rotates only in the initial handshake, whose request travels in the bootstrap mailbox. */
  ghost predicate NeverRotates(a: Abs, w: Who) {
    Settled(a.At(w)) && forall m, i | RequestAt(a, w, m, i) :: Sender(m).Identity?
  }

  predicate AsksFirstOnly(p: Local, e: Effect) {
    Settled(e.local) && e.local.me == p.me && forall f | f in e.out && Asks(f) :: !p.contact.complete
  }

  lemma ActionsAskFirstOnly(p: Local, data: seq<byte>)
    requires Settled(p)
    ensures AsksFirstOnly(p, Connect(p)) && AsksFirstOnly(p, Send(p, data))
  {
  }

  lemma HandlersAskFirstOnly(p: Local, key: PublicKey, s: Signature)
    requires Settled(p)
    ensures AsksFirstOnly(p, HandleRotateRequest(p, key, s)) && AsksFirstOnly(p, HandleRotateAck(p, key, s))
  {
  }

  lemma ReceiveAsksFirstOnly(p: Local, f: MailFrame)
    requires Settled(p)
    ensures AsksFirstOnly(p, Receive(p, f))
  {
    var q := p.(contact := DropOld(p.contact, p.contact.oldRxId == Some(f.mailbox)));
    if f.payload.Sealed? && (f.payload.plain.RotateRequest? || f.payload.plain.RotateAck?) {
      HandlersAskFirstOnly(q, f.payload.plain.key, f.payload.plain.signature);
    }
    hide HandleRotateRequest, HandleRotateAck, UpdateStatus;
  }

  lemma PerformNeverRotates(a: Abs, x: Who, e: Effect, w: Who)
    requires Base(a) && NeverRotates(a, w) && e.local.me == a.At(x).me
    requires x == w ==> AsksFirstOnly(a.At(w), e)
    ensures NeverRotates(Perform(a, x, e), w)
  {
    hide Base;
    LocalOf(a, x);
    var b := Perform(a, x, e);
    forall m, i | RequestAt(b, w, m, i)
      ensures Sender(m).Identity?
    {
      PerformAt(a, x, e, m, i);
      assert i < |a.mail(m)| ==> RequestAt(a, w, m, i);
    }
  }

  lemma TakeNeverRotates(a: Abs, n: MailboxId, i: nat, w: Who)
    requires NeverRotates(a, w) && i < |a.mail(n)|
    ensures NeverRotates(Take(a, n, i), w)
  {
    var b := Take(a, n, i);
    forall m, k | RequestAt(b, w, m, k)
      ensures Sender(m).Identity?
    {
      TakeAt(a, n, i, m, k);
      assert RequestAt(a, w, m, Before(n, i, m, k));
    }
  }

  lemma MoveNeverRotates(a: Abs, mv: Move, w: Who)
    requires Base(a) && Possible(a, mv) && NeverRotates(a, w)
    ensures NeverRotates(Moved(a, mv), w)
  {
    hide Base, NeverRotates, Take, Perform, Connect, Send, Receive, AsksFirstOnly, Addressed;
    assert Settled(a.At(w)) by { NeverSettled(a, w); }
    match mv
    case Stay =>
    case ConnectMove(x) =>
      if x == w {
        ActionsAskFirstOnly(a.At(x), []);
      }
      HandlersAddress(a.At(x), [], Frame(Poll, a.At(x).contact.rxId, Zeros));
      PerformNeverRotates(a, x, Connect(a.At(x)), w);
    case SendMove(x, data) =>
      if x == w {
        ActionsAskFirstOnly(a.At(x), data);
      }
      HandlersAddress(a.At(x), data, Frame(Poll, a.At(x).contact.rxId, Zeros));
      PerformNeverRotates(a, x, Send(a.At(x), data), w);
    case LoseMove(m, i) => TakeNeverRotates(a, m, i, w);
    case DeliverMove(x, m) =>
      var f := a.mail(m)[0];
      if x == w {
        ReceiveAsksFirstOnly(a.At(x), f);
      }
      ReceiveAddresses(a.At(x), f);
      TakeKeepsBase(a, m, 0);
      TakeNeverRotates(a, m, 0, w);
      assert Take(a, m, 0).At(x) == a.At(x) by { TakeKeepsLocals(a, m, 0); }
      PerformNeverRotates(Take(a, m, 0), x, Receive(a.At(x), f), w);
  }

  lemma NeverSettled(a: Abs, w: Who)
    requires NeverRotates(a, w)
    ensures Settled(a.At(w))
  {
  }

  lemma SameNeverRotates(a: Abs, b: Abs, w: Who)
    requires Same(a, b) && NeverRotates(a, w)
    ensures NeverRotates(b, w)
  {
    forall m, i | RequestAt(b, w, m, i)
      ensures Sender(m).Identity?
    {
      assert RequestAt(a, w, m, i);
    }
  }

  /** Neither side answers a request of a client that never rotates while waiting itself, nor the reverse. */
  lemma NeverCrosses(a: Abs, mv: Move, w: Who)
    requires Base(a) && Possible(a, mv) && NeverRotates(a, w)
    ensures !CrossingMove(a, mv)
  {
    hide Base;
    if mv.DeliverMove? && Listens(a.At(mv.w).contact, mv.m) {
      ListensOpens(a, mv.w, mv.m);
      MailOf(a, mv.m, 0);
      assert mv.w != w && Asks(a.mail(mv.m)[0]) ==> RequestAt(a, w, mv.m, 0);
      if Crossing(a, mv.w, mv.m) {
        CrossingComplete(a, mv.w, mv.m);
      }
    }
  }

  lemma {:induction false} RunNeverCrosses(s: World, steps: seq<Step>, w: Who)
    requires RunOk(s) && NeverRotates(Alpha(s), w)
    ensures NoCrossings(s, steps)
    decreases |steps|
  {
    if steps != [] {
      assert Base(Alpha(s)) by { RunOkBase(s); }
      hide RunOk, Base, Do, NeverRotates, Same, Moved, MoveOf, Possible, IsCrossing, CrossingMove;
      var mv := MoveOf(s, steps[0]);
      StepRefines(s, steps[0]);
      NeverCrosses(Alpha(s), mv, w);
      if IsCrossing(s, steps[0]) {
        CrossingIsMove(s, steps[0]);
      }
      MoveNeverRotates(Alpha(s), mv, w);
      SameNeverRotates(Moved(Alpha(s), mv), Alpha(Do(s, steps[0])), w);
      RunNeverCrosses(Do(s, steps[0]), steps[1..], w);
    }
  }

  lemma InitNeverRotates(g: Config, w: Who)
    requires if w == Alice then g.aliceInterval == 0 else g.bobInterval == 0
    ensures NeverRotates(Alpha(Init(g)), w)
  {
  }

  // ---------------------------------------------------------------- a relay that accepts nothing

  predicate Blank(fs: seq<MailFrame>) {
    forall f | f in fs :: f.action == Poll
  }

  /** No mail at the relay, and none coming from it. */
  predicate Starved(s: World) {
    && s.quota == 0
    && (forall m | m in s.queues :: s.queues[m] == [])
    && Blank(s.alice.down) && Blank(s.bob.down)
  }

  lemma StepStarves(s: World, step: Step)
    requires Starved(s)
    ensures Starved(Do(s, step)) && !IsCrossing(s, step)
  {
    hide Connect, Send, Receive;
    assert step.DoDeliver? && s.At(step.w).down != [] ==> s.At(step.w).down[0] in s.At(step.w).down;
    assert step.DoDeliver? && s.At(step.w).down != [] ==>
        forall f | f in s.At(step.w).down[1..] :: f in s.At(step.w).down;
  }

  lemma {:induction false} RunStarves(s: World, steps: seq<Step>)
    requires Starved(s)
    ensures NoCrossings(s, steps)
    decreases |steps|
  {
    hide Starved, Do, IsCrossing;
    if steps != [] {
      StepStarves(s, steps[0]);
      RunStarves(Do(s, steps[0]), steps[1..]);
    }
  }

  // ---------------------------------------------------------------- the settings

  predicate Splits(g: Config, steps: seq<Step>) {
    BothIdle(Exec(Init(g), steps)) && !Agreed(Exec(Init(g), steps))
  }

  /**
    * Some run leaves both clients idle on keys that do not agree exactly when the relay accepts at least
    * one frame per mailbox and both clients have key rotation switched on.
    */
  lemma SplitPossibleIff(g: Config)
    requires ValidConfig(g)
    ensures (exists steps :: Splits(g, steps)) <==> g.quota > 0 && g.aliceInterval > 0 && g.bobInterval > 0
  {
    if g.quota > 0 && g.aliceInterval > 0 && g.bobInterval > 0 {
      var steps := AgreementNeedsNoCrossings(g);
      AgreementExactly(g, steps);
      assert Splits(g, steps);
    } else {
      forall steps
        ensures !Splits(g, steps)
      {
        SafeSettings(g, steps);
        if BothIdle(Exec(Init(g), steps)) {
          AgreementExactly(g, steps);
        }
      }
    }
  }

  lemma SafeSettings(g: Config, steps: seq<Step>)
    requires ValidConfig(g) && (g.quota == 0 || g.aliceInterval == 0 || g.bobInterval == 0)
    ensures NoCrossings(Init(g), steps)
  {
    if g.quota == 0 {
      RunStarves(Init(g), steps);
    } else {
      var w := if g.aliceInterval == 0 then Alice else Bob;
      InitOk(g);
      InitNeverRotates(g, w);
      RunNeverCrosses(Init(g), steps, w);
    }
  }
}
