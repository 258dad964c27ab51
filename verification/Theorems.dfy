/** What holds in whole runs of two clients and the relay, from the static bootstrap keys on. */
module Theorems {
  import opened Common
  import opened Crypto
  import opened ClientCore
  import opened LossyMail
  import opened Rotation
  import opened Intake
  import opened Receipts
  import opened Relay
  import opened Retired
  import Broker

  function Exec(s: World, steps: seq<Step>): World
    decreases |steps|
  {
    if steps == [] then s else Exec(Do(s, steps[0]), steps[1..])
  }

  /** No client answers a rotation request while its own is outstanding. */
  predicate NoCrossings(s: World, steps: seq<Step>)
    decreases |steps|
  {
    steps == [] || (!IsCrossing(s, steps[0]) && NoCrossings(Do(s, steps[0]), steps[1..]))
  }

  /** The two parties, their rotation intervals and the relay's quota. */
  datatype Config = Config(alice: Party, bob: Party, aliceInterval: nat, bobInterval: nat, quota: nat)

  predicate ValidConfig(g: Config) {
    g.alice != g.bob && g.aliceInterval < UINT32_RANGE && g.bobInterval < UINT32_RANGE
  }

  function NewSide(me: Party, them: Party, interval: nat): Side {
    Side(Local(me, interval, false, NewContact(me, them), [], 0), [], [], [])
  }

  function Init(g: Config): World {
    World(NewSide(g.alice, g.bob, g.aliceInterval), NewSide(g.bob, g.alice, g.bobInterval), map[], g.quota)
  }

  // ---------------------------------------------------------------- induction over runs

  lemma InitOk(g: Config)
    requires ValidConfig(g)
    ensures RunOk(Init(g)) && PhaseOk(Alpha(Init(g)), Synced) && ReceiptsOk(Alpha(Init(g)))
  {
    var s := Init(g);
    forall m ensures InTransit(s, m) == [] {
    }
    ScalarMultCommutes(Identity(g.alice), Identity(g.bob));
    hide InTransit;
  }

  lemma {:induction false} RunKeeps(s: World, steps: seq<Step>)
    requires RunOk(s)
    ensures RunOk(Exec(s, steps))
    decreases |steps|
  {
    if steps != [] {
      hide RunOk, Do;
      StepRefines(s, steps[0]);
      RunKeeps(Do(s, steps[0]), steps[1..]);
    }
  }

  function PhaseAfter(ph: Phase, s: World, steps: seq<Step>): Phase
    decreases |steps|
  {
    if steps == [] then ph else PhaseAfter(Next(ph, s, steps[0]), Do(s, steps[0]), steps[1..])
  }

  lemma {:induction false} RunMovesPhase(s: World, steps: seq<Step>, ph: Phase)
    requires RunOk(s) && PhaseOk(Alpha(s), ph) && NoCrossings(s, steps)
    ensures RunOk(Exec(s, steps)) && PhaseOk(Alpha(Exec(s, steps)), PhaseAfter(ph, s, steps))
    decreases |steps|
  {
    if steps != [] {
      hide RunOk, Do, PhaseOk, IsCrossing, Next;
      StepRefines(s, steps[0]);
      StepMovesPhase(s, steps[0], ph);
      RunMovesPhase(Do(s, steps[0]), steps[1..], Next(ph, s, steps[0]));
    }
  }

  // ---------------------------------------------------------------- key agreement

  /**
    * Whenever both clients are idle, each sends to the mailbox the other reads, under the key the
    * other keeps for it.
    */
  lemma KeyAgreement(g: Config, steps: seq<Step>)
    requires ValidConfig(g) && NoCrossings(Init(g), steps)
    ensures var s := Exec(Init(g), steps);
            var a := s.alice.local.contact;
            var b := s.bob.local.contact;
            a.pfs == Idle && b.pfs == Idle ==>
              && a.txId == b.rxId && a.txKey == b.rxKey
              && a.rxId == b.txId && a.rxKey == b.txKey
              && a.complete == b.complete
  {
    InitOk(g);
    RunMovesPhase(Init(g), steps, Synced);
    var s := Exec(Init(g), steps);
    var ph := PhaseAfter(Synced, Init(g), steps);
    assert LocalOk(Alpha(s), Alice) && LocalOk(Alpha(s), Bob);
  }

  /** The mailbox w sends to is one the other side reads now, or the one its awaited answer makes it adopt. */
  predicate Covered(w: ContactState, v: ContactState) {
    || Listens(v, w.txId)
    || (v.pending.Some? && w.txId == Derive(v.pending.value, PublicKey(Sender(w.txId))).rxId)
  }

  /** Once both clients have finished the initial handshake, neither sends to an abandoned mailbox. */
  lemma NeverAbandoned(g: Config, steps: seq<Step>)
    requires ValidConfig(g) && NoCrossings(Init(g), steps)
    ensures var s := Exec(Init(g), steps);
            var a := s.alice.local.contact;
            var b := s.bob.local.contact;
            a.complete && b.complete ==> Covered(a, b) && Covered(b, a)
  {
    InitOk(g);
    RunMovesPhase(Init(g), steps, Synced);
    var s := Exec(Init(g), steps);
    var ph := PhaseAfter(Synced, Init(g), steps);
    assert LocalOk(Alpha(s), Alice) && LocalOk(Alpha(s), Bob);
  }

  /** How often w moved to new keys in a run. */
  function Rotations(s: World, steps: seq<Step>, w: Who): nat
    decreases |steps|
  {
    if steps == [] then 0
    else Turn(s, steps[0], w) + Rotations(Do(s, steps[0]), steps[1..], w)
  }

  function Turn(s: World, step: Step, w: Who): nat {
    if step.w == w && NoticeOf(s, step) in {RotationAnswered, RotationCompleted} then 1 else 0
  }

  /** How far w is ahead of the other side in a phase. */
  function Lead(ph: Phase, w: Who): int {
    if ph == Synced then 0 else if ph.w == w then -1 else 1
  }

  lemma {:induction false} RotationsFollowPhase(s: World, steps: seq<Step>, ph: Phase)
    requires RunOk(s) && PhaseOk(Alpha(s), ph) && NoCrossings(s, steps)
    ensures Lead(ph, Alice) + Rotations(s, steps, Alice) - Rotations(s, steps, Bob)
         == Lead(PhaseAfter(ph, s, steps), Alice)
    decreases |steps|
  {
    if steps != [] {
      hide RunOk, Do, PhaseOk, IsCrossing, Turn, Lead, Next;
      StepRefines(s, steps[0]);
      StepMovesPhase(s, steps[0], ph);
      TurnFollowsPhase(s, steps[0], ph);
      RotationsFollowPhase(Do(s, steps[0]), steps[1..], Next(ph, s, steps[0]));
    }
  }

  lemma TurnFollowsPhase(s: World, step: Step, ph: Phase)
    requires RunOk(s) && PhaseOk(Alpha(s), ph) && !IsCrossing(s, step)
    ensures Lead(ph, Alice) + Turn(s, step, Alice) - Turn(s, step, Bob) == Lead(Next(ph, s, step), Alice)
  {
    hide RunOk, PhaseOk, IsCrossing, NoticeOf, InTransit, MoveOf;
    StepFindsPhase(s, step, ph);
  }

  /** The clients are never more than one epoch apart, and the one behind awaits a rotation answer. */
  lemma OneEpochApart(g: Config, steps: seq<Step>)
    requires ValidConfig(g) && NoCrossings(Init(g), steps)
    ensures var s := Exec(Init(g), steps);
            var a := Rotations(Init(g), steps, Alice);
            var b := Rotations(Init(g), steps, Bob);
            && -1 <= a - b <= 1
            && (a < b ==> s.alice.local.contact.pfs == RotationRequested)
            && (b < a ==> s.bob.local.contact.pfs == RotationRequested)
  {
    InitOk(g);
    RunMovesPhase(Init(g), steps, Synced);
    RotationsFollowPhase(Init(g), steps, Synced);
    var s := Exec(Init(g), steps);
    assert LocalOk(Alpha(s), Alice) && LocalOk(Alpha(s), Bob);
  }

  // ---------------------------------------------------------------- nothing lost by the initiator

  lemma {:induction false} RunKeepsDead(s: World, steps: seq<Step>, m: MailboxId)
    requires RunOk(s) && Dead(Alpha(s), m)
    ensures RunOk(Exec(s, steps)) && Dead(Alpha(Exec(s, steps)), m)
    decreases |steps|
  {
    if steps != [] {
      hide RunOk, Do, Dead;
      StepRefines(s, steps[0]);
      StepKeepsDead(s, steps[0], m);
      RunKeepsDead(Do(s, steps[0]), steps[1..], m);
    }
  }

  /** No frame for m waits anywhere between its sender and its reader. */
  predicate NoneAnywhere(s: World, m: MailboxId) {
    var w := SenderOf(s, m);
    && (forall f | f in s.At(w).outbox :: !(IsMail(f) && f.mailbox == m))
    && (forall f | f in s.At(w).up :: !(IsMail(f) && f.mailbox == m))
    && (forall f | f in s.At(Other(w)).down :: !(IsMail(f) && f.mailbox == m))
    && Broker.QueueOf(s.queues, m) == []
  }

  lemma {:induction false} MailHasAll(fs: seq<MailFrame>, m: MailboxId)
    ensures forall f | f in fs && IsMail(f) && f.mailbox == m :: f in Mail(fs, m)
  {
    if fs != [] {
      MailHasAll(fs[1..], m);
    }
  }

  lemma EmptyTransit(s: World, m: MailboxId)
    requires InTransit(s, m) == []
    ensures NoneAnywhere(s, m)
  {
    var w := SenderOf(s, m);
    MailHasAll(s.At(w).outbox, m);
    MailHasAll(s.At(w).up, m);
    MailHasAll(s.At(Other(w)).down, m);
  }

  /**
    * When a client accepts the answer to its rotation request it stops reading a mailbox. At that
    * moment, and in every continuation of the run, no frame for that mailbox exists anywhere: not in
    * the other client's outbox, not on a connection, not at the relay.
    */
  lemma InitiatorLosesNothing(g: Config, steps: seq<Step>, w: Who, more: seq<Step>)
    requires ValidConfig(g) && NoCrossings(Init(g), steps)
    requires var s := Exec(Init(g), steps);
             !IsCrossing(s, DoDeliver(w)) && NoticeOf(s, DoDeliver(w)) == RotationCompleted
    ensures var s := Exec(Init(g), steps);
            NoneAnywhere(Exec(Do(s, DoDeliver(w)), more), s.At(w).local.contact.rxId)
  {
    hide RunOk, PhaseOk, Dead, IsCrossing, NoticeOf, Do, ReceiptsOk, Init;
    InitOk(g);
    RunMovesPhase(Init(g), steps, Synced);
    var s := Exec(Init(g), steps);
    var m := s.At(w).local.contact.rxId;
    CompletionRetires(s, w, PhaseAfter(Synced, Init(g), steps));
    StepRefines(s, DoDeliver(w));
    RunKeepsDead(Do(s, DoDeliver(w)), more, m);
    DeadIsEmpty(Exec(Do(s, DoDeliver(w)), more), m);
    EmptyTransit(Exec(Do(s, DoDeliver(w)), more), m);
  }

  lemma DeadIsEmpty(s: World, m: MailboxId)
    requires Dead(Alpha(s), m)
    ensures InTransit(s, m) == []
  {
  }

  // ---------------------------------------------------------------- every run, crossings included

  /** A frame somewhere in the pipes of a side or at the relay. */
  predicate Somewhere(s: World, f: MailFrame) {
    || f in s.alice.outbox || f in s.alice.up || f in s.alice.down
    || f in s.bob.outbox || f in s.bob.up || f in s.bob.down
    || f in Broker.QueueOf(s.queues, f.mailbox)
  }

  lemma SomewhereInTransit(s: World, f: MailFrame)
    requires WellAddressed(s) && Somewhere(s, f) && IsMail(f)
    ensures f in InTransit(s, f.mailbox)
  {
    var m := f.mailbox;
    MailHasAll(s.alice.outbox, m);
    MailHasAll(s.alice.up, m);
    MailHasAll(s.alice.down, m);
    MailHasAll(s.bob.outbox, m);
    MailHasAll(s.bob.up, m);
    MailHasAll(s.bob.down, m);
    hide Mail, Broker.Sound;
  }

  lemma SomewhereOk(s: World, f: MailFrame)
    requires RunOk(s) && Somewhere(s, f) && IsMail(f)
    ensures TransitOk(Alpha(s), f.mailbox, f)
  {
    SomewhereInTransit(s, f);
    var k :| 0 <= k < |InTransit(s, f.mailbox)| && InTransit(s, f.mailbox)[k] == f;
    assert Alpha(s).mail(f.mailbox)[k] == f;
  }

  /** In a contact, each mailbox id and the key kept with it come from one derivation. */
  predicate Bound(c: ContactState) {
    && c.txKey.digest == c.txId.digest
    && c.rxKey.digest == c.rxId.digest
    && c.oldRxId.Some? == c.oldRxKey.Some?
    && (c.oldRxId.Some? ==> c.oldRxKey.value.digest == c.oldRxId.value.digest)
    && (c.pfs == RotationRequested <==> c.pending.Some?)
    && Sender(c.rxId) == Receiver(c.txId) && Receiver(c.rxId) == Sender(c.txId)
  }

  /**
    * In every run: mailbox ids and keys stay bound to each other, every frame anywhere is sealed under
    * the key of its mailbox, and no delivery reports a frame as malformed, unexpected or badly signed.
    */
  lemma BindingAlways(g: Config, steps: seq<Step>, step: Step)
    requires ValidConfig(g)
    ensures var s := Exec(Init(g), steps);
            && Bound(s.alice.local.contact) && Bound(s.bob.local.contact)
            && (forall f | Somewhere(s, f) && IsMail(f) ::
                  f.payload.Sealed? && f.payload.key.digest == f.mailbox.digest)
            && !Rejected(NoticeOf(s, step))
  {
    InitOk(g);
    RunKeeps(Init(g), steps);
    var s := Exec(Init(g), steps);
    assert LocalOk(Alpha(s), Alice) && LocalOk(Alpha(s), Bob);
    forall f | Somewhere(s, f) && IsMail(f)
      ensures f.payload.Sealed? && f.payload.key.digest == f.mailbox.digest
    {
      SomewhereOk(s, f);
    }
    NeverRejects(s, step);
  }

  lemma NeverRejects(s: World, step: Step)
    requires RunOk(s)
    ensures !Rejected(NoticeOf(s, step))
  {
    if step.DoDeliver? && s.At(step.w).down != [] {
      if IsMail(s.At(step.w).down[0]) {
        hide RunOk, InTransit, Receive, DeliverNext, Same;
        DeliverRefines(s, step.w);
      } else {
        assert s.At(step.w).down[0] in s.At(step.w).down;
      }
    }
  }

  /**
    * In every run: only the request of the party with the smaller key and the other's answer ever travel
    * under the bootstrap keys. In particular no text and no receipt does.
    */
  lemma BootstrapCarriesHandshakeOnly(g: Config, steps: seq<Step>, f: MailFrame)
    requires ValidConfig(g)
    requires Somewhere(Exec(Init(g), steps), f) && IsMail(f) && Sender(f.mailbox).Identity?
    ensures var them := if Sender(f.mailbox).party == g.alice then g.bob else g.alice;
            && f.payload.Sealed?
            && (|| (f.payload.plain.RotateRequest? && SmallerKey(Sender(f.mailbox).party, them))
                || (f.payload.plain.RotateAck? && !SmallerKey(Sender(f.mailbox).party, them)))
  {
    InitiatorIsSmaller(g.alice, g.bob);
    InitiatorIsSmaller(g.bob, g.alice);
    hide SmallerKey;
    InitOk(g);
    RunKeeps(Init(g), steps);
    SomewhereOk(Exec(Init(g), steps), f);
    PartiesFixed(Init(g), steps);
  }

  lemma {:induction false} PartiesFixed(s: World, steps: seq<Step>)
    ensures Exec(s, steps).alice.local.me == s.alice.local.me
    ensures Exec(s, steps).bob.local.me == s.bob.local.me
    decreases |steps|
  {
    if steps != [] {
      PartiesKept(s, steps[0]);
      hide Do;
      PartiesFixed(Do(s, steps[0]), steps[1..]);
    }
  }

  lemma PartiesKept(s: World, step: Step)
    ensures Do(s, step).alice.local.me == s.alice.local.me
    ensures Do(s, step).bob.local.me == s.bob.local.me
  {
    var side := s.At(step.w);
    var f := if side.down != [] then side.down[0] else Frame(Poll, side.local.contact.rxId, Zeros);
    HandlersAddress(side.local, if step.DoSend? then step.data else [], f);
    hide Send, Receive, Connect, Addressed, Broker.Serve;
  }

  /** In every run a rotation is due at most once per interval: an idle client's counter stays within it. */
  lemma CounterBounded(g: Config, steps: seq<Step>, w: Who)
    requires ValidConfig(g)
    ensures var p := Exec(Init(g), steps).At(w).local;
            p.contact.pfs == Idle && p.interval > 0 ==> p.contact.counter <= p.interval
  {
    InitOk(g);
    RunKeeps(Init(g), steps);
    assert LocalOk(Alpha(Exec(Init(g), steps)), w);
  }

  // ---------------------------------------------------------------- receipts

  lemma StepKeepsReceipts(s: World, step: Step)
    requires RunOk(s) && ReceiptsOk(Alpha(s))
    ensures ReceiptsOk(Alpha(Do(s, step)))
  {
    hide RunOk, Base, WellAddressed, Same, Do, MoveOf, Moved, Possible, ReceiptsOk;
    RunOkBase(s);
    StepRefines(s, step);
    MoveKeepsReceipts(Alpha(s), MoveOf(s, step));
    SameReceipts(Moved(Alpha(s), MoveOf(s, step)), Alpha(Do(s, step)));
  }

  lemma {:induction false} RunKeepsReceipts(s: World, steps: seq<Step>)
    requires RunOk(s) && ReceiptsOk(Alpha(s))
    ensures RunOk(Exec(s, steps)) && ReceiptsOk(Alpha(Exec(s, steps)))
    decreases |steps|
  {
    if steps != [] {
      hide RunOk, Do, ReceiptsOk;
      StepRefines(s, steps[0]);
      StepKeepsReceipts(s, steps[0]);
      RunKeepsReceipts(Do(s, steps[0]), steps[1..]);
    }
  }

  /**
    * In every run: a sent text marked delivered has been received by the other side, and a sent text
    * whose id occurs earlier in the same history stays pending for good.
    */
  lemma ReceiptsSound(g: Config, steps: seq<Step>, w: Who)
    requires ValidConfig(g)
    ensures var s := Exec(Init(g), steps);
            && MarksTrue(s.At(w).local.history, s.At(Other(w)).local.history)
            && RepeatsPending(s.At(w).local.history)
  {
    InitOk(g);
    RunKeepsReceipts(Init(g), steps);
  }
}
