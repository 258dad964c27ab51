/**
  * Exactly when the rotation protocol keeps two idle clients in agreement: in the runs in which no
  * client answers a rotation request while its own is outstanding, and in no others.
  */
module Exactness {
  import opened ClientCore
  import opened LossyMail
  import opened Rotation
  import opened Collision
  import opened Relay
  import opened Theorems
  import opened Divergence

  lemma StepKeepsCollided(s: World, step: Step)
    requires RunOk(s) && Collided(Alpha(s))
    ensures Collided(Alpha(Do(s, step)))
  {
    hide RunOk, Base, WellAddressed, Collided, Same, Do, MoveOf, Moved, Possible;
    RunOkBase(s);
    StepRefines(s, step);
    MoveKeepsCollided(Alpha(s), MoveOf(s, step));
    SameCollided(Moved(Alpha(s), MoveOf(s, step)), Alpha(Do(s, step)));
  }

  lemma CrossingMoveCollides(a: Abs, mv: Move, ph: Phase)
    requires Base(a) && PhaseOk(a, ph) && Possible(a, mv) && CrossingMove(a, mv)
    ensures Collided(Moved(a, mv))
  {
    CrossingCollides(a, mv.w, mv.m, ph);
  }

  lemma StepCollides(s: World, step: Step, ph: Phase)
    requires RunOk(s) && PhaseOk(Alpha(s), ph) && IsCrossing(s, step)
    ensures Collided(Alpha(Do(s, step)))
  {
    hide RunOk, Base, WellAddressed, PhaseOk, Collided, Same, IsCrossing, CrossingMove, Do, MoveOf, Moved, Possible;
    RunOkBase(s);
    StepRefines(s, step);
    CrossingIsMove(s, step);
    CrossingMoveCollides(Alpha(s), MoveOf(s, step), ph);
    SameCollided(Moved(Alpha(s), MoveOf(s, step)), Alpha(Do(s, step)));
  }

  lemma {:induction false} RunKeepsCollided(s: World, steps: seq<Step>)
    requires RunOk(s) && Collided(Alpha(s))
    ensures RunOk(Exec(s, steps)) && Collided(Alpha(Exec(s, steps)))
    decreases |steps|
  {
    if steps != [] {
      hide RunOk, Do, Collided;
      StepRefines(s, steps[0]);
      StepKeepsCollided(s, steps[0]);
      RunKeepsCollided(Do(s, steps[0]), steps[1..]);
    }
  }

  /** A run with a crossing ends collided, whatever comes after the crossing. */
  lemma {:induction false} RunCollides(s: World, steps: seq<Step>, ph: Phase)
    requires RunOk(s) && PhaseOk(Alpha(s), ph) && !NoCrossings(s, steps)
    ensures RunOk(Exec(s, steps)) && Collided(Alpha(Exec(s, steps)))
    decreases |steps|
  {
    hide RunOk, Do, PhaseOk, IsCrossing, Next, Collided;
    StepRefines(s, steps[0]);
    if IsCrossing(s, steps[0]) {
      StepCollides(s, steps[0], ph);
      RunKeepsCollided(Do(s, steps[0]), steps[1..]);
    } else {
      StepMovesPhase(s, steps[0], ph);
      RunCollides(Do(s, steps[0]), steps[1..], Next(ph, s, steps[0]));
    }
  }

  predicate BothIdle(s: World) {
    s.alice.local.contact.pfs == Idle && s.bob.local.contact.pfs == Idle
  }

  /** Each sends to the mailbox the other reads, under the key the other keeps for it. */
  predicate Agreed(s: World) {
    var a, b := s.alice.local.contact, s.bob.local.contact;
    && a.txId == b.rxId && a.txKey == b.rxKey
    && a.rxId == b.txId && a.rxKey == b.txKey
  }

  /**
    * In every run that ends with both clients idle, they agree exactly when the run has no crossing;
    * and when it has one, no continuation of the run ever lets either reach the other again.
    */
  lemma AgreementExactly(g: Config, steps: seq<Step>)
    requires ValidConfig(g) && BothIdle(Exec(Init(g), steps))
    ensures Agreed(Exec(Init(g), steps)) <==> NoCrossings(Init(g), steps)
    ensures !NoCrossings(Init(g), steps) ==>
              forall more: seq<Step> ::
                var t := Exec(Exec(Init(g), steps), more);
                && !Listens(t.bob.local.contact, t.alice.local.contact.txId)
                && !Listens(t.alice.local.contact, t.bob.local.contact.txId)
  {
    var s := Exec(Init(g), steps);
    if NoCrossings(Init(g), steps) {
      KeyAgreement(g, steps);
    } else {
      InitOk(g);
      RunCollides(Init(g), steps, Synced);
      RunOkBase(s);
      IdleHaveParted(Alpha(s));
      hide RunOk, Exec, Collided, NoCrossings, Base;
      forall more: seq<Step>
        ensures var t := Exec(s, more);
                && !Listens(t.bob.local.contact, t.alice.local.contact.txId)
                && !Listens(t.alice.local.contact, t.bob.local.contact.txId)
      {
        RunKeepsSplit(s, more);
      }
    }
  }
}
