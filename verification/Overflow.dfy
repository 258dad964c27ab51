/** A mailbox that is full refuses a rotation request, and the rotation never comes to an end. */
module Overflow {
  import opened Common
  import opened Crypto
  import opened ClientCore
  import opened LossyMail
  import opened Rotation
  import opened Relay
  import opened Theorems
  import opened Passage
  import opened Chat
  import opened Stalls
  import Broker

  /** w has sent as many texts as its counter says; the relay has kept the first of them. */
  ghost predicate Filling(s: World, w: Who) {
    var side := s.At(w);
    var c := side.local.contact;
    && RunOk(s) && side.outbox == [] && side.up == [] && side.local.connected
    && c.complete && c.pfs == Idle && s.quota > 0
    && c.counter <= side.local.interval < UINT32_RANGE
    && |Broker.QueueOf(s.queues, c.txId)| == if c.counter < s.quota then c.counter else s.quota
  }

  /** What w's next frame in line meets at the relay. */
  lemma PushNext(s: World, w: Who) returns (t: World)
    requires RunOk(s) && s.At(w).up == [] && s.At(w).outbox != [] && s.At(w).local.connected && IsMail(s.At(w).outbox[0])
    ensures t == Do(Do(s, DoTick(w, false)), DoServe(w)) && RunOk(t) && t.quota == s.quota
    ensures t.At(w) == s.At(w).(outbox := s.At(w).outbox[1..]) && t.At(Other(w)) == s.At(Other(w))
    ensures t.queues == Broker.PushTo(s.queues, s.quota, s.At(w).outbox[0])
  {
    hide RunOk, Possible, InTransit, LossIndex, Same, Broker.PushTo;
    var u := Do(s, DoTick(w, false));
    t := Do(u, DoServe(w));
    assert [] + [s.At(w).outbox[0]] == [s.At(w).outbox[0]] && s.At(w).down + [] == s.At(w).down;
    StepRefines(s, DoTick(w, false));
    StepRefines(u, DoServe(w));
  }

  /** One more text, kept or refused. */
  lemma FillOne(s: World, w: Who, data: seq<byte>) returns (t: World, steps: seq<Step>)
    requires Filling(s, w) && s.At(w).local.contact.counter < s.At(w).local.interval
    ensures t == Exec(s, steps) && Filling(t, w) && t.quota == s.quota
    ensures t.At(w).local.interval == s.At(w).local.interval
    ensures t.At(w).local.contact.counter == s.At(w).local.contact.counter + 1
  {
    hide RunOk, InTransit, Possible, Same;
    var c := s.At(w).local.contact;
    var u := Do(s, DoSend(w, data));
    StepRefines(s, DoSend(w, data));
    assert u.At(w).outbox == [SealTo(Push, c, Text(data))];
    t := PushNext(u, w);
    steps := [DoSend(w, data)] + [DoTick(w, false), DoServe(w)];
    ExecOne(s, DoSend(w, data));
    ExecTwo(u, DoTick(w, false), DoServe(w));
    ExecConcat(s, [DoSend(w, data)], [DoTick(w, false), DoServe(w)]);
    hide Exec, Do;
  }

  lemma {:induction false} FillRun(s: World, w: Who, data: seq<byte>) returns (steps: seq<Step>)
    requires Filling(s, w)
    ensures var t := Exec(s, steps);
            && Filling(t, w) && t.quota == s.quota && t.At(w).local.interval == s.At(w).local.interval
            && t.At(w).local.contact.counter == t.At(w).local.interval
    decreases s.At(w).local.interval - s.At(w).local.contact.counter
  {
    hide Exec, RunOk;
    if s.At(w).local.contact.counter == s.At(w).local.interval {
      steps := [];
      ExecOne(s, DoServe(w));
    } else {
      hide Filling;
      var t, p := FillOne(s, w, data);
      var rest := FillRun(t, w, data);
      steps := p + rest;
      ExecConcat(s, p, rest);
    }
  }

  /** The request meets a full queue. */
  lemma RequestLost(s: World, w: Who, data: seq<byte>) returns (steps: seq<Step>)
    requires Filling(s, w) && 0 < s.quota <= s.At(w).local.interval == s.At(w).local.contact.counter
    ensures var t := Exec(s, steps);
            RunOk(t) && Stuck(Alpha(t), w)
  {
    hide RunOk, InTransit, Possible, Same;
    var u := Do(s, DoSend(w, data));
    StepRefines(s, DoSend(w, data));
    var v := Do(u, DoTick(w, false));
    StepRefines(u, DoTick(w, false));
    var request := u.At(w).outbox[0];
    assert v.At(w).up == [request] by { assert [] + [request] == [request]; }
    var t := Do(v, DoServe(w));
    assert LostAtQuota(v, w);
    ExecOne(s, DoSend(w, data));
    ExecTwo(u, DoTick(w, false), DoServe(w));
    steps := [DoSend(w, data)] + [DoTick(w, false), DoServe(w)];
    ExecConcat(s, [DoSend(w, data)], [DoTick(w, false), DoServe(w)]);
    assert v.At(w).local.contact.pfs == RotationRequested && v.At(w).local.contact.txId == request.mailbox;
    hide Exec, Do, LostAtQuota;
    LostForgotten(v, w);
  }

  /** Once its request is refused, a client is stuck. */
  lemma LostForgotten(s: World, w: Who)
    requires RunOk(s) && LostAtQuota(s, w) && |s.At(w).up| == 1 && s.At(w).local.contact.pfs == RotationRequested
    requires var f := s.At(w).up[0];
             f.payload.Sealed? && f.payload.plain.RotateRequest? && f.mailbox == s.At(w).local.contact.txId
    ensures var t := Do(s, DoServe(w));
            RunOk(t) && Stuck(Alpha(t), w)
  {
    var t := Do(s, DoServe(w));
    var f, a := s.At(w).up[0], Alpha(s);
    assert WellAddressed(s) && Base(a) by { RunOkBase(s); }
    SenderIs(s, w);
    LossIndexOk(s, w);
    var i := LossIndex(s, w);
    assert InTransit(s, f.mailbox)[i] == f by { LostFrame(s, w); }
    StepRefines(s, DoServe(w));
    hide RunOk, InTransit, Do, LossIndex, LostAtQuota, WellAddressed;
    TakeLeavesNone(a, f.mailbox, i, w);
    hide Base;
    SameStuck(Take(a, f.mailbox, i), Alpha(t), w);
  }

  lemma TakeLeavesNone(a: Abs, m: MailboxId, i: nat, w: Who)
    requires Base(a) && i < |a.mail(m)| && IsToken(a, w, a.mail(m)[i]) && a.At(w).contact.pfs == RotationRequested
    ensures Stuck(Take(a, m, i), w)
  {
    TakeKeepsBase(a, m, i);
    hide Base;
  }

  lemma LostFrame(s: World, w: Who)
    requires WellAddressed(s) && LostAtQuota(s, w)
    ensures var m := s.At(w).up[0].mailbox;
            LossIndex(s, w) < |InTransit(s, m)| && InTransit(s, m)[LossIndex(s, w)] == s.At(w).up[0]
  {
    var m := s.At(w).up[0].mailbox;
    PushFacts(s, w, m);
    PipelineLoses(Mail(s.At(Other(w)).down, m), Broker.QueueOf(s.queues, m), s.At(w).up[0], Mail(s.At(w).up[1..], m), Mail(s.At(w).outbox, m));
    hide WellAddressed, Mail, ServeNext, Broker.QueueOf, Pipeline;
  }

  /**
    * Whenever a mailbox holds no more frames than a client sends texts between rotations, there is a run after
    * which that client waits for a rotation answer in every continuation.
    */
  lemma OverflowStalls(g: Config, w: Who, data: seq<byte>) returns (steps: seq<Step>)
    requires ValidConfig(g) && 0 < g.quota <= if w == Alice then g.aliceInterval else g.bobInterval
    ensures forall more: seq<Step> ::
              Exec(Exec(Init(g), steps), more).At(w).local.contact.pfs == RotationRequested
  {
    hide RunOk, Door, Quiescent, Exec, Init, Filling, Stuck, InTransit;
    var p := HandshakeRun(g);
    var s := Exec(Init(g), p);
    assert s.At(w).local.interval == if w == Alice then g.aliceInterval else g.bobInterval;
    assert s.At(w).local.contact.counter == 0;
    assert Filling(s, w) by { QuiescentFilling(s, w); }
    var q := FillRun(s, w, data);
    var t := Exec(s, q);
    var r := RequestLost(t, w, data);
    steps := p + (q + r);
    ExecConcat(Init(g), p, q + r);
    ExecConcat(s, q, r);
    forall more: seq<Step>
      ensures Exec(Exec(Init(g), steps), more).At(w).local.contact.pfs == RotationRequested
    {
      RunKeepsStuck(Exec(t, r), more, w);
    }
  }

  lemma QuiescentFilling(s: World, w: Who)
    requires RunOk(s) && Door(s) && Quiescent(Alpha(s)) && s.At(w).local.contact.counter == 0
    requires s.At(w).local.interval < UINT32_RANGE
    ensures Filling(s, w)
  {
    hide RunOk, Base, InTransit;
    assert Alpha(s).At(w).contact.complete;
  }
}
