/** Stretches of runs that carry frames from one client's outbox to the other's door. */
module Passage {
  import opened Common
  import opened Crypto
  import opened ClientCore
  import opened LossyMail
  import opened Relay
  import opened Theorems
  import Broker

  // ---------------------------------------------------------------- runs in bulk

  lemma {:induction false} ExecConcat(s: World, p: seq<Step>, q: seq<Step>)
    ensures Exec(s, p + q) == Exec(Exec(s, p), q)
    decreases |p|
  {
    hide Do;
    if p == [] {
      assert p + q == q;
    } else {
      assert (p + q)[1..] == p[1..] + q;
      ExecConcat(Do(s, p[0]), p[1..], q);
    }
  }

  lemma ExecOne(s: World, x: Step)
    ensures Exec(s, [x]) == Do(s, x) && Exec(s, []) == s
  {
    hide Do;
    assert [x][1..] == [];
  }

  lemma ExecTwo(s: World, x: Step, y: Step)
    ensures Exec(s, [x, y]) == Do(Do(s, x), y)
  {
    hide Do;
    ExecOne(s, x);
    ExecOne(Do(s, x), y);
    ExecConcat(s, [x], [y]);
    assert [x] + [y] == [x, y];
  }

  // ---------------------------------------------------------------- one frame, nothing else about

  /** Everything between the two clients is empty, apart from w's outbox and what has been polled. */
  predicate Clear(s: World, w: Who) {
    && s.alice.local.connected && s.bob.local.connected
    && s.At(w).up == [] && s.At(Other(w)).up == [] && s.At(Other(w)).outbox == []
    && s.queues == map[] && s.quota > 0
  }

  /** The oldest frame of w's outbox has reached the relay. */
  lemma Upload(s: World, w: Who) returns (t: World)
    requires RunOk(s) && Clear(s, w) && s.At(w).outbox != [] && IsMail(s.At(w).outbox[0])
    ensures t == Do(Do(s, DoTick(w, false)), DoServe(w))
    ensures RunOk(t) && Same(Alpha(s), Alpha(t)) && t.quota == s.quota
    ensures t.At(w) == s.At(w).(outbox := s.At(w).outbox[1..]) && t.At(Other(w)) == s.At(Other(w))
    ensures t.queues == map[s.At(w).outbox[0].mailbox := [s.At(w).outbox[0]]]
  {
    hide RunOk, Same, Possible, InTransit, LossIndex;
    var u := Do(s, DoTick(w, false));
    t := Do(u, DoServe(w));
    var f := s.At(w).outbox[0];
    assert s.At(w).down + [] == s.At(w).down && [] + [f] == [f];
    StepRefines(s, DoTick(w, false));
    StepRefines(u, DoServe(w));
    SameTrans(Alpha(s), Alpha(u), Alpha(t));
  }

  /** The only frame at the relay has been polled by v. */
  lemma Download(s: World, v: Who, pollOld: bool, f: MailFrame) returns (t: World)
    requires RunOk(s) && s.At(v).local.connected && s.At(v).outbox == [] && s.At(v).up == []
    requires f.mailbox == PollTarget(s.At(v).local.contact, pollOld) && s.queues == map[f.mailbox := [f]]
    ensures t == Do(Do(s, DoTick(v, pollOld)), DoServe(v))
    ensures RunOk(t) && Same(Alpha(s), Alpha(t)) && t.quota == s.quota && t.queues == map[]
    ensures t.At(v) == s.At(v).(down := s.At(v).down + [f]) && t.At(Other(v)) == s.At(Other(v))
  {
    hide RunOk, Same, Possible, InTransit, LossIndex;
    var u := Do(s, DoTick(v, pollOld));
    t := Do(u, DoServe(v));
    assert map[f.mailbox := [f]] - {f.mailbox} == map[];
    StepRefines(s, DoTick(v, pollOld));
    StepRefines(u, DoServe(v));
    SameTrans(Alpha(s), Alpha(u), Alpha(t));
  }

  /** All of w's outbox, addressed to one mailbox the other polls, comes to the other's door. */
  lemma {:induction false} PassAll(s: World, w: Who, pollOld: bool) returns (steps: seq<Step>)
    requires RunOk(s) && Clear(s, w)
    requires forall f | f in s.At(w).outbox :: IsMail(f) && f.mailbox == PollTarget(s.At(Other(w)).local.contact, pollOld)
    ensures var t := Exec(s, steps);
            && RunOk(t) && Same(Alpha(s), Alpha(t)) && t.quota == s.quota && t.queues == map[]
            && t.At(w) == s.At(w).(outbox := [])
            && t.At(Other(w)) == s.At(Other(w)).(down := s.At(Other(w)).down + s.At(w).outbox)
    decreases |s.At(w).outbox|
  {
    hide RunOk, Same, Do, PollTarget, InTransit;
    var out, v := s.At(w).outbox, Other(w);
    if out == [] {
      steps := [];
      ExecOne(s, DoServe(w));
      SameRefl(Alpha(s));
      assert s.At(v).down + [] == s.At(v).down;
    } else {
      assert out[0] in out && forall f | f in out[1..] :: f in out;
      var t := Upload(s, w);
      var u := Download(t, v, pollOld, out[0]);
      var rest := PassAll(u, w, pollOld);
      var first, second := [DoTick(w, false), DoServe(w)], [DoTick(v, pollOld), DoServe(v)];
      steps := first + (second + rest);
      ExecTwo(s, DoTick(w, false), DoServe(w));
      ExecTwo(t, DoTick(v, pollOld), DoServe(v));
      ExecConcat(s, first, second + rest);
      ExecConcat(t, second, rest);
      SameTrans(Alpha(s), Alpha(t), Alpha(u));
      SameTrans(Alpha(s), Alpha(u), Alpha(Exec(u, rest)));
      assert (s.At(v).down + [out[0]]) + out[1..] == s.At(v).down + out;
    }
  }

  // ---------------------------------------------------------------- worlds with all mail at the door

  /** Both clients connected; all mail on its way has been polled and waits to be read. */
  predicate Door(s: World) {
    Clear(s, Alice) && s.alice.outbox == [] && (forall f | f in s.alice.down + s.bob.down :: IsMail(f))
  }

  /** An action of w whose frames the other polls; they come to its door. */
  lemma ActAndPass(s: World, w: Who, step: Step, t: World, e: Effect, pollOld: bool) returns (steps: seq<Step>)
    requires RunOk(t) && t == Do(s, step) && Clear(t, w) && t.At(w).outbox == e.out
    requires Addressed(e, PollTarget(t.At(Other(w)).local.contact, pollOld))
    requires forall f | f in t.alice.down + t.bob.down :: IsMail(f)
    ensures var u := Exec(s, steps);
            && RunOk(u) && Door(u) && Same(Alpha(t), Alpha(u)) && u.quota == t.quota
            && u.At(w) == t.At(w).(outbox := [])
            && u.At(Other(w)) == t.At(Other(w)).(down := t.At(Other(w)).down + e.out)
    ensures steps != [] && steps[0] == step
  {
    hide RunOk, Same, Do, InTransit;
    var rest := PassAll(t, w, pollOld);
    steps := [step] + rest;
    ExecOne(s, step);
    ExecConcat(s, [step], rest);
  }

  /** w sends a text; its frames come to the other's door. */
  lemma DoorSend(s: World, w: Who, data: seq<byte>) returns (steps: seq<Step>)
    requires RunOk(s) && Door(s) && s.At(w).local.contact.txId == PollTarget(s.At(Other(w)).local.contact, false)
    ensures var u := Exec(s, steps);
            var e := Send(s.At(w).local, data);
            && RunOk(u) && Door(u) && u.quota == s.quota
            && Same(Perform(Alpha(s), w, e), Alpha(u))
            && u.At(w) == s.At(w).(local := e.local)
            && u.At(Other(w)) == s.At(Other(w)).(down := s.At(Other(w)).down + e.out)
  {
    hide RunOk, InTransit, Send, Same, Addressed;
    var e := Send(s.At(w).local, data);
    var t := Do(s, DoSend(w, data));
    ActionsAddress(s.At(w).local, data);
    StepRefines(s, DoSend(w, data));
    SendStaysConnected(s.At(w).local, data);
    assert [] + e.out == e.out;
    steps := ActAndPass(s, w, DoSend(w, data), t, e, false);
    SameTrans(Perform(Alpha(s), w, e), Alpha(t), Alpha(Exec(s, steps)));
  }

  lemma SendStaysConnected(p: Local, data: seq<byte>)
    ensures Send(p, data).local.connected == p.connected
  {
  }

  /** Reading the frame at the head of w's door. */
  lemma ReadHead(s: World, w: Who) returns (t: World)
    requires RunOk(s) && s.At(w).down != [] && IsMail(s.At(w).down[0])
    ensures var f := s.At(w).down[0];
            var e := Receive(s.At(w).local, f);
            && t == Do(s, DoDeliver(w)) && RunOk(t) && t.quota == s.quota && t.queues == s.queues
            && t.At(w) == s.At(w).(local := e.local, down := s.At(w).down[1..], outbox := s.At(w).outbox + e.out)
            && t.At(Other(w)) == s.At(Other(w))
            && Possible(Alpha(s), DeliverMove(w, f.mailbox)) && Alpha(s).mail(f.mailbox)[0] == f
            && Same(Deliver(Alpha(s), w, f.mailbox), Alpha(t))
            && Addressed(e, s.At(w).local.contact.txId) && e.local.connected == s.At(w).local.connected
  {
    hide RunOk, InTransit, Receive, Same, Addressed, Deliver, WellAddressed;
    var f := s.At(w).down[0];
    t := Do(s, DoDeliver(w));
    RunOkBase(s);
    ReadRefines(s, w);
    StepRefines(s, DoDeliver(w));
    ReceiveAddresses(s.At(w).local, f);
    ReceiveStaysConnected(s.At(w).local, f);
  }

  lemma ReceiveStaysConnected(p: Local, f: MailFrame)
    ensures Receive(p, f).local.connected == p.connected
  {
    var q := p.(contact := DropOld(p.contact, p.contact.oldRxId == Some(f.mailbox)));
    if f.payload.Sealed? && (f.payload.plain.RotateRequest? || f.payload.plain.RotateAck?) {
      RotationStaysConnected(q, f.payload.plain.key, f.payload.plain.signature);
    }
    hide HandleRotateRequest, HandleRotateAck, UpdateStatus;
  }

  lemma RotationStaysConnected(p: Local, key: PublicKey, s: Signature)
    ensures HandleRotateRequest(p, key, s).local.connected == p.connected
    ensures HandleRotateAck(p, key, s).local.connected == p.connected
  {
  }

  /** w reads the frame at the head of its door, and what it sends comes to the other's door. */
  lemma DoorDeliver(s: World, w: Who, pollOld: bool) returns (steps: seq<Step>)
    requires RunOk(s) && Door(s) && s.At(w).down != []
    requires s.At(w).local.contact.txId == PollTarget(s.At(Other(w)).local.contact, pollOld)
    ensures var u := Exec(s, steps);
            var f := s.At(w).down[0];
            var e := Receive(s.At(w).local, f);
            && RunOk(u) && Door(u) && u.quota == s.quota
            && Possible(Alpha(s), DeliverMove(w, f.mailbox)) && Alpha(s).mail(f.mailbox)[0] == f
            && Same(Deliver(Alpha(s), w, f.mailbox), Alpha(u))
            && u.At(w) == s.At(w).(local := e.local, down := s.At(w).down[1..])
            && u.At(Other(w)) == s.At(Other(w)).(down := s.At(Other(w)).down + e.out)
    ensures steps != [] && steps[0] == DoDeliver(w)
  {
    hide RunOk, InTransit, Receive, Same, Addressed, Deliver, Do;
    var f := s.At(w).down[0];
    var e := Receive(s.At(w).local, f);
    assert f in s.alice.down + s.bob.down;
    var t := ReadHead(s, w);
    assert [] + e.out == e.out;
    assert forall g | g in t.alice.down + t.bob.down :: g in s.alice.down + s.bob.down;
    steps := ActAndPass(s, w, DoDeliver(w), t, e, pollOld);
    SameTrans(Deliver(Alpha(s), w, f.mailbox), Alpha(t), Alpha(Exec(s, steps)));
  }

  /** At a door that holds mail of one mailbox only, all mail of that mailbox is there, in order. */
  lemma DoorHolds(s: World, w: Who, m: MailboxId)
    requires RunOk(s) && Door(s) && SenderOf(s, m) == Other(w)
    requires forall f | f in s.At(w).down :: f.mailbox == m
    ensures InTransit(s, m) == s.At(w).down
  {
    var down := s.At(w).down;
    assert forall f | f in down :: f in s.alice.down + s.bob.down;
    MailAllTo(down, m, m);
    hide RunOk, Mail;
    assert Mail([], m) == [] by { NoMail(m); }
  }

  lemma NoMail(m: MailboxId)
    ensures Mail([], m) == []
  {
  }
}
