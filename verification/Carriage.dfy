/** From any state of a run, the mail of a mailbox can be carried to the door of its reader. */
module Carriage {
  import opened Common
  import opened Crypto
  import opened ClientCore
  import opened LossyMail
  import opened Relay
  import opened Theorems
  import opened Passage
  import opened Lines
  import Broker

  /** Clients unchanged, no new mail, and nothing lost from m nor from the mailbox its sender now uses. */
  ghost predicate Carried(s: World, t: World, x: Who, m: MailboxId) {
    var tx := s.At(Other(x)).local.contact.txId;
    && t.quota == s.quota && t.alice.local == s.alice.local && t.bob.local == s.bob.local
    && RunOk(t) && LinesOk(t)
    && InTransit(t, m) == InTransit(s, m) && InTransit(t, tx) == InTransit(s, tx)
    && forall n, f | f in InTransit(t, n) :: f in InTransit(s, n)
  }

  lemma CarriedTrans(s: World, t: World, u: World, x: Who, m: MailboxId)
    requires Carried(s, t, x, m) && Carried(t, u, x, m)
    ensures Carried(s, u, x, m)
  {
    hide RunOk, LinesOk, InTransit;
  }

  lemma CarriedSelf(s: World, x: Who, m: MailboxId)
    requires RunOk(s) && LinesOk(s)
    ensures Carried(s, s, x, m)
  {
    hide RunOk, LinesOk, InTransit;
  }

  /** The mailbox of the frame lost in a step is another one. */
  predicate Spares(s: World, y: Who, m: MailboxId, tx: MailboxId) {
    LostAtQuota(s, y) ==> s.At(y).up[0].mailbox != m && s.At(y).up[0].mailbox != tx
  }

  lemma ServeCarries(s: World, y: Who, x: Who, m: MailboxId)
    requires RunOk(s) && LinesOk(s) && Spares(s, y, m, s.At(Other(x)).local.contact.txId)
    ensures Carried(s, Do(s, DoServe(y)), x, m)
  {
    hide RunOk, LinesOk, InTransit, ServeNext, LossIndex, LostAtQuota;
    var t := Do(s, DoServe(y));
    StepRefines(s, DoServe(y));
    StepKeepsLines(s, DoServe(y));
    ServeKeepsQuota(s, y);
    var a, b := Moved(Alpha(s), MoveOf(s, DoServe(y))), Alpha(t);
    assert forall n :: b.mail(n) == a.mail(n);
    assert forall n :: b.mail(n) == InTransit(t, n);
  }

  lemma ServeKeepsQuota(s: World, y: Who)
    ensures ServeNext(s, y).quota == s.quota
  {
    hide Broker.Serve;
  }

  lemma TickCarries(s: World, y: Who, pollOld: bool, x: Who, m: MailboxId)
    requires RunOk(s) && LinesOk(s)
    ensures Carried(s, Do(s, DoTick(y, pollOld)), x, m)
  {
    hide RunOk, LinesOk, InTransit;
    var t := Do(s, DoTick(y, pollOld));
    StepRefines(s, DoTick(y, pollOld));
    StepKeepsLines(s, DoTick(y, pollOld));
    assert forall n :: Alpha(t).mail(n) == InTransit(t, n);
  }

  // ---------------------------------------------------------------- the reader's own frames

  /** What the reader's own frames do to the relay never touches mail for the reader. */
  lemma ReaderSpares(s: World, x: Who, m: MailboxId)
    requires RunOk(s) && SenderOf(s, m) == Other(x)
    ensures Spares(s, x, m, s.At(Other(x)).local.contact.txId)
  {
    SenderIs(s, Other(x));
    assert WellAddressed(s) by { RunOkBase(s); }
    hide RunOk, Broker.Sound, Broker.Accepts;
    if s.At(x).up != [] {
      assert s.At(x).up[0] in s.At(x).up;
    }
  }

  lemma {:induction false} EmptyUp(s: World, x: Who, m: MailboxId) returns (steps: seq<Step>)
    requires RunOk(s) && LinesOk(s) && SenderOf(s, m) == Other(x)
    ensures var t := Exec(s, steps);
            && Carried(s, t, x, m)
            && t.At(x).up == [] && t.At(x).outbox == s.At(x).outbox && t.At(Other(x)) == s.At(Other(x))
    decreases |s.At(x).up|
  {
    hide RunOk, LinesOk, Carried, Broker.Serve;
    if s.At(x).up == [] {
      steps := [];
      CarriedSelf(s, x, m);
    } else {
      ReaderSpares(s, x, m);
      ServeCarries(s, x, x, m);
      var t := Do(s, DoServe(x));
      assert RunOk(t) && LinesOk(t) by { CarriedOk(s, t, x, m); }
      var rest := EmptyUp(t, x, m);
      steps := [DoServe(x)] + rest;
      ExecOne(s, DoServe(x));
      ExecConcat(s, [DoServe(x)], rest);
      hide Exec;
      CarriedTrans(s, t, Exec(t, rest), x, m);
    }
  }

  lemma CarriedOk(s: World, t: World, x: Who, m: MailboxId)
    requires Carried(s, t, x, m)
    ensures RunOk(t) && LinesOk(t) && t.quota == s.quota
    ensures forall w :: t.At(w).local == s.At(w).local
    ensures forall n :: SenderOf(t, n) == SenderOf(s, n)
  {
    hide RunOk, LinesOk, InTransit;
  }

  /** x has nothing left to send and has read every answer the relay owes it. */
  predicate Waits(s: World, x: Who) {
    s.At(x).up == [] && s.At(x).outbox == []
  }

  lemma {:induction false} EmptyReader(s: World, x: Who, m: MailboxId) returns (steps: seq<Step>)
    requires RunOk(s) && LinesOk(s) && SenderOf(s, m) == Other(x) && s.At(x).local.connected
    ensures var t := Exec(s, steps);
            Carried(s, t, x, m) && Waits(t, x) && t.At(Other(x)) == s.At(Other(x))
    decreases |s.At(x).outbox|
  {
    hide RunOk, LinesOk, Carried, ServeNext, Exec;
    var p := EmptyUp(s, x, m);
    var t := Exec(s, p);
    CarriedOk(s, t, x, m);
    if t.At(x).outbox == [] {
      steps := p;
    } else {
      TickCarries(t, x, false, x, m);
      var u := Do(t, DoTick(x, false));
      CarriedOk(t, u, x, m);
      var rest := EmptyReader(u, x, m);
      steps := p + ([DoTick(x, false)] + rest);
      ExecOne(t, DoTick(x, false));
      ExecConcat(s, p, [DoTick(x, false)] + rest);
      ExecConcat(t, [DoTick(x, false)], rest);
      CarriedTrans(s, t, u, x, m);
      CarriedTrans(s, u, Exec(u, rest), x, m);
    }
  }

  // ---------------------------------------------------------------- the relay's queue

  /** One poll moves the oldest frame of the queue to the reader's door. */
  lemma Fetch(s: World, x: Who, m: MailboxId, pollOld: bool) returns (t: World)
    requires RunOk(s) && LinesOk(s) && Waits(s, x) && s.At(x).local.connected
    requires m == PollTarget(s.At(x).local.contact, pollOld) && Broker.QueueOf(s.queues, m) != []
    ensures t == Do(Do(s, DoTick(x, pollOld)), DoServe(x))
    ensures Carried(s, t, x, m) && Waits(t, x) && t.At(Other(x)) == s.At(Other(x))
    ensures Broker.QueueOf(t.queues, m) == Broker.QueueOf(s.queues, m)[1..]
  {
    hide RunOk, LinesOk, Carried;
    var u := Do(s, DoTick(x, pollOld));
    t := Do(u, DoServe(x));
    TickCarries(s, x, pollOld, x, m);
    CarriedOk(s, u, x, m);
    assert u.At(x).up == [Frame(Poll, m, Zeros)];
    ServeCarries(u, x, x, m);
    CarriedTrans(s, u, t, x, m);
  }

  lemma {:induction false} FetchAll(s: World, x: Who, m: MailboxId, pollOld: bool) returns (steps: seq<Step>)
    requires RunOk(s) && LinesOk(s) && Waits(s, x) && s.At(x).local.connected
    requires m == PollTarget(s.At(x).local.contact, pollOld)
    ensures var t := Exec(s, steps);
            && Carried(s, t, x, m) && Waits(t, x) && t.At(Other(x)) == s.At(Other(x))
            && Broker.QueueOf(t.queues, m) == []
    decreases |Broker.QueueOf(s.queues, m)|
  {
    hide RunOk, LinesOk, Carried, Do, Waits, Broker.QueueOf, PollTarget;
    if Broker.QueueOf(s.queues, m) == [] {
      steps := [];
      CarriedSelf(s, x, m);
    } else {
      var t := Fetch(s, x, m, pollOld);
      CarriedOk(s, t, x, m);
      var rest := FetchAll(t, x, m, pollOld);
      var first := [DoTick(x, pollOld), DoServe(x)];
      steps := first + rest;
      ExecTwo(s, DoTick(x, pollOld), DoServe(x));
      ExecConcat(s, first, rest);
      hide Exec;
      CarriedTrans(s, t, Exec(t, rest), x, m);
    }
  }

  // ---------------------------------------------------------------- the sender's frames

  /** Mail for m that has not reached the relay. */
  function Unsent(s: World, v: Who, m: MailboxId): seq<MailFrame> {
    Mail(s.At(v).up, m) + Mail(s.At(v).outbox, m)
  }

  /** While mail for m waits behind it, the frame next in line is not refused where it matters. */
  lemma SenderSpares(s: World, v: Who, m: MailboxId)
    requires RunOk(s) && LineOk(s, v) && s.quota > 0 && s.At(v).up != []
    requires Broker.QueueOf(s.queues, m) == [] && Unsent(s, v, m) != []
    ensures Spares(s, v, m, s.At(v).local.contact.txId)
  {
    hide RunOk, Asked, Unopened;
    var side, tx := s.At(v), s.At(v).local.contact.txId;
    if LostAtQuota(s, v) {
      assert side.up[0].mailbox != m;
      assert Mail(side.up, m) == Mail(side.up[1..], m) by { MailOfHead(side.up, m); }
      var f := MailBehind(side.up[1..], side.outbox, m);
      var line := Line(s, v);
      assert line[0] == side.up[0] && line[1..] == side.up[1..] + side.outbox;
      var j :| 0 <= j < |line[1..]| && line[1..][j] == f;
      assert line[j + 1] == f;
      hide Mail;
    }
  }

  lemma {:induction false} MailBehind(up: seq<MailFrame>, outbox: seq<MailFrame>, m: MailboxId) returns (f: MailFrame)
    requires Mail(up, m) + Mail(outbox, m) != []
    ensures f in up + outbox && IsMail(f) && f.mailbox == m
  {
    MailOfConcat(up, outbox, m);
    f := MailIsThere(up + outbox, m);
  }

  lemma {:induction false} MailIsThere(fs: seq<MailFrame>, m: MailboxId) returns (f: MailFrame)
    requires Mail(fs, m) != []
    ensures f in fs && IsMail(f) && f.mailbox == m
  {
    if IsMail(fs[0]) && fs[0].mailbox == m {
      f := fs[0];
    } else {
      f := MailIsThere(fs[1..], m);
    }
  }

  /** Everything v has sent to m comes to the reader's door. */
  lemma {:induction false} PassSender(s: World, x: Who, m: MailboxId, pollOld: bool) returns (steps: seq<Step>)
    requires RunOk(s) && LinesOk(s) && Waits(s, x) && s.alice.local.connected && s.bob.local.connected && s.quota > 0
    requires m == PollTarget(s.At(x).local.contact, pollOld) && Broker.QueueOf(s.queues, m) == []
    requires SenderOf(s, m) == Other(x)
    ensures var t := Exec(s, steps);
            Carried(s, t, x, m) && Broker.QueueOf(t.queues, m) == [] && Unsent(t, Other(x), m) == []
    decreases 2 * |s.At(Other(x)).outbox| + |s.At(Other(x)).up|
  {
    hide RunOk, LinesOk, Carried, Exec, Broker.QueueOf, PollTarget, Mail, LostAtQuota;
    var v := Other(x);
    if Unsent(s, v, m) == [] {
      steps := [];
      CarriedSelf(s, x, m);
      ExecOne(s, DoServe(v));
    } else {
      var t, p := SendOne(s, x, m, pollOld);
      CarriedOk(s, t, x, m);
      var rest := PassSender(t, x, m, pollOld);
      steps := p + rest;
      ExecConcat(s, p, rest);
      CarriedTrans(s, t, Exec(t, rest), x, m);
    }
  }

  /** The sender's next frame goes on its way, and what the relay took of it is fetched. */
  lemma SendOne(s: World, x: Who, m: MailboxId, pollOld: bool) returns (t: World, steps: seq<Step>)
    requires RunOk(s) && LinesOk(s) && Waits(s, x) && s.alice.local.connected && s.bob.local.connected && s.quota > 0
    requires m == PollTarget(s.At(x).local.contact, pollOld) && Broker.QueueOf(s.queues, m) == []
    requires SenderOf(s, m) == Other(x) && Unsent(s, Other(x), m) != []
    ensures t == Exec(s, steps) && Carried(s, t, x, m) && Waits(t, x) && Broker.QueueOf(t.queues, m) == []
    ensures 2 * |t.At(Other(x)).outbox| + |t.At(Other(x)).up| < 2 * |s.At(Other(x)).outbox| + |s.At(Other(x)).up|
  {
    hide RunOk, LinesOk, Carried, Exec, Broker.QueueOf, PollTarget, Mail, LostAtQuota, Broker.Serve;
    var v := Other(x);
    if s.At(v).up == [] {
      assert s.At(v).outbox != [] by { NothingUnsent(s, v, m); }
      TickCarries(s, v, false, x, m);
      steps := [DoTick(v, false)];
      t := Do(s, DoTick(v, false));
      ExecOne(s, DoTick(v, false));
    } else {
      LinesOf(s, v);
      SenderSpares(s, v, m);
      ServeCarries(s, v, x, m);
      var u := Do(s, DoServe(v));
      CarriedOk(s, u, x, m);
      var rest := FetchAll(u, x, m, pollOld);
      steps := [DoServe(v)] + rest;
      t := Exec(u, rest);
      ExecOne(s, DoServe(v));
      ExecConcat(s, [DoServe(v)], rest);
      CarriedTrans(s, u, t, x, m);
    }
  }

  lemma NothingUnsent(s: World, v: Who, m: MailboxId)
    ensures s.At(v).up == [] && s.At(v).outbox == [] ==> Unsent(s, v, m) == []
  {
  }

  // ---------------------------------------------------------------- all of it

  /** All mail of m, a mailbox x may poll, is brought to x's door; nobody reads or writes anything new. */
  lemma BringToDoor(s: World, x: Who, m: MailboxId, pollOld: bool) returns (steps: seq<Step>)
    requires RunOk(s) && LinesOk(s) && s.alice.local.connected && s.bob.local.connected && s.quota > 0
    requires m == PollTarget(s.At(x).local.contact, pollOld) && SenderOf(s, m) == Other(x)
    ensures var t := Exec(s, steps);
            Carried(s, t, x, m) && InTransit(t, m) == Mail(t.At(x).down, m)
  {
    hide RunOk, LinesOk, Carried, Exec, Broker.QueueOf, PollTarget, Mail, InTransit, Unsent;
    var p := EmptyReader(s, x, m);
    var t := Exec(s, p);
    CarriedOk(s, t, x, m);
    var q := FetchAll(t, x, m, pollOld);
    var u := Exec(t, q);
    CarriedOk(t, u, x, m);
    var r := PassSender(u, x, m, pollOld);
    var v := Exec(u, r);
    CarriedOk(u, v, x, m);
    steps := p + (q + r);
    ExecConcat(s, p, q + r);
    ExecConcat(t, q, r);
    CarriedTrans(s, t, u, x, m);
    CarriedTrans(s, u, v, x, m);
    AllAtDoor(v, x, m);
  }

  lemma AllAtDoor(s: World, x: Who, m: MailboxId)
    requires SenderOf(s, m) == Other(x) && Broker.QueueOf(s.queues, m) == [] && Unsent(s, Other(x), m) == []
    ensures InTransit(s, m) == Mail(s.At(x).down, m)
  {
    hide Mail, Broker.QueueOf;
  }
}
