/** Exactly which sent texts are marked delivered, over whole runs. */
module Marks {
  import opened Common
  import opened Crypto
  import opened ClientCore
  import opened LossyMail
  import opened Relay
  import opened Theorems

  ghost predicate HasEntry(h: seq<Entry>, id: MessageId) {
    exists k :: 0 <= k < |h| && h[k].id == id
  }

  /**
    * A sent text is marked delivered exactly when it is the first entry with its id and a receipt for
    * that id has been handled; every other sent text is pending.
    */
  ghost predicate MarkedExactly(h: seq<Entry>, handled: set<MessageId>) {
    && (forall id | id in handled :: HasEntry(h, id))
    && forall k | 0 <= k < |h| && h[k].direction == Outbound ::
         h[k].status == if FirstWith(h, h[k].id) == k && h[k].id in handled then Delivered else PendingAck
  }

  /** Texts and receipts on their way are about entries of the one who sent the text. */
  ghost predicate LoggedOk(a: Abs, m: MailboxId, f: MailFrame) {
    f.payload.Sealed? ==>
      && (f.payload.plain.Text? ==> HasEntry(a.At(SideOf(a, m)).history, MessageId(f.payload.plain.data)))
      && (f.payload.plain.Receipt? ==> HasEntry(a.At(Other(SideOf(a, m))).history, f.payload.plain.id))
  }

  ghost predicate LogsOk(a: Abs) {
    forall m, i | 0 <= i < |a.mail(m)| :: LoggedOk(a, m, a.mail(m)[i])
  }

  // ---------------------------------------------------------------- one history

  /** What one move does to a history and to the receipts handled so far. */
  ghost predicate MarkStep(h: seq<Entry>, g: seq<Entry>, now: set<MessageId>) {
    || (g == h && now == {})
    || (|g| == |h| + 1 && g[..|h|] == h && now == {} && (g[|h|].direction == Outbound ==> g[|h|].status == PendingAck))
    || (exists id :: now == {id} && HasEntry(h, id) && g == UpdateStatus(h, id, Delivered))
  }

  lemma AppendMarks(h: seq<Entry>, g: seq<Entry>, handled: set<MessageId>)
    requires MarkedExactly(h, handled) && |g| == |h| + 1 && g[..|h|] == h
    requires g[|h|].direction == Outbound ==> g[|h|].status == PendingAck
    ensures MarkedExactly(g, handled) && forall id | HasEntry(h, id) :: HasEntry(g, id)
  {
    hide FirstWith;
    assert forall k | 0 <= k < |h| :: g[k] == h[k];
    forall id | HasEntry(h, id)
      ensures HasEntry(g, id)
    {
      var k :| 0 <= k < |h| && h[k].id == id;
      assert g[k].id == id;
    }
    forall k | 0 <= k < |g| && g[k].direction == Outbound
      ensures g[k].status == if FirstWith(g, g[k].id) == k && g[k].id in handled then Delivered else PendingAck
    {
      if k == |h| && g[k].id in handled {
        var j :| 0 <= j < |h| && h[j].id == g[k].id;
        assert g[j].id == g[k].id;
      }
    }
  }

  lemma ReceiptMarks(h: seq<Entry>, id: MessageId, handled: set<MessageId>)
    requires MarkedExactly(h, handled) && HasEntry(h, id)
    ensures var g := UpdateStatus(h, id, Delivered);
            MarkedExactly(g, handled + {id}) && forall i | HasEntry(h, i) :: HasEntry(g, i)
  {
    UpdatesFirstOnly(h, id, Delivered);
    hide UpdateStatus, FirstWith;
    var g := UpdateStatus(h, id, Delivered);
    assert forall k | 0 <= k < |h| :: g[k].id == h[k].id && g[k].direction == h[k].direction;
    forall i | HasEntry(h, i)
      ensures HasEntry(g, i)
    {
      var k :| 0 <= k < |h| && h[k].id == i;
      assert g[k].id == i;
    }
  }

  lemma MarkStepOk(h: seq<Entry>, g: seq<Entry>, handled: set<MessageId>, now: set<MessageId>)
    requires MarkedExactly(h, handled) && MarkStep(h, g, now)
    ensures MarkedExactly(g, handled + now) && forall id | HasEntry(h, id) :: HasEntry(g, id)
  {
    hide MarkedExactly, HasEntry, UpdateStatus;
    if g == h && now == {} {
      assert handled + now == handled;
    } else if |g| == |h| + 1 && g[..|h|] == h && now == {} && (g[|h|].direction == Outbound ==> g[|h|].status == PendingAck) {
      assert handled + now == handled;
      AppendMarks(h, g, handled);
    } else {
      var id :| now == {id} && HasEntry(h, id) && g == UpdateStatus(h, id, Delivered);
      ReceiptMarks(h, id, handled);
    }
  }

  // ---------------------------------------------------------------- one move

  /** The receipt w handles when the head of a mailbox is delivered to it. */
  function HandledAt(p: Local, f: MailFrame): set<MessageId> {
    if Listens(p.contact, f.mailbox) && f.payload.Sealed? && f.payload.plain.Receipt? && f.action == Ack
       && Open(KeyFor(p.contact, p.contact.oldRxId == Some(f.mailbox)), f.payload).Some?
    then {f.payload.plain.id} else {}
  }

  function HandledBy(a: Abs, mv: Move, w: Who): set<MessageId>
    requires Possible(a, mv)
  {
    if mv.DeliverMove? && mv.w == w then HandledAt(a.At(w), a.mail(mv.m)[0]) else {}
  }

  lemma TakeKeepsLogs(a: Abs, n: MailboxId, i: nat)
    requires LogsOk(a) && i < |a.mail(n)|
    ensures LogsOk(Take(a, n, i))
  {
    hide HasEntry;
    var b := Take(a, n, i);
    forall m, k | 0 <= k < |b.mail(m)|
      ensures LoggedOk(b, m, b.mail(m)[k])
    {
      TakeAt(a, n, i, m, k);
      assert LoggedOk(a, m, a.mail(m)[Before(n, i, m, k)]);
    }
  }

  lemma SameLogs(a: Abs, b: Abs)
    requires Same(a, b) && LogsOk(a)
    ensures LogsOk(b)
  {
    hide HasEntry;
    forall m, k | 0 <= k < |b.mail(m)|
      ensures LoggedOk(b, m, b.mail(m)[k])
    {
      assert LoggedOk(a, m, a.mail(m)[k]);
    }
  }

  /** The frames an effect sends are about entries that exist by then. */
  ghost predicate OutLogged(a: Abs, w: Who, e: Effect) {
    forall f | f in e.out && f.payload.Sealed? ::
      && (f.payload.plain.Text? ==> HasEntry(e.local.history, MessageId(f.payload.plain.data)))
      && (f.payload.plain.Receipt? ==> HasEntry(a.At(Other(w)).history, f.payload.plain.id))
  }

  lemma PerformKeepsLogs(a: Abs, w: Who, e: Effect)
    requires LogsOk(a) && e.local.me == a.At(w).me && a.alice.me != a.bob.me
    requires Sender(a.At(w).contact.txId).party == a.At(w).me
    requires OutLogged(a, w, e) && forall id | HasEntry(a.At(w).history, id) :: HasEntry(e.local.history, id)
    ensures LogsOk(Perform(a, w, e))
  {
    hide HasEntry;
    var b := Perform(a, w, e);
    forall m, k | 0 <= k < |b.mail(m)|
      ensures LoggedOk(b, m, b.mail(m)[k])
    {
      PerformAt(a, w, e, m, k);
      if k < |a.mail(m)| {
        assert LoggedOk(a, m, a.mail(m)[k]);
      } else {
        assert b.mail(m)[k] in e.out;
      }
    }
  }

  lemma SendMarks(p: Local, data: seq<byte>)
    ensures MarkStep(p.history, Send(p, data).local.history, {})
    ensures forall f | f in Send(p, data).out && f.payload.Sealed? ::
              && (f.payload.plain.Text? ==> HasEntry(Send(p, data).local.history, MessageId(f.payload.plain.data)))
              && !f.payload.plain.Receipt?
  {
    var g := Send(p, data).local.history;
    if p.contact.complete {
      assert g == p.history + [Entry(MessageId(data), Outbound, PendingAck, data)];
      assert g[|p.history|].id == MessageId(data);
    }
  }

  lemma ConnectMarks(p: Local)
    ensures Connect(p).local.history == p.history
    ensures forall f | f in Connect(p).out && f.payload.Sealed? :: !f.payload.plain.Text? && !f.payload.plain.Receipt?
  {
  }

  /** What a delivered frame does to the history, receipts included. */
  lemma ReceiveMarks(p: Local, f: MailFrame)
    requires f.payload.Sealed? && f.action == (if f.payload.plain.Receipt? then Ack else Push)
    requires Listens(p.contact, f.mailbox) ==>
               Open(KeyFor(p.contact, p.contact.oldRxId == Some(f.mailbox)), f.payload) == Some(f.payload.plain)
    ensures var e := Receive(p, f);
            && e.local.me == p.me
            && (e.local.history == p.history || f.payload.plain.Text? || f.payload.plain.Receipt?)
            && (f.payload.plain.Text? ==> MarkStep(p.history, e.local.history, {}))
            && (f.payload.plain.Receipt? ==>
                  && e.out == []
                  && e.local.history == (if HandledAt(p, f) == {} then p.history else UpdateStatus(p.history, f.payload.plain.id, Delivered)))
            && (forall x | x in e.out && x.payload.Sealed? ::
                  !x.payload.plain.Text? && (x.payload.plain.Receipt? ==> f.payload.plain.Text? && x.payload.plain.id == MessageId(f.payload.plain.data)))
  {
    hide UpdateStatus, HasEntry;
    if f.payload.plain.RotateRequest? || f.payload.plain.RotateAck? {
      RotationSilent(p.(contact := DropOld(p.contact, p.contact.oldRxId == Some(f.mailbox))), f.payload.plain.key, f.payload.plain.signature);
    }
    hide HandleRotateRequest, HandleRotateAck;
  }

  lemma RotationSilent(p: Local, key: PublicKey, s: Signature)
    ensures var e := HandleRotateRequest(p, key, s);
            && e.local.history == p.history && e.local.me == p.me
            && forall x | x in e.out && x.payload.Sealed? :: !x.payload.plain.Text? && !x.payload.plain.Receipt?
    ensures var e := HandleRotateAck(p, key, s);
            e.local.history == p.history && e.local.me == p.me && e.out == []
  {
  }

  /** Everything known about histories, texts and receipts, given the receipts handled by each side. */
  ghost predicate MarkedAt(a: Abs, w: Who, mine: set<MessageId>, theirs: set<MessageId>) {
    LogsOk(a) && MarkedExactly(a.At(w).history, mine) && MarkedExactly(a.At(Other(w)).history, theirs)
  }

  lemma PerformKeepsMarks(a: Abs, w: Who, e: Effect, mine: set<MessageId>, theirs: set<MessageId>, now: set<MessageId>)
    requires Base(a) && MarkedAt(a, w, mine, theirs) && e.local.me == a.At(w).me
    requires MarkStep(a.At(w).history, e.local.history, now) && OutLogged(a, w, e)
    ensures MarkedAt(Perform(a, w, e), w, mine + now, theirs)
  {
    hide Base, MarkedExactly, HasEntry, MarkStep, LogsOk, OutLogged;
    LocalOf(a, w);
    MarkStepOk(a.At(w).history, e.local.history, mine, now);
    PerformKeepsLogs(a, w, e);
  }

  lemma DeliverKeepsMarks(a: Abs, w: Who, m: MailboxId, mine: set<MessageId>, theirs: set<MessageId>)
    requires Base(a) && MarkedAt(a, w, mine, theirs) && Possible(a, DeliverMove(w, m))
    ensures MarkedAt(Deliver(a, w, m), w, mine + HandledAt(a.At(w), a.mail(m)[0]), theirs)
  {
    var f := a.mail(m)[0];
    assert LoggedOk(a, m, f);
    hide Base, MarkedExactly, HasEntry, LogsOk, Receive, UpdateStatus;
    DeliverEffect(a, w, m);
    var e := Receive(a.At(w), f);
    TakeKeepsBase(a, m, 0);
    TakeKeepsLogs(a, m, 0);
    PerformKeepsMarks(Take(a, m, 0), w, e, mine, theirs, HandledAt(a.At(w), f));
  }

  lemma DeliverEffect(a: Abs, w: Who, m: MailboxId)
    requires Base(a) && Possible(a, DeliverMove(w, m)) && LoggedOk(a, m, a.mail(m)[0])
    ensures var e := Receive(a.At(w), a.mail(m)[0]);
            && MarkStep(a.At(w).history, e.local.history, HandledAt(a.At(w), a.mail(m)[0]))
            && OutLogged(Take(a, m, 0), w, e) && e.local.me == a.At(w).me
  {
    hide Base, HasEntry, Receive, UpdateStatus;
    var p, f := a.At(w), a.mail(m)[0];
    MailOf(a, m, 0);
    if Listens(p.contact, m) {
      ListensOpens(a, w, m);
    }
    ReceiveMarks(p, f);
    if f.payload.plain.Receipt? && HandledAt(p, f) != {} {
      assert HandledAt(p, f) == {f.payload.plain.id} && HasEntry(p.history, f.payload.plain.id);
    }
  }

  lemma SendKeepsMarks(a: Abs, w: Who, data: seq<byte>, mine: set<MessageId>, theirs: set<MessageId>)
    requires Base(a) && MarkedAt(a, w, mine, theirs)
    ensures MarkedAt(Perform(a, w, Send(a.At(w), data)), w, mine, theirs)
  {
    hide Base, MarkedExactly, HasEntry, LogsOk, Send;
    SendMarks(a.At(w), data);
    assert Send(a.At(w), data).local.me == a.At(w).me by { ActionsAddress(a.At(w), data); }
    PerformKeepsMarks(a, w, Send(a.At(w), data), mine, theirs, {});
    assert mine + {} == mine;
  }

  lemma ConnectKeepsMarks(a: Abs, w: Who, mine: set<MessageId>, theirs: set<MessageId>)
    requires Base(a) && MarkedAt(a, w, mine, theirs)
    ensures MarkedAt(Perform(a, w, Connect(a.At(w))), w, mine, theirs)
  {
    hide Base, MarkedExactly, HasEntry, LogsOk, Connect;
    ConnectMarks(a.At(w));
    assert Connect(a.At(w)).local.me == a.At(w).me by { ActionsAddress(a.At(w), []); }
    PerformKeepsMarks(a, w, Connect(a.At(w)), mine, theirs, {});
    assert mine + {} == mine;
  }

  /** Every move keeps the marks exact, counting the receipt it handles, if any. */
  lemma MoveKeepsMarks(a: Abs, mv: Move, w: Who, mine: set<MessageId>, theirs: set<MessageId>)
    requires Base(a) && MarkedAt(a, w, mine, theirs) && Possible(a, mv)
    ensures MarkedAt(Moved(a, mv), w, mine + HandledBy(a, mv, w), theirs + HandledBy(a, mv, Other(w)))
  {
    hide Base, MarkedExactly, LogsOk, HandledAt, Deliver, Perform, Take;
    assert mine + {} == mine && theirs + {} == theirs;
    match mv
    case Stay =>
    case ConnectMove(x) =>
      if x == w { ConnectKeepsMarks(a, w, mine, theirs); } else { ConnectKeepsMarks(a, x, theirs, mine); }
    case SendMove(x, data) =>
      if x == w { SendKeepsMarks(a, w, data, mine, theirs); } else { SendKeepsMarks(a, x, data, theirs, mine); }
    case LoseMove(m, i) =>
      TakeKeepsLogs(a, m, i);
      TakeKeepsLocals(a, m, i);
    case DeliverMove(x, m) =>
      if x == w { DeliverKeepsMarks(a, w, m, mine, theirs); } else { DeliverKeepsMarks(a, x, m, theirs, mine); }
  }

  // ---------------------------------------------------------------- runs

  /** The ids of the receipts w handles in a run. */
  function HandledIn(s: World, steps: seq<Step>, w: Who): set<MessageId>
    decreases |steps|
  {
    if steps == [] then {} else HandledStep(s, steps[0], w) + HandledIn(Do(s, steps[0]), steps[1..], w)
  }

  function HandledStep(s: World, step: Step, w: Who): set<MessageId> {
    if step == DoDeliver(w) && s.At(w).down != [] then HandledAt(s.At(w).local, s.At(w).down[0]) else {}
  }

  lemma HandledMatches(s: World, step: Step, w: Who)
    requires RunOk(s) && Possible(Alpha(s), MoveOf(s, step))
    ensures HandledBy(Alpha(s), MoveOf(s, step), w) == HandledStep(s, step, w)
  {
    hide RunOk, InTransit, LossIndex, WellAddressed;
    if step.DoDeliver? && s.At(step.w).down != [] {
      RunOkBase(s);
      ReadRefines(s, step.w);
    }
  }

  lemma StepKeepsMarks(s: World, step: Step, w: Who, mine: set<MessageId>, theirs: set<MessageId>)
    requires RunOk(s) && MarkedAt(Alpha(s), w, mine, theirs)
    ensures MarkedAt(Alpha(Do(s, step)), w, mine + HandledStep(s, step, w), theirs + HandledStep(s, step, Other(w)))
  {
    hide RunOk, Base, WellAddressed, Same, Do, MoveOf, Moved, Possible, MarkedExactly, LogsOk, HandledStep, HandledBy;
    RunOkBase(s);
    StepRefines(s, step);
    HandledMatches(s, step, w);
    HandledMatches(s, step, Other(w));
    MoveKeepsMarks(Alpha(s), MoveOf(s, step), w, mine, theirs);
    var a, b := Moved(Alpha(s), MoveOf(s, step)), Alpha(Do(s, step));
    SameLogs(a, b);
    SameLocals(a, b);
  }

  lemma {:induction false} RunKeepsMarks(s: World, steps: seq<Step>, w: Who, mine: set<MessageId>, theirs: set<MessageId>)
    requires RunOk(s) && MarkedAt(Alpha(s), w, mine, theirs)
    ensures MarkedAt(Alpha(Exec(s, steps)), w, mine + HandledIn(s, steps, w), theirs + HandledIn(s, steps, Other(w)))
    decreases |steps|
  {
    hide RunOk, Do, MarkedAt, HandledStep;
    if steps == [] {
      assert mine + {} == mine && theirs + {} == theirs;
    } else {
      var t := Do(s, steps[0]);
      var m, n := HandledStep(s, steps[0], w), HandledStep(s, steps[0], Other(w));
      StepRefines(s, steps[0]);
      StepKeepsMarks(s, steps[0], w, mine, theirs);
      RunKeepsMarks(t, steps[1..], w, mine + m, theirs + n);
      assert (mine + m) + HandledIn(t, steps[1..], w) == mine + (m + HandledIn(t, steps[1..], w));
      assert (theirs + n) + HandledIn(t, steps[1..], Other(w)) == theirs + (n + HandledIn(t, steps[1..], Other(w)));
    }
  }

  /**
    * In every run, a sent text is marked delivered exactly when no earlier entry of the history has its id
    * and a receipt for that id has been handled; otherwise it is pending.
    */
  lemma DeliveredExactly(g: Config, steps: seq<Step>, w: Who, k: nat)
    requires ValidConfig(g)
    requires k < |Exec(Init(g), steps).At(w).local.history| && Exec(Init(g), steps).At(w).local.history[k].direction == Outbound
    ensures var h := Exec(Init(g), steps).At(w).local.history;
            && (h[k].status == Delivered <==>
                  (forall j | 0 <= j < k :: h[j].id != h[k].id) && h[k].id in HandledIn(Init(g), steps, w))
            && (h[k].status != Delivered ==> h[k].status == PendingAck)
  {
    InitOk(g);
    InitMarked(g, w);
    hide RunOk, LogsOk, FirstWith, HasEntry, Init;
    RunKeepsMarks(Init(g), steps, w, {}, {});
    assert {} + HandledIn(Init(g), steps, w) == HandledIn(Init(g), steps, w);
    hide Exec, HandledIn;
    var h := Exec(Init(g), steps).At(w).local.history;
    assert h == Alpha(Exec(Init(g), steps)).At(w).history;
  }

  lemma InitMarked(g: Config, w: Who)
    ensures MarkedAt(Alpha(Init(g)), w, {}, {})
  {
  }
}
