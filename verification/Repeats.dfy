/** A text repeated in a conversation: the receipt for it is credited to the first entry that has its id. */
module Repeats {
  import opened Common
  import opened Crypto
  import opened ClientCore
  import opened LossyMail
  import opened Crossings
  import opened Relay
  import opened Theorems
  import opened Marks
  import opened Passage
  import opened Chat
  import Broker

  // ---------------------------------------------------------------- entries stay

  /** The entries of h are still there, apart from their statuses. */
  ghost predicate Extends(h: seq<Entry>, g: seq<Entry>) {
    |h| <= |g| && forall k | 0 <= k < |h| :: g[k].(status := h[k].status) == h[k]
  }

  lemma StatusExtends(h: seq<Entry>, id: MessageId)
    ensures Extends(h, UpdateStatus(h, id, Delivered))
  {
    UpdatesFirstOnly(h, id, Delivered);
    hide UpdateStatus, FirstWith;
  }

  lemma ReceiveExtends(p: Local, f: MailFrame)
    ensures Extends(p.history, Receive(p, f).local.history)
  {
    var q := p.(contact := DropOld(p.contact, p.contact.oldRxId == Some(f.mailbox)));
    if f.payload.Sealed? && (f.payload.plain.RotateRequest? || f.payload.plain.RotateAck?) {
      RotationSilent(q, f.payload.plain.key, f.payload.plain.signature);
    }
    if f.payload.Sealed? && f.payload.plain.Receipt? {
      StatusExtends(p.history, f.payload.plain.id);
    }
    hide HandleRotateRequest, HandleRotateAck, UpdateStatus;
  }

  lemma StepExtends(s: World, step: Step, w: Who)
    ensures Extends(s.At(w).local.history, Do(s, step).At(w).local.history)
  {
    if step.DoDeliver? && s.At(step.w).down != [] {
      ReceiveExtends(s.At(step.w).local, s.At(step.w).down[0]);
    }
    hide Receive, Broker.Serve;
  }

  lemma {:induction false} RunExtends(s: World, steps: seq<Step>, w: Who)
    ensures Extends(s.At(w).local.history, Exec(s, steps).At(w).local.history)
    decreases |steps|
  {
    hide Do;
    if steps != [] {
      StepExtends(s, steps[0], w);
      RunExtends(Do(s, steps[0]), steps[1..], w);
    }
  }

  /** A text sent after an entry with the same id stays pending in every continuation of every run. */
  lemma RepeatsStayPending(g: Config, steps: seq<Step>, more: seq<Step>, w: Who, j: nat, k: nat)
    requires ValidConfig(g) && j < k < |Exec(Init(g), steps).At(w).local.history|
    requires var h := Exec(Init(g), steps).At(w).local.history;
             h[k].direction == Outbound && h[j].id == h[k].id
    ensures var h := Exec(Init(g), steps).At(w).local.history;
            var after := Exec(Exec(Init(g), steps), more).At(w).local.history;
            k < |after| && after[k] == h[k] && h[k].status == PendingAck
  {
    hide Exec, HandledIn, Init;
    RunExtends(Exec(Init(g), steps), more, w);
    ExecConcat(Init(g), steps, more);
    DeliveredExactly(g, steps, w, k);
    DeliveredExactly(g, steps + more, w, k);
    var h, after := Exec(Init(g), steps).At(w).local.history, Exec(Exec(Init(g), steps), more).At(w).local.history;
    assert after[j].id == h[j].id && after[k].id == h[k].id;
  }

  // ---------------------------------------------------------------- the run

  lemma {:induction false} HandledConcat(s: World, p: seq<Step>, q: seq<Step>, w: Who)
    ensures HandledIn(s, p + q, w) == HandledIn(s, p, w) + HandledIn(Exec(s, p), q, w)
    decreases |p|
  {
    hide Do, HandledStep;
    if p == [] {
      assert p + q == q;
    } else {
      assert (p + q)[1..] == p[1..] + q;
      HandledConcat(Do(s, p[0]), p[1..], q, w);
    }
  }

  lemma ReceiptHandled(s: World, steps: seq<Step>, w: Who, id: MessageId)
    requires RunOk(s) && steps != [] && steps[0] == DoDeliver(w) && s.At(w).down != []
    requires var f := s.At(w).down[0];
             && Listens(s.At(w).local.contact, f.mailbox) && SideOf(Alpha(s), f.mailbox) == Other(w)
             && Alpha(s).mail(f.mailbox) != [] && Alpha(s).mail(f.mailbox)[0] == f
             && f.payload.Sealed? && f.payload.plain == Receipt(id)
    ensures id in HandledIn(s, steps, w)
  {
    hide RunOk, Base, InTransit, WellAddressed, Do;
    RunOkBase(s);
    ListensOpens(Alpha(s), w, s.At(w).down[0].mailbox);
  }

  function Echo(data: seq<byte>): seq<Entry> {
    [TextEntry(data), SentEntry(data)]
  }

  lemma EchoMarks(data: seq<byte>)
    ensures UpdateStatus(Echo(data), MessageId(data), Delivered) == Echo(data)
    ensures UpdateStatus([SentEntry(data)], MessageId(data), Delivered) == [SentEntry(data).(status := Delivered)]
  {
  }

  /**
    * For every two parties, every positive quota and every text there is a run in which w receives the
    * text, sends the same text back, the other side logs it and w handles the receipt for it; and yet w's
    * entry is pending, then and in every continuation.
    */
  lemma EchoNeverDelivered(g: Config, w: Who, data: seq<byte>) returns (steps: seq<Step>)
    requires ValidConfig(g) && g.quota > 0
    ensures var u := Exec(Init(g), steps);
            && u.At(w).local.history == Echo(data)
            && u.At(Other(w)).local.history == [SentEntry(data).(status := Delivered), TextEntry(data)]
            && MessageId(data) in HandledIn(Init(g), steps, w)
            && forall more: seq<Step> ::
                 var h := Exec(u, more).At(w).local.history;
                 |h| >= 2 && h[1] == SentEntry(data)
  {
    hide RunOk, Door, Quiescent, TextSent, ReceiptSent, Exec, HandledIn, Init, InTransit, UpdateStatus;
    var v, id := Other(w), MessageId(data);
    EchoMarks(data);
    var p := HandshakeRun(g);
    var s := Exec(Init(g), p);
    assert s.At(w).local.history == [] && s.At(v).local.history == [];
    assert s.At(w).local.contact.counter == 0 && s.At(v).local.contact.counter == 0;
    assert [] + [SentEntry(data)] == [SentEntry(data)] && [] + [TextEntry(data)] == [TextEntry(data)];
    var q := ChatRun(s, v, data);
    var t := Exec(s, q);
    var r := TextRun(t, w, data);
    assert [TextEntry(data)] + [SentEntry(data)] == Echo(data);
    var t1 := Exec(t, r);
    var x := TextReadRun(t1, w, data);
    var t2 := Exec(t1, x);
    var y := ReceiptReadRun(t2, w, id);
    ReceiptHandled(t2, y, w, id);
    steps := p + (q + (r + (x + y)));
    ExecConcat(Init(g), p, q + (r + (x + y)));
    ExecConcat(s, q, r + (x + y));
    ExecConcat(t, r, x + y);
    ExecConcat(t1, x, y);
    HandledConcat(Init(g), p, q + (r + (x + y)), w);
    HandledConcat(s, q, r + (x + y), w);
    HandledConcat(t, r, x + y, w);
    HandledConcat(t1, x, y, w);
    var u := Exec(Init(g), steps);
    assert u.At(w).local.history == Echo(data);
    forall more: seq<Step>
      ensures var h := Exec(u, more).At(w).local.history;
              |h| >= 2 && h[1] == SentEntry(data)
    {
      RepeatsStayPending(g, steps, more, w, 0, 1);
    }
  }
}
