/** Conversation histories: which entry a receipt marks, and why a delivered mark can be trusted. */
module Receipts {
  import opened Common
  import opened Crypto
  import opened ClientCore
  import opened LossyMail

  ghost predicate HasInbound(h: seq<Entry>, id: MessageId) {
    exists k :: 0 <= k < |h| && h[k].direction == Inbound && h[k].id == id
  }

  /** Every sent text marked delivered was received by the peer. */
  ghost predicate MarksTrue(h: seq<Entry>, peer: seq<Entry>) {
    forall k | 0 <= k < |h| && h[k].direction == Outbound && h[k].status == Delivered :: HasInbound(peer, h[k].id)
  }

  /** A sent text whose id occurs earlier in the history is never marked: receipts mark the earlier entry. */
  ghost predicate RepeatsPending(h: seq<Entry>) {
    forall i, j | 0 <= i < j < |h| && h[i].id == h[j].id && h[j].direction == Outbound :: h[j].status == PendingAck
  }

  /** The receipt at a place of the mail is for a text its sender has received. */
  ghost predicate ReceiptTrue(a: Abs, m: MailboxId, f: MailFrame) {
    f.payload.Sealed? && f.payload.plain.Receipt? ==> HasInbound(a.At(SideOf(a, m)).history, f.payload.plain.id)
  }

  ghost predicate ReceiptsOk(a: Abs) {
    && MarksTrue(a.alice.history, a.bob.history)
    && MarksTrue(a.bob.history, a.alice.history)
    && RepeatsPending(a.alice.history)
    && RepeatsPending(a.bob.history)
    && forall m, i | 0 <= i < |a.mail(m)| :: ReceiptTrue(a, m, a.mail(m)[i])
  }

  lemma TakeKeepsReceipts(a: Abs, n: MailboxId, i: nat)
    requires ReceiptsOk(a) && i < |a.mail(n)|
    ensures ReceiptsOk(Take(a, n, i))
  {
    var b := Take(a, n, i);
    forall m, k | 0 <= k < |b.mail(m)|
      ensures ReceiptTrue(b, m, b.mail(m)[k])
    {
      TakeAt(a, n, i, m, k);
      assert ReceiptTrue(a, m, a.mail(m)[Before(n, i, m, k)]);
    }
  }

  lemma SameReceipts(a: Abs, b: Abs)
    requires Same(a, b) && ReceiptsOk(a)
    ensures ReceiptsOk(b)
  {
    forall m, k | 0 <= k < |b.mail(m)|
      ensures ReceiptTrue(b, m, b.mail(m)[k])
    {
      assert ReceiptTrue(a, m, a.mail(m)[k]);
    }
  }

  /** How a handler may change a history: not at all, by one new entry, or by marking a received id. */
  ghost predicate HistoryStep(h: seq<Entry>, g: seq<Entry>, peer: seq<Entry>) {
    || g == h
    || (|g| == |h| + 1 && g[..|h|] == h && (g[|h|].direction == Outbound ==> g[|h|].status == PendingAck))
    || (exists id :: HasInbound(peer, id) && g == UpdateStatus(h, id, Delivered))
  }

  lemma HistoryStepOk(h: seq<Entry>, g: seq<Entry>, peer: seq<Entry>)
    requires MarksTrue(h, peer) && MarksTrue(peer, h) && RepeatsPending(h) && HistoryStep(h, g, peer)
    ensures MarksTrue(g, peer) && MarksTrue(peer, g) && RepeatsPending(g)
    ensures forall id | HasInbound(h, id) :: HasInbound(g, id)
  {
    if g != h && |g| == |h| {
      var id :| HasInbound(peer, id) && g == UpdateStatus(h, id, Delivered);
      UpdatesFirstOnly(h, id, Delivered);
    }
    hide UpdateStatus, FirstWith;
    assert forall k | 0 <= k < |h| :: g[k].id == h[k].id && g[k].direction == h[k].direction;
    forall id | HasInbound(h, id)
      ensures HasInbound(g, id)
    {
      var k :| 0 <= k < |h| && h[k].direction == Inbound && h[k].id == id;
      assert g[k].direction == Inbound && g[k].id == id;
    }
  }

  /** An effect whose receipts are for texts in its own new history keeps all marks trustworthy. */
  lemma PerformKeepsReceipts(a: Abs, w: Who, e: Effect)
    requires ReceiptsOk(a) && LocalOk(a, w) && a.alice.me != a.bob.me && e.local.me == a.At(w).me
    requires HistoryStep(a.At(w).history, e.local.history, a.At(Other(w)).history)
    requires forall f | f in e.out && f.payload.Sealed? && f.payload.plain.Receipt? ::
               HasInbound(e.local.history, f.payload.plain.id)
    ensures ReceiptsOk(Perform(a, w, e))
  {
    var b := Perform(a, w, e);
    HistoryStepOk(a.At(w).history, e.local.history, a.At(Other(w)).history);
    forall m, k | 0 <= k < |b.mail(m)|
      ensures ReceiptTrue(b, m, b.mail(m)[k])
    {
      PerformAt(a, w, e, m, k);
      if k < |a.mail(m)| {
        assert ReceiptTrue(a, m, a.mail(m)[k]);
      }
    }
  }

  lemma ConnectKeepsReceipts(a: Abs, w: Who)
    requires Base(a) && ReceiptsOk(a)
    ensures ReceiptsOk(Perform(a, w, Connect(a.At(w))))
  {
    PerformKeepsReceipts(a, w, Connect(a.At(w)));
  }

  lemma SendKeepsReceipts(a: Abs, w: Who, data: seq<byte>)
    requires Base(a) && ReceiptsOk(a)
    ensures ReceiptsOk(Perform(a, w, Send(a.At(w), data)))
  {
    hide Base, ReceiptsOk, HasInbound, LocalOk;
    LocalOf(a, w);
    PerformKeepsReceipts(a, w, Send(a.At(w), data));
  }

  lemma TextHistory(p: Local, data: seq<byte>, peer: seq<Entry>)
    ensures HistoryStep(p.history, HandleText(p, data).local.history, peer)
    ensures HasInbound(HandleText(p, data).local.history, MessageId(data))
  {
    var g := HandleText(p, data).local.history;
    assert g[|p.history|].direction == Inbound && g[|p.history|].id == MessageId(data);
  }

  predicate NoReceipts(out: seq<MailFrame>) {
    forall f | f in out && f.payload.Sealed? :: !f.payload.plain.Receipt?
  }

  /** The three things a received frame can do to a history. */
  lemma ReceiveCases(p: Local, f: MailFrame)
    requires f.payload.Sealed? && f.action == (if f.payload.plain.Receipt? then Ack else Push)
    ensures var e := Receive(p, f);
            var q := p.(contact := DropOld(p.contact, p.contact.oldRxId == Some(f.mailbox)));
            && e.local.me == p.me
            && (|| (e.local.history == p.history && NoReceipts(e.out))
                || (f.payload.plain.Text? && e == HandleText(q, f.payload.plain.data))
                || (f.payload.plain.Receipt? && e.out == []
                    && e.local.history == UpdateStatus(p.history, f.payload.plain.id, Delivered)))
  {
    hide UpdateStatus;
  }

  /** What a delivery does to the receiver's history and receipts. */
  lemma ReceiveHistory(a: Abs, w: Who, m: MailboxId)
    requires Base(a) && ReceiptsOk(a) && a.mail(m) != [] && SideOf(a, m) == Other(w)
    ensures var e := Receive(a.At(w), a.mail(m)[0]);
            && HistoryStep(a.At(w).history, e.local.history, a.At(Other(w)).history)
            && (forall f | f in e.out && f.payload.Sealed? && f.payload.plain.Receipt? ::
                  HasInbound(e.local.history, f.payload.plain.id))
            && e.local.me == a.At(w).me
  {
    var p := a.At(w);
    var f := a.mail(m)[0];
    assert TransitOk(a, m, f);
    assert ReceiptTrue(a, m, f);
    hide Base, HasInbound, ReceiptsOk, UpdateStatus, Receive;
    ReceiveCases(p, f);
    if f.payload.plain.Text? {
      TextHistory(p.(contact := DropOld(p.contact, p.contact.oldRxId == Some(m))),
                  f.payload.plain.data, a.At(Other(w)).history);
    }
  }

  lemma DeliverKeepsReceipts(a: Abs, w: Who, m: MailboxId)
    requires Base(a) && ReceiptsOk(a) && a.mail(m) != [] && SideOf(a, m) == Other(w)
    ensures ReceiptsOk(Deliver(a, w, m))
  {
    hide Base, Receive, ReceiptsOk, HistoryStep, HasInbound, LocalOk;
    ReceiveHistory(a, w, m);
    TakeKeepsReceipts(a, m, 0);
    TakeKeepsBase(a, m, 0);
    LocalOf(Take(a, m, 0), w);
    PerformKeepsReceipts(Take(a, m, 0), w, Receive(a.At(w), a.mail(m)[0]));
  }

  /** Every move keeps every delivered mark trustworthy. */
  lemma MoveKeepsReceipts(a: Abs, mv: Move)
    requires Base(a) && ReceiptsOk(a) && Possible(a, mv)
    ensures ReceiptsOk(Moved(a, mv))
  {
    hide Base, ReceiptsOk, Deliver, Perform, Take;
    match mv
    case Stay =>
    case ConnectMove(w) => ConnectKeepsReceipts(a, w);
    case SendMove(w, data) => SendKeepsReceipts(a, w, data);
    case LoseMove(m, i) => TakeKeepsReceipts(a, m, i);
    case DeliverMove(w, m) => DeliverKeepsReceipts(a, w, m);
  }
}
