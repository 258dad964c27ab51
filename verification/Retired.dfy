/** Mailboxes that no frame will ever be addressed to again. */
module Retired {
  import opened Common
  import opened Crypto
  import opened ClientCore
  import opened LossyMail
  import opened Rotation
  import opened Relay

  /** Nothing is in transit for m, and its sender neither sends there nor can come to do so. */
  predicate Dead(a: Abs, m: MailboxId) {
    var c := a.At(SideOf(a, m)).contact;
    && a.mail(m) == []
    && MailboxOk(a, SideOf(a, m), m)
    && c.txId != m
    && c.pending != Some(Sender(m))
  }

  /** A handler keeps its send mailbox, or moves to one made from its pending or a fresh key. */
  predicate SendsAnew(p: Local, q: Local) {
    && SameParty(p, q)
    && (|| q.contact.txId == p.contact.txId
        || Sender(q.contact.txId) == Ephemeral(p.me, p.generated)
        || Some(Sender(q.contact.txId)) == p.contact.pending)
    && q.contact.pending in {p.contact.pending, None, Some(Ephemeral(p.me, p.generated))}
  }

  lemma ActionsSendAnew(p: Local, data: seq<byte>)
    ensures SendsAnew(p, Connect(p).local)
    ensures SendsAnew(p, Send(p, data).local)
  {
  }

  lemma RequestSendsAnew(p: Local, key: PublicKey, s: Signature)
    ensures SendsAnew(p, HandleRotateRequest(p, key, s).local)
    ensures SendsAnew(p, HandleRotateAck(p, key, s).local)
  {
  }

  lemma ReceiveSendsAnew(p: Local, f: MailFrame)
    ensures SendsAnew(p, Receive(p, f).local)
  {
    hide ProcessPush, ProcessAck, SendsAnew;
    var usedOldKey := p.contact.oldRxId == Some(f.mailbox);
    PushSendsAnew(p, usedOldKey, f.payload);
    AckSendsAnew(p, usedOldKey, f.payload);
    assert SendsAnew(p, p) by { SelfSendsAnew(p); }
  }

  lemma SelfSendsAnew(p: Local)
    ensures SendsAnew(p, p)
  {
  }

  lemma PushSendsAnew(p: Local, usedOldKey: bool, payload: Payload)
    ensures SendsAnew(p, ProcessPush(p, usedOldKey, payload).local)
  {
    var q := p.(contact := DropOld(p.contact, usedOldKey));
    if payload.Sealed? && (payload.plain.RotateRequest? || payload.plain.RotateAck?) {
      RequestSendsAnew(q, payload.plain.key, payload.plain.signature);
    }
    hide HandleRotateRequest, HandleRotateAck;
  }

  lemma AckSendsAnew(p: Local, usedOldKey: bool, payload: Payload)
    ensures SendsAnew(p, ProcessAck(p, usedOldKey, payload).local)
  {
    hide UpdateStatus;
  }

  lemma PerformKeepsDead(a: Abs, w: Who, e: Effect, m: MailboxId)
    requires a.alice.me != a.bob.me && LocalOk(a, w) && Dead(a, m) && SendsAnew(a.At(w), e.local)
    ensures Dead(Perform(a, w, e), m)
  {
  }

  lemma SameDead(a: Abs, b: Abs, m: MailboxId)
    requires Same(a, b) && Dead(a, m)
    ensures Dead(b, m)
  {
  }

  lemma MailKeepsDead(a: Abs, w: Who, n: MailboxId, m: MailboxId)
    requires Base(a) && Dead(a, m) && a.mail(n) != []
    ensures Dead(Deliver(a, w, n), m)
  {
    hide Base, Receive, LocalOk, Perform, SendsAnew;
    var f := a.mail(n)[0];
    ReceiveSendsAnew(a.At(w), f);
    TakeKeepsBase(a, n, 0);
    var b := Take(a, n, 0);
    LocalOf(b, w);
    assert Dead(b, m);
    hide Dead;
    PerformKeepsDead(b, w, Receive(a.At(w), f), m);
  }

  /** No move, crossings included, brings a dead mailbox back. */
  lemma MoveKeepsDead(a: Abs, mv: Move, m: MailboxId)
    requires Base(a) && Dead(a, m) && Possible(a, mv)
    ensures Dead(Moved(a, mv), m)
  {
    if mv.ConnectMove? || mv.SendMove? {
      ActionsSendAnew(a.At(mv.w), if mv.SendMove? then mv.data else []);
      assert LocalOk(a, mv.w);
    }
    hide Base, Deliver, Connect, Send, SendsAnew, LocalOk;
    match mv
    case Stay =>
    case ConnectMove(w) => PerformKeepsDead(a, w, Connect(a.At(w)), m);
    case SendMove(w, data) => PerformKeepsDead(a, w, Send(a.At(w), data), m);
    case LoseMove(n, i) =>
    case DeliverMove(w, n) => MailKeepsDead(a, w, n, m);
  }

  lemma StepKeepsDead(s: World, step: Step, m: MailboxId)
    requires RunOk(s) && Dead(Alpha(s), m)
    ensures Dead(Alpha(Do(s, step)), m)
  {
    hide RunOk, Base, WellAddressed, Same, Do, MoveOf, Moved, Possible, Dead;
    RunOkBase(s);
    StepRefines(s, step);
    MoveKeepsDead(Alpha(s), MoveOf(s, step), m);
    SameDead(Moved(Alpha(s), MoveOf(s, step)), Alpha(Do(s, step)), m);
  }

  /** The mailbox a client abandons on accepting the answer to its request is dead from then on. */
  lemma CompletionRetires(s: World, w: Who, ph: Phase)
    requires RunOk(s) && PhaseOk(Alpha(s), ph) && !IsCrossing(s, DoDeliver(w))
    requires NoticeOf(s, DoDeliver(w)) == RotationCompleted
    ensures Dead(Alpha(Do(s, DoDeliver(w))), s.At(w).local.contact.rxId)
  {
    hide RunOk, Base, WellAddressed, Receive, Same, Do, Dead, InTransit, Deliver, PhaseOk, IsCrossing, MoveOf;
    var f := s.At(w).down[0];
    assert Base(Alpha(s)) by { RunOkBase(s); }
    StepFindsPhase(s, DoDeliver(w), ph);
    StepRefines(s, DoDeliver(w));
    assert Alpha(s).mail(f.mailbox) == [f];
    DeliveredDead(Alpha(s), w, f.mailbox);
    SameDead(Deliver(Alpha(s), w, f.mailbox), Alpha(Do(s, DoDeliver(w))), f.mailbox);
  }

  lemma DeliveredDead(a: Abs, w: Who, m: MailboxId)
    requires Base(a) && PhaseOk(a, Waiting(w)) && m == a.At(w).contact.rxId && |a.mail(m)| == 1
    requires SideOf(a, m) == Other(w)
    ensures Dead(Deliver(a, w, m), m)
  {
    hide Base, Receive, OnlyAnswer, OnlyRequests;
    WaitingDistinct(a, w);
    LocalOf(a, w);
    LocalOf(a, Other(w));
    ReceiveSendsAnew(a.At(w), a.mail(m)[0]);
    hide OldOk;
  }
}
