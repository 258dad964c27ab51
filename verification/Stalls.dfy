/** Clients that wait for an answer that can no longer come. */
module Stalls {
  import opened Common
  import opened Crypto
  import opened ClientCore
  import opened LossyMail
  import opened Rotation
  import opened Relay
  import opened Crossings
  import opened Collision
  import opened Theorems

  // ---------------------------------------------------------------- calm deliveries

  /** The head of m means no change of keys for x: a text, a receipt, or mail x does not listen for. */
  predicate CalmHead(a: Abs, x: Who, m: MailboxId) {
    && a.mail(m) != [] && SideOf(a, m) == Other(x)
    && (Listens(a.At(x).contact, m) ==>
          a.mail(m)[0].payload.Sealed? && (a.mail(m)[0].payload.plain.Text? || a.mail(m)[0].payload.plain.Receipt?))
  }

  lemma CalmDelivery(a: Abs, x: Who, m: MailboxId)
    requires Base(a) && CalmHead(a, x, m)
    ensures var b := Deliver(a, x, m);
            var c := a.At(x).contact;
            && Base(b) && b.At(Other(x)) == a.At(Other(x)) && b.At(x).me == a.At(x).me
            && (b.At(x).contact == c || (Listens(c, m) && b.At(x).contact == DropOld(c, c.oldRxId == Some(m))))
            && m != c.txId && b.mail(m) == a.mail(m)[1..]
            && (forall n | n != m && n != c.txId :: b.mail(n) == a.mail(n))
            && forall t :: TokensTaken(a, b, t, m)
  {
    hide Base, Deliver, TokensTaken;
    LocalOf(a, x);
    var tx := a.At(x).contact.txId;
    var b := Deliver(a, x, m);
    if Listens(a.At(x).contact, m) && a.mail(m)[0].payload.plain.Text? {
      DeliverText(a, x, m);
      var receipt := SealTo(Ack, a.At(x).contact, Receipt(MessageId(a.mail(m)[0].payload.plain.data)));
      assert Exchanged(a, b, m, tx, [receipt]);
      forall t ensures TokensTaken(a, b, t, m) {
        CalmExchange(a, b, m, tx, [receipt], t);
      }
    } else {
      SilentDelivery(a, x, m);
      assert a.mail(tx) + [] == a.mail(tx);
      assert Exchanged(a, b, m, tx, []);
      forall t ensures TokensTaken(a, b, t, m) {
        CalmExchange(a, b, m, tx, [], t);
      }
    }
  }

  lemma CalmExchange(a: Abs, b: Abs, m: MailboxId, tx: MailboxId, out: seq<MailFrame>, t: Who)
    requires Exchanged(a, b, m, tx, out) && (out != [] ==> !IsToken(a, t, out[0]))
    ensures TokensTaken(a, b, t, m)
  {
    ExchangedTokens(a, b, m, tx, out, t);
    hide Exchanged;
  }

  lemma SilentDelivery(a: Abs, x: Who, m: MailboxId)
    requires Base(a) && a.mail(m) != [] && SideOf(a, m) == Other(x)
    requires Listens(a.At(x).contact, m) ==> a.mail(m)[0].payload.plain.Receipt?
    ensures var b := Deliver(a, x, m);
            && Base(b) && b.At(Other(x)) == a.At(Other(x)) && b.At(x).me == a.At(x).me
            && b.At(x).contact == a.At(x).contact
            && forall n :: b.mail(n) == if n == m then a.mail(m)[1..] else a.mail(n)
  {
    hide Base, Receive;
    OtherwiseKeepsBase(a, x, m);
    hide Listens;
  }

  // ---------------------------------------------------------------- the two ways of being stuck

  /** w waits, and neither its request nor the answer is on its way. */
  ghost predicate Forgotten(a: Abs, w: Who) {
    a.At(w).contact.pfs == RotationRequested && NoTokens(a, w)
  }

  /** w's request is in a mailbox that the other cannot listen on, being itself forgotten. */
  ghost predicate Unheard(a: Abs, w: Who) {
    && a.At(w).contact.pfs == RotationRequested && Forgotten(a, Other(w))
    && OnlyRequests(a, w) && !Listens(a.At(Other(w)).contact, a.At(w).contact.txId)
  }

  ghost predicate Stuck(a: Abs, w: Who) {
    Forgotten(a, w) || Unheard(a, w)
  }

  lemma TakenForgotten(a: Abs, b: Abs, w: Who, m: MailboxId)
    requires Forgotten(a, w) && TokensTaken(a, b, w, m) && b.At(w).contact.pfs == RotationRequested
    ensures Forgotten(b, w)
  {
  }

  lemma TakenRequests(a: Abs, b: Abs, w: Who, m: MailboxId)
    requires OnlyRequests(a, w) && TokensTaken(a, b, w, m) && b.At(w).contact.txId == a.At(w).contact.txId
    ensures OnlyRequests(b, w)
  {
  }

  /** What a client finds at the head of a mailbox it listens on, unless it is calm. */
  lemma HeadCases(a: Abs, x: Who, m: MailboxId)
    requires Base(a) && Possible(a, DeliverMove(x, m)) && !CalmHead(a, x, m)
    ensures Arriving(a, x, m)
    ensures var f := a.mail(m)[0];
            || (TokenAt(a, Other(x), m, 0) && IsRequest(f, f.payload.plain.key))
            || (TokenAt(a, x, m, 0) && IsAck(f, f.payload.plain.key))
  {
    hide Base;
    HandshakeIsToken(a, x, m, 0);
  }

  lemma DeliverKeepsForgotten(a: Abs, x: Who, m: MailboxId, w: Who)
    requires Base(a) && Possible(a, DeliverMove(x, m)) && Forgotten(a, w)
    ensures Forgotten(Deliver(a, x, m), w)
  {
    hide Base, Deliver, TokensTaken;
    var b := Deliver(a, x, m);
    if CalmHead(a, x, m) {
      CalmDelivery(a, x, m);
    } else {
      HeadCases(a, x, m);
      var key := a.mail(m)[0].payload.plain.key;
      hide Arriving;
      if x == w {
        CrossingComplete(a, w, m);
        DeliverRequest(a, w, m, key);
        RequestTokens(a, w, m, key);
      } else {
        DeliverAck(a, x, m, key);
        AckTokens(a, x, m, key);
      }
    }
    TakenForgotten(a, b, w, m);
  }

  lemma DeliverKeepsUnheard(a: Abs, x: Who, m: MailboxId, w: Who)
    requires Base(a) && Possible(a, DeliverMove(x, m)) && Unheard(a, w)
    ensures Unheard(Deliver(a, x, m), w)
  {
    hide Base, Deliver, TokensTaken;
    assert CalmHead(a, x, m) by { UnheardCalm(a, x, m, w); }
    CalmDelivery(a, x, m);
    var b := Deliver(a, x, m);
    TakenForgotten(a, b, Other(w), m);
    TakenRequests(a, b, w, m);
  }

  lemma UnheardCalm(a: Abs, x: Who, m: MailboxId, w: Who)
    requires Base(a) && Possible(a, DeliverMove(x, m)) && Unheard(a, w)
    ensures CalmHead(a, x, m)
  {
    hide Base, CalmHead;
    if !CalmHead(a, x, m) {
      HeadCases(a, x, m);
    }
  }

  // ---------------------------------------------------------------- other moves

  /** Connecting or sending, a waiting client starts nothing. */
  lemma WaitingActs(p: Local, data: seq<byte>)
    requires p.contact.pfs == RotationRequested
    ensures forall e | e in {Connect(p), Send(p, data)} ::
              && e.local.me == p.me && e.local.contact.(counter := p.contact.counter) == p.contact
              && forall f | f in e.out :: f.payload.Sealed? && f.payload.plain.Text?
  {
  }

  /** Connecting or sending, a client sends requests and texts only. */
  lemma ActsQuietly(p: Local, data: seq<byte>)
    ensures forall e | e in {Connect(p), Send(p, data)} ::
              && e.local.me == p.me
              && forall f | f in e.out :: f.mailbox == p.contact.txId && f.payload.Sealed? && !f.payload.plain.RotateAck?
  {
  }

  lemma ActKeepsForgotten(a: Abs, x: Who, e: Effect, w: Who, data: seq<byte>)
    requires Base(a) && Forgotten(a, w) && e in {Connect(a.At(x)), Send(a.At(x), data)}
    ensures Forgotten(Perform(a, x, e), w)
  {
    hide Base, Connect, Send;
    LocalOf(a, x);
    ActsQuietly(a.At(x), data);
    if x == w {
      WaitingActs(a.At(x), data);
    }
    assert forall k | 0 <= k < |e.out| :: e.out[k] in e.out;
    QuietKeepsTokens(a, x, e, w);
  }

  lemma ActKeepsUnheard(a: Abs, x: Who, e: Effect, w: Who, data: seq<byte>)
    requires Base(a) && Unheard(a, w) && e in {Connect(a.At(x)), Send(a.At(x), data)}
    ensures Unheard(Perform(a, x, e), w)
  {
    hide Base, Connect, Send;
    WaitingActs(a.At(x), data);
    assert forall k | 0 <= k < |e.out| :: e.out[k] in e.out;
    QuietKeepsTokens(a, x, e, w);
    QuietKeepsTokens(a, x, e, Other(w));
  }

  lemma LossTakesTokens(a: Abs, n: MailboxId, i: nat, t: Who)
    requires i < |a.mail(n)|
    ensures forall m, k | TokenAt(Take(a, n, i), t, m, k) ::
              TokenAt(a, t, m, Before(n, i, m, k)) && Take(a, n, i).mail(m)[k] == a.mail(m)[Before(n, i, m, k)]
  {
    forall m, k | TokenAt(Take(a, n, i), t, m, k)
      ensures TokenAt(a, t, m, Before(n, i, m, k)) && Take(a, n, i).mail(m)[k] == a.mail(m)[Before(n, i, m, k)]
    {
      TakeAt(a, n, i, m, k);
    }
  }

  lemma LossKeepsStuck(a: Abs, n: MailboxId, i: nat, w: Who)
    requires Stuck(a, w) && i < |a.mail(n)|
    ensures Stuck(Take(a, n, i), w)
  {
    LossTakesTokens(a, n, i, w);
    LossTakesTokens(a, n, i, Other(w));
    var b := Take(a, n, i);
    assert b.alice == a.alice && b.bob == a.bob;
    hide Take;
    assert Forgotten(a, w) ==> Forgotten(b, w);
  }

  /** No move, crossings included, frees a client that is stuck. */
  lemma MoveKeepsStuck(a: Abs, mv: Move, w: Who)
    requires Base(a) && Possible(a, mv) && Stuck(a, w)
    ensures Stuck(Moved(a, mv), w)
  {
    hide Base, Deliver, Perform, Take, Connect, Send, Forgotten, Unheard;
    match mv
    case Stay =>
    case ConnectMove(x) =>
      if Forgotten(a, w) { ActKeepsForgotten(a, x, Connect(a.At(x)), w, []); }
      else { ActKeepsUnheard(a, x, Connect(a.At(x)), w, []); }
    case SendMove(x, data) =>
      if Forgotten(a, w) { ActKeepsForgotten(a, x, Send(a.At(x), data), w, data); }
      else { ActKeepsUnheard(a, x, Send(a.At(x), data), w, data); }
    case LoseMove(n, i) => LossKeepsStuck(a, n, i, w);
    case DeliverMove(x, m) =>
      if Forgotten(a, w) { DeliverKeepsForgotten(a, x, m, w); }
      else { DeliverKeepsUnheard(a, x, m, w); }
  }

  lemma SameStuck(a: Abs, b: Abs, w: Who)
    requires Same(a, b) && Stuck(a, w)
    ensures Stuck(b, w)
  {
    forall t, m, i
      ensures TokenAt(b, t, m, i) == TokenAt(a, t, m, i)
    {
    }
  }

  lemma StuckWaits(a: Abs, w: Who)
    requires Stuck(a, w)
    ensures a.At(w).contact.pfs == RotationRequested
  {
  }

  /** A stuck client waits for good, whatever happens next. */
  lemma {:induction false} RunKeepsStuck(s: World, steps: seq<Step>, w: Who)
    requires RunOk(s) && Stuck(Alpha(s), w)
    ensures Exec(s, steps).At(w).local.contact.pfs == RotationRequested
    decreases |steps|
  {
    StuckWaits(Alpha(s), w);
    if steps != [] {
      assert Base(Alpha(s)) by { RunOkBase(s); }
      hide RunOk, Base, Do, Stuck, Same, Moved, MoveOf, Possible;
      var mv := MoveOf(s, steps[0]);
      StepRefines(s, steps[0]);
      MoveKeepsStuck(Alpha(s), mv, w);
      SameStuck(Moved(Alpha(s), mv), Alpha(Do(s, steps[0])), w);
      RunKeepsStuck(Do(s, steps[0]), steps[1..], w);
    }
  }
}
