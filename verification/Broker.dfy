/** The relay's message broker: one bounded queue per mailbox, kept in a map. */
module Broker {
  import opened Common

  type Queues<M, P> = map<M, seq<Frame<M, P>>>

  function QueueOf<M, P>(queues: Queues<M, P>, mid: M): seq<Frame<M, P>> {
    if mid in queues then queues[mid] else []
  }

  predicate Accepts<M, P>(queues: Queues<M, P>, max: nat, mid: M) {
    |QueueOf(queues, mid)| < max
  }

  /** Looking a mailbox up creates its queue, so a refused frame still leaves a queue behind. */
  function PushTo<M, P>(queues: Queues<M, P>, max: nat, frame: Frame<M, P>): Queues<M, P> {
    var queue := QueueOf(queues, frame.mailbox);
    if |queue| >= max then queues[frame.mailbox := queue]
    else queues[frame.mailbox := queue + [frame]]
  }

  /** The oldest frame of a mailbox, if any, and the queues without it. */
  function PollFrom<M, P>(queues: Queues<M, P>, mid: M): (Queues<M, P>, Option<Frame<M, P>>) {
    var queue := QueueOf(queues, mid);
    if queue == [] then (queues, None)
    else if |queue| == 1 then (queues - {mid}, Some(queue[0]))
    else (queues[mid := queue[1..]], Some(queue[0]))
  }

  /** What the relay does with one frame of an authenticated client, and the frame it answers with. */
  function Serve<M, P>(queues: Queues<M, P>, max: nat, frame: Frame<M, P>, blank: P): (Queues<M, P>, seq<Frame<M, P>>) {
    match frame.action
    case Push => (PushTo(queues, max, frame), [])
    case Ack => (PushTo(queues, max, frame), [])
    case Poll =>
      var (rest, got) := PollFrom(queues, frame.mailbox);
      (rest, [if got.Some? then got.value else Frame(Poll, frame.mailbox, blank)])
    case AuthChallenge => (queues, [])
    case AuthResponse => (queues, [])
  }

  // ---------------------------------------------------------------- whole histories

  datatype Op<M, P> = PushOp(frame: Frame<M, P>) | PollOp(mid: M)

  function Target<M, P>(op: Op<M, P>): M {
    if op.PushOp? then op.frame.mailbox else op.mid
  }

  function Apply<M, P>(queues: Queues<M, P>, max: nat, op: Op<M, P>): (Queues<M, P>, Option<Frame<M, P>>) {
    match op
    case PushOp(frame) => (PushTo(queues, max, frame), None)
    case PollOp(mid) => PollFrom(queues, mid)
  }

  function Run<M, P>(queues: Queues<M, P>, max: nat, ops: seq<Op<M, P>>): Queues<M, P>
    decreases |ops|
  {
    if ops == [] then queues else Run(Apply(queues, max, ops[0]).0, max, ops[1..])
  }

  /** The frame one operation hands out for a mailbox, if any. */
  function HandedBy<M, P>(queues: Queues<M, P>, max: nat, op: Op<M, P>, mid: M): seq<Frame<M, P>> {
    var got := Apply(queues, max, op).1;
    if op.PollOp? && op.mid == mid && got.Some? then [got.value] else []
  }

  /** The frame one operation takes in for a mailbox, if any. */
  function TakenBy<M, P>(queues: Queues<M, P>, max: nat, op: Op<M, P>, mid: M): seq<Frame<M, P>> {
    if op.PushOp? && op.frame.mailbox == mid && Accepts(queues, max, mid) then [op.frame] else []
  }

  /** The frames handed out for one mailbox, in order. */
  function Handed<M, P>(queues: Queues<M, P>, max: nat, ops: seq<Op<M, P>>, mid: M): seq<Frame<M, P>>
    decreases |ops|
  {
    if ops == [] then []
    else HandedBy(queues, max, ops[0], mid) + Handed(Apply(queues, max, ops[0]).0, max, ops[1..], mid)
  }

  /** The frames taken in for one mailbox, in order. */
  function Taken<M, P>(queues: Queues<M, P>, max: nat, ops: seq<Op<M, P>>, mid: M): seq<Frame<M, P>>
    decreases |ops|
  {
    if ops == [] then []
    else TakenBy(queues, max, ops[0], mid) + Taken(Apply(queues, max, ops[0]).0, max, ops[1..], mid)
  }

  /** The reference: a single queue of bounded length, on its own. */
  function Fifo<M, P>(queue: seq<Frame<M, P>>, max: nat, ops: seq<Op<M, P>>): seq<Frame<M, P>>
    decreases |ops|
  {
    if ops == [] then queue
    else
      match ops[0]
      case PushOp(frame) => Fifo(if |queue| < max then queue + [frame] else queue, max, ops[1..])
      case PollOp(_) => Fifo(if queue == [] then queue else queue[1..], max, ops[1..])
  }

  function FifoHanded<M, P>(queue: seq<Frame<M, P>>, max: nat, ops: seq<Op<M, P>>): seq<Frame<M, P>>
    decreases |ops|
  {
    if ops == [] then []
    else
      match ops[0]
      case PushOp(frame) => FifoHanded(if |queue| < max then queue + [frame] else queue, max, ops[1..])
      case PollOp(_) =>
        if queue == [] then FifoHanded(queue, max, ops[1..])
        else [queue[0]] + FifoHanded(queue[1..], max, ops[1..])
  }

  function OpsOn<M(==), P>(ops: seq<Op<M, P>>, mid: M): seq<Op<M, P>> {
    if ops == [] then []
    else if Target(ops[0]) == mid then [ops[0]] + OpsOn(ops[1..], mid)
    else OpsOn(ops[1..], mid)
  }

  /** One operation touches only the queue of its own mailbox. */
  lemma ApplyFrame<M, P>(queues: Queues<M, P>, max: nat, op: Op<M, P>, mid: M)
    requires Target(op) != mid
    ensures QueueOf(Apply(queues, max, op).0, mid) == QueueOf(queues, mid)
  {
  }

  /** Each mailbox behaves as a bounded queue of its own, whatever happens to the other mailboxes. */
  lemma {:induction false} RefinesFifo<M, P>(queues: Queues<M, P>, max: nat, ops: seq<Op<M, P>>, mid: M)
    ensures QueueOf(Run(queues, max, ops), mid) == Fifo(QueueOf(queues, mid), max, OpsOn(ops, mid))
    ensures Handed(queues, max, ops, mid) == FifoHanded(QueueOf(queues, mid), max, OpsOn(ops, mid))
    decreases |ops|
  {
    if ops != [] {
      var next := Apply(queues, max, ops[0]).0;
      RefinesFifo(next, max, ops[1..], mid);
      if Target(ops[0]) == mid {
        assert OpsOn(ops, mid)[1..] == OpsOn(ops[1..], mid);
      } else {
        ApplyFrame(queues, max, ops[0], mid);
      }
    }
  }

  lemma ApplyConserves<M, P>(queues: Queues<M, P>, max: nat, op: Op<M, P>, mid: M)
    ensures QueueOf(queues, mid) + TakenBy(queues, max, op, mid)
         == HandedBy(queues, max, op, mid) + QueueOf(Apply(queues, max, op).0, mid)
  {
    if Target(op) != mid {
      ApplyFrame(queues, max, op, mid);
    }
  }

  /** Nothing taken in is lost, duplicated or reordered: it was handed out, or it is still queued. */
  lemma {:induction false} Conserves<M, P>(queues: Queues<M, P>, max: nat, ops: seq<Op<M, P>>, mid: M)
    ensures QueueOf(queues, mid) + Taken(queues, max, ops, mid)
         == Handed(queues, max, ops, mid) + QueueOf(Run(queues, max, ops), mid)
    decreases |ops|
  {
    if ops == [] {
      assert QueueOf(queues, mid) + [] == [] + QueueOf(queues, mid);
    } else {
      var next := Apply(queues, max, ops[0]).0;
      var t0, h0 := TakenBy(queues, max, ops[0], mid), HandedBy(queues, max, ops[0], mid);
      var t, h := Taken(next, max, ops[1..], mid), Handed(next, max, ops[1..], mid);
      assert Taken(queues, max, ops, mid) == t0 + t && Handed(queues, max, ops, mid) == h0 + h;
      assert Run(queues, max, ops) == Run(next, max, ops[1..]);
      hide Apply, TakenBy, HandedBy, QueueOf, Taken, Handed, Run;
      ApplyConserves(queues, max, ops[0], mid);
      Conserves(next, max, ops[1..], mid);
      ConservesThen(QueueOf(queues, mid), t0, h0, QueueOf(next, mid), t, h, QueueOf(Run(next, max, ops[1..]), mid));
    }
  }

  lemma ConservesThen<T>(q: seq<T>, t0: seq<T>, h0: seq<T>, next: seq<T>, t: seq<T>, h: seq<T>, last: seq<T>)
    requires q + t0 == h0 + next && next + t == h + last
    ensures q + (t0 + t) == (h0 + h) + last
  {
    assert q + (t0 + t) == (q + t0) + t;
    assert (h0 + next) + t == h0 + (next + t);
  }

  /** Queues hold only frames of their mailbox, within the quota; empty ones only with a zero quota. */
  predicate Sound<M, P>(queues: Queues<M, P>, max: nat) {
    forall mid | mid in queues ::
      && |queues[mid]| <= max
      && (max > 0 ==> queues[mid] != [])
      && forall i | 0 <= i < |queues[mid]| :: queues[mid][i].mailbox == mid
  }

  lemma ApplyKeepsSound<M, P>(queues: Queues<M, P>, max: nat, op: Op<M, P>)
    ensures Sound(queues, max) ==> Sound(Apply(queues, max, op).0, max)
  {
  }

  lemma {:induction false} RunKeepsSound<M, P>(queues: Queues<M, P>, max: nat, ops: seq<Op<M, P>>)
    requires Sound(queues, max)
    ensures Sound(Run(queues, max, ops), max)
    decreases |ops|
  {
    if ops != [] {
      ApplyKeepsSound(queues, max, ops[0]);
      RunKeepsSound(Apply(queues, max, ops[0]).0, max, ops[1..]);
    }
  }

  /** With a zero quota a single push leaves an empty queue stored: the quota must be positive to rule it out. */
  lemma ZeroQuotaStoresEmpty<M, P>(max: nat, frame: Frame<M, P>)
    ensures (exists mid :: mid in PushTo(map[], max, frame) && PushTo(map[], max, frame)[mid] == []) <==> max == 0
  {
    var after := PushTo(map[], max, frame);
    assert frame.mailbox in after;
  }

  // ---------------------------------------------------------------- the broker object

  class MessageBroker<M(==), P> {
    const maxMessages: nat
    var queues: Queues<M, P>

    constructor (maxMessagesPerMailbox: nat)
      ensures maxMessages == maxMessagesPerMailbox && queues == map[]
      ensures Sound(queues, maxMessages)
    {
      maxMessages := maxMessagesPerMailbox;
      queues := map[];
    }

    method ProcessPush(frame: Frame<M, P>)
      modifies this
      ensures queues == PushTo(old(queues), maxMessages, frame)
      ensures old(Sound(queues, maxMessages)) ==> Sound(queues, maxMessages)
      ensures QueueOf(queues, frame.mailbox)
           == QueueOf(old(queues), frame.mailbox) + (if old(Accepts(queues, maxMessages, frame.mailbox)) then [frame] else [])
    {
      var mid := frame.mailbox;
      if mid !in queues {
        queues := queues[mid := []];
      }
      ApplyKeepsSound(old(queues), maxMessages, PushOp(frame));
      if |queues[mid]| >= maxMessages {
        return;
      }
      queues := queues[mid := queues[mid] + [frame]];
    }

    method ProcessPoll(mid: M) returns (r: Option<Frame<M, P>>)
      modifies this
      ensures (queues, r) == PollFrom(old(queues), mid)
      ensures old(Sound(queues, maxMessages)) ==> Sound(queues, maxMessages) && (r.Some? ==> r.value.mailbox == mid)
      ensures QueueOf(old(queues), mid) == (if r.Some? then [r.value] else []) + QueueOf(queues, mid)
    {
      var op: Op<M, P> := PollOp(mid);
      ApplyKeepsSound(queues, maxMessages, op);
      if mid !in queues || queues[mid] == [] {
        return None;
      }
      var frame := queues[mid][0];
      queues := queues[mid := queues[mid][1..]];
      if queues[mid] == [] {
        queues := queues - {mid};
        assert queues == old(queues) - {mid};
      }
      return Some(frame);
    }
  }
}
