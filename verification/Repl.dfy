/**
  * The client objects: contacts, address book, conversation cache and the handlers of the
  * command loop, updating their fields in place. Every handler is proved against ClientCore.
  */
module Repl {
  import opened Common
  import opened Crypto
  import opened ClientCore

  class Contact {
    const publicKey: Party
    var rxMailboxId: MailboxId
    var txMailboxId: MailboxId
    var rxKey: SymmetricKey
    var txKey: SymmetricKey
    var initialPfsComplete: bool
    var messageCounter: nat
    var pfsState: PfsState
    var pendingEphemeralKey: Option<SecretKey>
    var oldRxMailboxId: Option<MailboxId>
    var oldRxKey: Option<SymmetricKey>

    function State(): ContactState
      reads this
    {
      ContactState(publicKey, rxMailboxId, txMailboxId, rxKey, txKey, initialPfsComplete, messageCounter,
                   pfsState, pendingEphemeralKey, oldRxMailboxId, oldRxKey)
    }

    /** A contact on the static keys of the two parties. */
    constructor (me: Party, them: Party)
      ensures State() == NewContact(me, them)
    {
      var derived := Derive(Identity(me), PublicKey(Identity(them)));
      publicKey := them;
      rxMailboxId, rxKey := derived.rxId, derived.rxKey;
      txMailboxId, txKey := derived.txId, derived.txKey;
      initialPfsComplete, messageCounter := false, 0;
      pfsState, pendingEphemeralKey := Idle, None;
      oldRxMailboxId, oldRxKey := None, None;
    }

    /** Switches to newly derived mailboxes and keys. */
    method Adopt(derived: Derived)
      modifies this
      ensures State() == ClientCore.Adopt(old(State()), derived)
    {
      txMailboxId := derived.txId;
      rxMailboxId := derived.rxId;
      txKey := derived.txKey;
      rxKey := derived.rxKey;
      messageCounter := 0;
    }
  }

  /** Static bootstrap keys: what one side sends under is what the other reads under. */
  lemma BootstrapPaired(a: Party, b: Party)
    ensures var c := NewContact(a, b);
            var d := NewContact(b, a);
            c.txId == d.rxId && c.txKey == d.rxKey && c.rxId == d.txId && c.rxKey == d.txKey
    ensures a != b ==> NewContact(a, b).txId != NewContact(a, b).rxId
  {
    ScalarMultCommutes(Identity(a), Identity(b));
  }

  class AddressBook {
    const identity: Party
    var contacts: map<string, Contact>

    /** No two aliases share a contact object. */
    ghost predicate Valid()
      reads this
    {
      forall a, b | a in contacts && b in contacts && a != b :: contacts[a] != contacts[b]
    }

    constructor (me: Party)
      ensures Valid() && identity == me && contacts == map[]
    {
      identity := me;
      contacts := map[];
    }

    /** Adds or replaces a contact, always starting from the static keys. */
    method AddContact(alias: string, them: Party)
      requires Valid()
      modifies this
      ensures Valid() && contacts.Keys == old(contacts).Keys + {alias}
      ensures fresh(contacts[alias]) && contacts[alias].State() == NewContact(identity, them)
      ensures forall a | a in old(contacts) && a != alias :: contacts[a] == old(contacts)[a]
    {
      var contact := new Contact(identity, them);
      contacts := contacts[alias := contact];
    }

    method GetAllAliases() returns (aliases: seq<string>)
      ensures forall a :: a in aliases <==> a in contacts
      ensures Distinct(aliases)
    {
      aliases := [];
      var todo := contacts.Keys;
      while todo != {}
        invariant todo <= contacts.Keys
        invariant forall a :: a in aliases <==> a in contacts && a !in todo
        invariant forall i, j | 0 <= i < j < |aliases| :: aliases[i] != aliases[j]
        decreases |todo|
      {
        var a :| a in todo;
        aliases := aliases + [a];
        todo := todo - {a};
      }
    }

    /** Some contact that listens on the mailbox, if there is one. */
    method GetAliasByRxMailboxId(rxId: MailboxId) returns (alias: Option<string>)
      ensures alias.Some? ==> alias.value in contacts && Listens(contacts[alias.value].State(), rxId)
      ensures alias.None? ==> forall a | a in contacts :: !Listens(contacts[a].State(), rxId)
    {
      var todo := contacts.Keys;
      while todo != {}
        invariant todo <= contacts.Keys
        invariant forall a | a in contacts && a !in todo :: !Listens(contacts[a].State(), rxId)
        decreases |todo|
      {
        var a :| a in todo;
        var contact := contacts[a];
        if contact.rxMailboxId == rxId {
          return Some(a);
        }
        if contact.oldRxMailboxId.Some? && contact.oldRxMailboxId.value == rxId {
          return Some(a);
        }
        todo := todo - {a};
      }
      return None;
    }
  }

  class ConversationCache {
    var histories: map<string, seq<Entry>>

    function History(alias: string): seq<Entry>
      reads this
    {
      if alias in histories then histories[alias] else []
    }

    constructor ()
      ensures histories == map[]
    {
      histories := map[];
    }

    method Append(alias: string, entry: Entry)
      modifies this
      ensures History(alias) == AppendMessage(old(History(alias)), entry)
      ensures forall a | a != alias :: History(a) == old(History(a))
    {
      histories := histories[alias := History(alias) + [entry]];
    }

    /** Finds the first entry with the id and sets its status; does nothing if there is none. */
    method UpdateMessageStatus(alias: string, id: MessageId, status: Status)
      modifies this
      ensures History(alias) == UpdateStatus(old(History(alias)), id, status)
      ensures forall a | a != alias :: History(a) == old(History(a))
    {
      var history := History(alias);
      UpdatesFirstOnly(history, id, status);
      var i := 0;
      while i < |history| && history[i].id != id
        invariant 0 <= i <= |history|
        invariant forall j | 0 <= j < i :: history[j].id != id
      {
        i := i + 1;
      }
      if i == |history| {
        return;
      }
      history := history[i := history[i].(status := status)];
      histories := histories[alias := history];
    }
  }

  // ---------------------------------------------------------------- polling

  /** The mailboxes a contact listens on, newest first. */
  function MailboxesOf(c: ContactState): seq<MailboxId> {
    [c.rxId] + (if c.oldRxId.Some? then [c.oldRxId.value] else [])
  }

  /** These are the mailboxes it listens on, and no others. */
  lemma MailboxesListened(c: ContactState, m: MailboxId)
    ensures m in MailboxesOf(c) <==> Listens(c, m)
    ensures MailboxesOf(c)[0] == c.rxId && |MailboxesOf(c)| == if c.oldRxId.Some? then 2 else 1
  {
  }

  /** The index of the next poll among n active mailboxes. */
  function NextIndex(index: nat, n: nat): (r: nat)
    requires n > 0
    ensures r < n
    ensures index < n ==> r == if index + 1 == n then 0 else index + 1
  {
    (index + 1) % n
  }

  /** k polls in a row over an unchanged list of active mailboxes, starting after the given index. */
  function PollRun(active: seq<MailboxId>, index: nat, k: nat): seq<MailboxId>
    requires active != []
    decreases k
  {
    if k == 0 then []
    else
      var next := NextIndex(index, |active|);
      [active[next]] + PollRun(active, next, k - 1)
  }

  lemma {:induction false} PollRunStraight(active: seq<MailboxId>, index: nat, k: nat)
    requires index + k < |active|
    ensures PollRun(active, index, k) == active[index + 1..index + 1 + k]
    decreases k
  {
    hide NextIndex;
    if k > 0 {
      PollRunStep(active, index, k - 1);
      hide PollRun;
      PollRunStraight(active, index + 1, k - 1);
      assert active[index + 1..index + 1 + k] == [active[index + 1]] + active[index + 2..index + 1 + k];
    }
  }

  lemma {:induction false} PollRunConcat(active: seq<MailboxId>, index: nat, j: nat, k: nat)
    requires index + j < |active|
    ensures PollRun(active, index, j + k) == PollRun(active, index, j) + PollRun(active, index + j, k)
    decreases j
  {
    hide NextIndex, PollRun;
    if j == 0 {
      PollRunNone(active, index);
      assert [] + PollRun(active, index, k) == PollRun(active, index, k);
    } else {
      PollRunStep(active, index, j - 1);
      PollRunStep(active, index, j - 1 + k);
      PollRunConcat(active, index + 1, j - 1, k);
      Associates([active[index + 1]], PollRun(active, index + 1, j - 1), PollRun(active, index + j, k));
    }
  }

  /** From the last index the run wraps around to the front. */
  lemma PollRunWraps(active: seq<MailboxId>, k: nat)
    requires k < |active|
    ensures PollRun(active, |active| - 1, k) == active[..k]
  {
    hide NextIndex;
    if k > 0 {
      PollRunStraight(active, 0, k - 1);
      assert [active[0]] + active[1..k] == active[..k];
    }
  }

  lemma PollRunNone(active: seq<MailboxId>, index: nat)
    requires active != []
    ensures PollRun(active, index, 0) == []
  {
  }

  lemma PollRunStep(active: seq<MailboxId>, index: nat, k: nat)
    requires active != []
    ensures var r := NextIndex(index, |active|);
            PollRun(active, index, k + 1) == [active[r]] + PollRun(active, r, k)
  {
    hide NextIndex;
  }

  lemma PollRunCycle(active: seq<MailboxId>, index: nat)
    requires active != []
    ensures var r := NextIndex(index, |active|);
            PollRun(active, index, |active|) == active[r..] + active[..r]
  {
    hide NextIndex, PollRun;
    var n := |active|;
    var r := NextIndex(index, n);
    PollRunStep(active, index, n - 1);
    PollRunConcat(active, r, n - 1 - r, r);
    PollRunStraight(active, r, n - 1 - r);
    PollRunWraps(active, r);
    assert n - 1 - r + r == n - 1 && r + (n - 1 - r) == n - 1;
    assert [active[r]] + (active[r + 1..n] + active[..r]) == active[r..] + active[..r];
  }

  /**
    * While the n active mailboxes stay the same, any n polls in a row go through all of them once, in
    * cyclic order from wherever the index stood.
    */
  lemma PollsAreFair(active: seq<MailboxId>, index: nat)
    requires active != []
    ensures var r := NextIndex(index, |active|);
            PollRun(active, index, |active|) == active[r..] + active[..r]
    ensures multiset(PollRun(active, index, |active|)) == multiset(active)
  {
    hide NextIndex, PollRun;
    PollRunCycle(active, index);
    Rotated(active, NextIndex(index, |active|));
  }

  lemma Rotated<T>(s: seq<T>, r: nat)
    requires r <= |s|
    ensures multiset(s[r..] + s[..r]) == multiset(s)
  {
    assert s == s[..r] + s[r..];
  }

  // ---------------------------------------------------------------- ticks and queued frames in any order

  /** What the client meets between connecting and a change of its mailboxes. */
  datatype Event = Tick | Enqueue(frames: seq<MailFrame>)

  /** What a tick puts on the wire: a frame of the outbox, or a poll. */
  datatype Output = FromOutbox(frame: MailFrame) | Polled(mid: MailboxId)

  function FrameOf(o: Output): MailFrame {
    match o
    case FromOutbox(frame) => frame
    case Polled(mid) => Frame(Poll, mid, Zeros)
  }

  function TickOutput(outbox: seq<MailFrame>, index: nat, active: seq<MailboxId>, dummyId: MailboxId): Output {
    if outbox != [] then FromOutbox(outbox[0])
    else if active == [] then Polled(dummyId)
    else Polled(active[NextIndex(index, |active|)])
  }

  function Frames(outputs: seq<Output>): seq<MailFrame> {
    if outputs == [] then [] else [FrameOf(outputs[0])] + Frames(outputs[1..])
  }

  lemma FramesCons(o: Output, rest: seq<Output>)
    ensures Frames([o] + rest) == [FrameOf(o)] + Frames(rest)
  {
    assert ([o] + rest)[1..] == rest;
  }

  function OutboxAfter(outbox: seq<MailFrame>, e: Event): seq<MailFrame> {
    match e
    case Tick => if outbox == [] then [] else outbox[1..]
    case Enqueue(frames) => outbox + frames
  }

  function IndexAfter(outbox: seq<MailFrame>, index: nat, active: seq<MailboxId>, e: Event): nat {
    if e.Tick? && outbox == [] && active != [] then NextIndex(index, |active|) else index
  }

  function Outputs(outbox: seq<MailFrame>, index: nat, active: seq<MailboxId>, dummyId: MailboxId, events: seq<Event>)
    : seq<Output>
    decreases |events|
  {
    if events == [] then []
    else
      (if events[0].Tick? then [TickOutput(outbox, index, active, dummyId)] else [])
      + Outputs(OutboxAfter(outbox, events[0]), IndexAfter(outbox, index, active, events[0]), active, dummyId, events[1..])
  }

  function OutboxAtEnd(outbox: seq<MailFrame>, events: seq<Event>): seq<MailFrame>
    decreases |events|
  {
    if events == [] then outbox else OutboxAtEnd(OutboxAfter(outbox, events[0]), events[1..])
  }

  function QueuedIn(events: seq<Event>): seq<MailFrame> {
    if events == [] then []
    else (if events[0].Enqueue? then events[0].frames else []) + QueuedIn(events[1..])
  }

  /** The polls among the outputs, and the frames of the outbox among them. */
  function PollsAmong(outputs: seq<Output>): seq<MailboxId> {
    if outputs == [] then []
    else (if outputs[0].Polled? then [outputs[0].mid] else []) + PollsAmong(outputs[1..])
  }

  function DrainedAmong(outputs: seq<Output>): seq<MailFrame> {
    if outputs == [] then []
    else (if outputs[0].FromOutbox? then [outputs[0].frame] else []) + DrainedAmong(outputs[1..])
  }

  /** Leading output of a run, apart from the rest. */
  lemma OutputsSplit(outputs: seq<Output>)
    requires outputs != []
    ensures PollsAmong(outputs) == (if outputs[0].Polled? then [outputs[0].mid] else []) + PollsAmong(outputs[1..])
    ensures DrainedAmong(outputs) == (if outputs[0].FromOutbox? then [outputs[0].frame] else []) + DrainedAmong(outputs[1..])
  {
  }

  /** Whatever is queued in between, the polls follow each other as if nothing were. */
  lemma {:induction false} PollsFollowOn(outbox: seq<MailFrame>, index: nat, active: seq<MailboxId>, dummyId: MailboxId,
                                         events: seq<Event>)
    requires active != []
    ensures var polls := PollsAmong(Outputs(outbox, index, active, dummyId, events));
            polls == PollRun(active, index, |polls|)
    decreases |events|
  {
    if events != [] {
      hide NextIndex;
      var all := Outputs(outbox, index, active, dummyId, events);
      var next, at := OutboxAfter(outbox, events[0]), IndexAfter(outbox, index, active, events[0]);
      var rest := Outputs(next, at, active, dummyId, events[1..]);
      PollsFollowOn(next, at, active, dummyId, events[1..]);
      if events[0].Tick? {
        assert all == [TickOutput(outbox, index, active, dummyId)] + rest;
        assert all[1..] == rest;
        OutputsSplit(all);
        if outbox == [] {
          PollRunStep(active, index, |PollsAmong(rest)|);
        }
      } else {
        assert all == [] + rest == rest;
      }
    }
  }

  /** Frames leave in the order they were queued, and none is lost or repeated. */
  lemma {:induction false} OutboxIsFifo(outbox: seq<MailFrame>, index: nat, active: seq<MailboxId>, dummyId: MailboxId,
                                        events: seq<Event>)
    ensures DrainedAmong(Outputs(outbox, index, active, dummyId, events)) + OutboxAtEnd(outbox, events)
         == outbox + QueuedIn(events)
    decreases |events|
  {
    if events == [] {
      assert [] + outbox == outbox + [];
    } else {
      hide NextIndex, IndexAfter, Outputs, OutboxAtEnd, QueuedIn, DrainedAmong;
      var next, at := OutboxAfter(outbox, events[0]), IndexAfter(outbox, index, active, events[0]);
      var rest := Outputs(next, at, active, dummyId, events[1..]);
      FirstEvent(outbox, index, active, dummyId, events);
      OutboxIsFifo(next, at, active, dummyId, events[1..]);
      var drained, left, queued := DrainedAmong(rest), OutboxAtEnd(next, events[1..]), QueuedIn(events[1..]);
      if events[0].Tick? {
        DrainsNext(outbox, drained, left, queued);
      } else {
        Associates(outbox, events[0].frames, queued);
      }
    }
  }

  /** A course of events, cut after its first. */
  lemma FirstEvent(outbox: seq<MailFrame>, index: nat, active: seq<MailboxId>, dummyId: MailboxId, events: seq<Event>)
    requires events != []
    ensures var next, at := OutboxAfter(outbox, events[0]), IndexAfter(outbox, index, active, events[0]);
            var rest := Outputs(next, at, active, dummyId, events[1..]);
            && DrainedAmong(Outputs(outbox, index, active, dummyId, events))
               == (if events[0].Tick? && outbox != [] then [outbox[0]] else []) + DrainedAmong(rest)
            && OutboxAtEnd(outbox, events) == OutboxAtEnd(next, events[1..])
            && QueuedIn(events) == (if events[0].Enqueue? then events[0].frames else []) + QueuedIn(events[1..])
  {
    hide NextIndex, IndexAfter;
    var all := Outputs(outbox, index, active, dummyId, events);
    var next, at := OutboxAfter(outbox, events[0]), IndexAfter(outbox, index, active, events[0]);
    var rest := Outputs(next, at, active, dummyId, events[1..]);
    if events[0].Tick? {
      assert all == [TickOutput(outbox, index, active, dummyId)] + rest;
      assert all[1..] == rest;
      OutputsSplit(all);
    } else {
      assert all == [] + rest == rest;
    }
  }

  lemma DrainsNext(outbox: seq<MailFrame>, drained: seq<MailFrame>, left: seq<MailFrame>, queued: seq<MailFrame>)
    requires drained + left == (if outbox == [] then [] else outbox[1..]) + queued
    ensures ((if outbox == [] then [] else [outbox[0]]) + drained) + left == outbox + ([] + queued)
  {
    if outbox != [] {
      assert ([outbox[0]] + drained) + left == [outbox[0]] + (outbox[1..] + queued);
    }
  }

  /** The frames sent in a course of events, cut after its first. */
  lemma FirstOutput(outbox: seq<MailFrame>, index: nat, active: seq<MailboxId>, dummyId: MailboxId, events: seq<Event>)
    requires events != []
    ensures var next, at := OutboxAfter(outbox, events[0]), IndexAfter(outbox, index, active, events[0]);
            var rest := Outputs(next, at, active, dummyId, events[1..]);
            && Frames(Outputs(outbox, index, active, dummyId, events))
               == (if events[0].Tick? then [FrameOf(TickOutput(outbox, index, active, dummyId))] + Frames(rest) else Frames(rest))
            && OutboxAtEnd(outbox, events) == OutboxAtEnd(next, events[1..])
  {
    hide IndexAfter, TickOutput, FrameOf;
    var all := Outputs(outbox, index, active, dummyId, events);
    var next, at := OutboxAfter(outbox, events[0]), IndexAfter(outbox, index, active, events[0]);
    var rest := Outputs(next, at, active, dummyId, events[1..]);
    if events[0].Tick? {
      assert all == [TickOutput(outbox, index, active, dummyId)] + rest;
      FramesCons(TickOutput(outbox, index, active, dummyId), rest);
    } else {
      assert all == [] + rest == rest;
    }
  }

  /** k ticks with nothing queued in between. */
  function Ticks(k: nat): (r: seq<Event>)
    ensures |r| == k && forall i | 0 <= i < k :: r[i] == Tick
  {
    seq(k, _ => Tick)
  }

  /** One frame per tick, and the outbox goes first: polls begin only when it is empty. */
  lemma {:induction false} OutboxGoesFirst(outbox: seq<MailFrame>, index: nat, active: seq<MailboxId>, dummyId: MailboxId,
                                           k: nat, j: nat)
    requires j < k
    ensures var outputs := Outputs(outbox, index, active, dummyId, Ticks(k));
            && |outputs| == k
            && (j < |outbox| ==> outputs[j] == FromOutbox(outbox[j]))
            && (j >= |outbox| ==> outputs[j].Polled? && outputs[j].mid in (if active == [] then [dummyId] else active))
    decreases k
  {
    hide NextIndex;
    var next, at := OutboxAfter(outbox, Tick), IndexAfter(outbox, index, active, Tick);
    assert Ticks(k)[1..] == Ticks(k - 1);
    if k == 1 {
      assert Outputs(next, at, active, dummyId, []) == [];
    } else {
      OutboxGoesFirst(next, at, active, dummyId, k - 1, if j == 0 then 0 else j - 1);
    }
  }

  lemma EnqueueKeepsIndex(outbox: seq<MailFrame>, index: nat, active: seq<MailboxId>, e: Event)
    requires e.Enqueue?
    ensures IndexAfter(outbox, index, active, e) == index
  {
  }

  lemma NothingLeft(outbox: seq<MailFrame>, index: nat, active: seq<MailboxId>, dummyId: MailboxId)
    ensures Frames(Outputs(outbox, index, active, dummyId, [])) == [] && OutboxAtEnd(outbox, []) == outbox
  {
  }

  lemma {:induction false} PollRunFrom(active: seq<MailboxId>, index: nat, i: nat, k: nat)
    requires active != []
    ensures |PollRun(active, index, i + k)| == i + k
    ensures exists at: nat :: PollRun(active, index, i + k)[i..] == PollRun(active, at, k)
    decreases i
  {
    hide NextIndex, PollRun;
    PollRunLength(active, index, i + k);
    if i == 0 {
      assert PollRun(active, index, k)[0..] == PollRun(active, index, k);
    } else {
      var next := NextIndex(index, |active|);
      PollRunStep(active, index, i + k - 1);
      PollRunFrom(active, next, i - 1, k);
      var at: nat :| PollRun(active, next, i - 1 + k)[i - 1..] == PollRun(active, at, k);
      assert PollRun(active, index, i + k)[i..] == PollRun(active, next, i - 1 + k)[i - 1..];
    }
  }

  lemma {:induction false} PollRunLength(active: seq<MailboxId>, index: nat, k: nat)
    requires active != []
    ensures |PollRun(active, index, k)| == k
    decreases k
  {
    if k > 0 {
      PollRunLength(active, NextIndex(index, |active|), k - 1);
    }
  }

  lemma {:induction false} PollRunPrefix(active: seq<MailboxId>, index: nat, j: nat, k: nat)
    requires active != []
    ensures PollRun(active, index, j) <= PollRun(active, index, j + k)
    decreases j
  {
    hide NextIndex;
    if j > 0 {
      PollRunPrefix(active, NextIndex(index, |active|), j - 1, k);
      PollRunStep(active, index, j - 1);
      PollRunStep(active, index, j + k - 1);
    }
  }

  /**
    * Poll fairness over any course of events: while the n active mailboxes are unchanged, any n polls in
    * a row visit each of them once, however many outbox ticks and newly queued frames lie between them.
    */
  lemma PollsVisitAll(outbox: seq<MailFrame>, index: nat, active: seq<MailboxId>, dummyId: MailboxId,
                      events: seq<Event>, i: nat)
    requires active != []
    requires i + |active| <= |PollsAmong(Outputs(outbox, index, active, dummyId, events))|
    ensures var polls := PollsAmong(Outputs(outbox, index, active, dummyId, events));
            multiset(polls[i..i + |active|]) == multiset(active)
  {
    hide PollsAmong, Outputs, PollRun;
    var polls, n := PollsAmong(Outputs(outbox, index, active, dummyId, events)), |active|;
    PollsFollowOn(outbox, index, active, dummyId, events);
    PollRunPrefix(active, index, i + n, |polls| - (i + n));
    PollRunFrom(active, index, i, n);
    var at: nat :| PollRun(active, index, i + n)[i..] == PollRun(active, at, n);
    assert polls[..i + n] == PollRun(active, index, i + n);
    assert polls[i..i + n] == polls[..i + n][i..];
    PollsAreFair(active, at);
  }

  // ---------------------------------------------------------------- connecting

  predicate AwaitsGreeting(me: Party, c: ContactState) {
    !c.complete && c.pfs == Idle && IsInitialPfsInitiator(me, c.publicKey)
  }

  /** What connecting does to a contact: a due initial handshake is started, anything else is left alone. */
  predicate Greeted(me: Party, before: ContactState, after: ContactState) {
    if AwaitsGreeting(me, before)
    then after.pending.Some? && after == before.(pfs := RotationRequested, pending := after.pending, counter := 0)
    else after == before
  }

  /** The request that starts a handshake: the new ephemeral key, signed, under the static keys. */
  function Greeting(me: Party, before: ContactState, after: ContactState): seq<MailFrame> {
    if AwaitsGreeting(me, before) && after.pending.Some? then
      var key := PublicKey(after.pending.value);
      [SealTo(Push, before, RotateRequest(key, Signature(me, [key])))]
    else []
  }

  lemma StartGreets(p: Local)
    requires p.connected
    ensures var e := MaybeStartInitialPfs(p);
            Greeted(p.me, p.contact, e.local.contact) && e.out == Greeting(p.me, p.contact, e.local.contact)
  {
  }

  function Greetings(me: Party, aliases: seq<string>, before: map<string, ContactState>, after: map<string, ContactState>)
    : seq<MailFrame>
  {
    if aliases == [] then []
    else
      (if aliases[0] in before && aliases[0] in after then Greeting(me, before[aliases[0]], after[aliases[0]]) else [])
      + Greetings(me, aliases[1..], before, after)
  }

  lemma {:induction false} GreetingsSnoc(me: Party, aliases: seq<string>, alias: string,
                                         before: map<string, ContactState>, after: map<string, ContactState>)
    ensures Greetings(me, aliases + [alias], before, after)
         == Greetings(me, aliases, before, after) + Greetings(me, [alias], before, after)
  {
    hide Greeting;
    var all := aliases + [alias];
    if aliases == [] {
      assert all == [alias];
    } else {
      GreetingsSnoc(me, aliases[1..], alias, before, after);
      assert all[0] == aliases[0] && all[1..] == aliases[1..] + [alias];
    }
  }

  lemma {:induction false} GreetingsSame(me: Party, aliases: seq<string>, before: map<string, ContactState>,
                                         mid: map<string, ContactState>, after: map<string, ContactState>)
    requires mid.Keys == after.Keys
    requires forall i | 0 <= i < |aliases| && aliases[i] in mid :: after[aliases[i]] == mid[aliases[i]]
    ensures Greetings(me, aliases, before, after) == Greetings(me, aliases, before, mid)
  {
    if aliases != [] {
      GreetingsSame(me, aliases[1..], before, mid, after);
    }
  }

  /** Greeting one more contact adds its greeting. */
  lemma GreetingsGrow(me: Party, done: seq<string>, alias: string, before: map<string, ContactState>,
                      mid: map<string, ContactState>, after: map<string, ContactState>)
    requires alias !in done && alias in before && alias in after && mid.Keys == after.Keys
    requires forall a | a in mid && a != alias :: after[a] == mid[a]
    ensures Greetings(me, done + [alias], before, after)
         == Greetings(me, done, before, mid) + Greeting(me, before[alias], after[alias])
  {
    hide Greeting;
    assert [alias][1..] == [];
    assert Greetings(me, [alias], before, after) == Greeting(me, before[alias], after[alias]) + [];
    hide Greetings;
    GreetingsSame(me, done, before, mid, after);
    GreetingsSnoc(me, done, alias, before, after);
  }

  /** The first i contacts have been greeted, the others are untouched. */
  predicate GreetedUpTo(me: Party, aliases: seq<string>, i: nat, before: map<string, ContactState>, now: map<string, ContactState>) {
    && (forall j | 0 <= j < |aliases| :: aliases[j] in before && aliases[j] in now)
    && (forall j | 0 <= j < i && j < |aliases| :: Greeted(me, before[aliases[j]], now[aliases[j]]))
    && (forall j | i <= j < |aliases| :: now[aliases[j]] == before[aliases[j]])
  }

  predicate Distinct(aliases: seq<string>) {
    forall i, j | 0 <= i < j < |aliases| :: aliases[i] != aliases[j]
  }

  lemma NoneGreeted(me: Party, aliases: seq<string>, before: map<string, ContactState>)
    requires forall a | a in aliases :: a in before
    ensures GreetedUpTo(me, aliases, 0, before, before) && Greetings(me, [], before, before) == []
  {
  }

  lemma NextToGreet(me: Party, aliases: seq<string>, i: nat, before: map<string, ContactState>, now: map<string, ContactState>)
    requires Distinct(aliases) && i < |aliases| && GreetedUpTo(me, aliases, i, before, now)
    ensures aliases[i] in before && aliases[i] in now && now[aliases[i]] == before[aliases[i]]
    ensures aliases[i] !in aliases[..i] && aliases[..i + 1] == aliases[..i] + [aliases[i]]
  {
  }

  lemma OneMoreGreeted(me: Party, aliases: seq<string>, i: nat, before: map<string, ContactState>,
                       mid: map<string, ContactState>, now: map<string, ContactState>)
    requires Distinct(aliases) && i < |aliases| && GreetedUpTo(me, aliases, i, before, mid) && now.Keys == mid.Keys
    requires forall a | a in mid && a != aliases[i] :: now[a] == mid[a]
    requires aliases[i] in before && aliases[i] in now && Greeted(me, before[aliases[i]], now[aliases[i]])
    ensures GreetedUpTo(me, aliases, i + 1, before, now)
  {
  }

  lemma AllGreeted(me: Party, aliases: seq<string>, before: map<string, ContactState>, now: map<string, ContactState>)
    requires GreetedUpTo(me, aliases, |aliases|, before, now)
    ensures forall a | a in aliases :: a in before && a in now && Greeted(me, before[a], now[a])
  {
  }

  // ---------------------------------------------------------------- the client

  class Client {
    const book: AddressBook
    const cache: ConversationCache
    const interval: nat
    const dummyId: MailboxId
    var outbox: seq<MailFrame>
    var contactAliases: seq<string>
    var currentPollIndex: nat
    var connected: bool
    var generated: nat

    constructor (book: AddressBook, cache: ConversationCache, interval: nat, dummyId: MailboxId)
      ensures this.book == book && this.cache == cache && this.interval == interval && this.dummyId == dummyId
      ensures outbox == [] && contactAliases == [] && currentPollIndex == 0 && !connected && generated == 0
    {
      this.book, this.cache, this.interval, this.dummyId := book, cache, interval, dummyId;
      outbox, contactAliases, currentPollIndex, connected, generated := [], [], 0, false, 0;
    }

    /** What the handlers see of one contact. */
    function View(alias: string, contact: Contact): Local
      reads this, cache, contact
    {
      Local(book.identity, interval, connected, contact.State(), cache.History(alias), generated)
    }

    // -------------------------------------------------------------- starting rotations

    method InitiatePfsRotation(alias: string, contact: Contact) returns (started: bool)
      modifies this`outbox, this`generated, contact
      ensures var e := InitiateRotation(old(View(alias, contact)));
              View(alias, contact) == e.local && outbox == old(outbox) + e.out
      ensures started <==> old(contact.pfsState) == Idle
    {
      if contact.pfsState != Idle {
        return false;
      }
      var ephemeral := Ephemeral(book.identity, generated);
      generated := generated + 1;
      var signature := Signature(book.identity, [PublicKey(ephemeral)]);
      var request := Sealed(contact.txKey, RotateRequest(PublicKey(ephemeral), signature));
      outbox := outbox + [Frame(Push, contact.txMailboxId, request)];
      contact.pfsState := RotationRequested;
      contact.pendingEphemeralKey := Some(ephemeral);
      contact.messageCounter := 0;
      return true;
    }

    method StartInitialPfs(alias: string, contact: Contact)
      modifies this`outbox, this`generated, contact
      ensures var e := MaybeStartInitialPfs(old(View(alias, contact)));
              View(alias, contact) == e.local && outbox == old(outbox) + e.out
    {
      if !connected || contact.initialPfsComplete || contact.pfsState != Idle
         || !IsInitialPfsInitiator(book.identity, contact.publicKey) {
        return;
      }
      var _ := InitiatePfsRotation(alias, contact);
    }

    /** The contacts of the address book, as values. */
    ghost function States(): (r: map<string, ContactState>)
      reads book, set a | a in book.contacts :: book.contacts[a]
      ensures r.Keys == book.contacts.Keys
      ensures forall a | a in book.contacts :: r[a] == book.contacts[a].State()
    {
      map a | a in book.contacts :: book.contacts[a].State()
    }

    /**
      * Connecting takes the whole address book as poll list, starts every pending initial handshake and
      * queues its request, contact by contact; every other contact is left alone. A relay that is not
      * reached changes nothing.
      */
    method HandleConnect(reached: bool)
      requires book.Valid()
      modifies this`connected, this`contactAliases, this`outbox, this`generated, set a | a in book.contacts :: book.contacts[a]
      ensures !reached ==>
                && connected == old(connected) && contactAliases == old(contactAliases)
                && outbox == old(outbox) && generated == old(generated) && States() == old(States())
      ensures reached ==>
                && connected
                && (forall a :: a in contactAliases <==> a in book.contacts) && Distinct(contactAliases)
                && (forall a | a in book.contacts :: Greeted(book.identity, old(States())[a], States()[a]))
                && outbox == old(outbox) + Greetings(book.identity, contactAliases, old(States()), States())
    {
      hide Greeted, Greetings, Distinct;
      if !reached {
        return;
      }
      ghost var before := States();
      connected := true;
      contactAliases := book.GetAllAliases();
      assert before == States();
      hide States;
      GreetAll(contactAliases);
    }

    method GreetAll(aliases: seq<string>)
      requires book.Valid() && connected && Distinct(aliases) && forall a | a in aliases :: a in book.contacts
      modifies this`outbox, this`generated, set a | a in book.contacts :: book.contacts[a]
      ensures forall a | a in aliases :: Greeted(book.identity, old(States())[a], States()[a])
      ensures outbox == old(outbox) + Greetings(book.identity, aliases, old(States()), States())
    {
      ghost var before := States();
      ghost var now := before;
      hide MaybeStartInitialPfs, Greeted, Greeting, GreetedUpTo, Greetings, States;
      NoneGreeted(book.identity, aliases, before);
      for i := 0 to |aliases|
        invariant now == States()
        invariant GreetedUpTo(book.identity, aliases, i, before, now)
        invariant outbox == old(outbox) + Greetings(book.identity, aliases[..i], before, now)
      {
        ghost var sent := Greetings(book.identity, aliases[..i], before, now);
        ghost var greeting := GreetNext(aliases, i, before);
        now := States();
        Associates(old(outbox), sent, greeting);
      }
      assert aliases[..|aliases|] == aliases;
      AllGreeted(book.identity, aliases, before, now);
    }

    /** One round of connecting: the contact of one alias is greeted after those before it. */
    method GreetNext(aliases: seq<string>, i: nat, ghost before: map<string, ContactState>)
      returns (ghost greeting: seq<MailFrame>)
      requires book.Valid() && connected && Distinct(aliases) && i < |aliases| && aliases[i] in book.contacts
      requires GreetedUpTo(book.identity, aliases, i, before, States())
      modifies this`outbox, this`generated, book.contacts[aliases[i]]
      ensures GreetedUpTo(book.identity, aliases, i + 1, before, States())
      ensures outbox == old(outbox) + greeting
      ensures Greetings(book.identity, aliases[..i + 1], before, States())
           == Greetings(book.identity, aliases[..i], before, old(States())) + greeting
    {
      hide MaybeStartInitialPfs, Greeted, Greeting, GreetedUpTo, Greetings;
      ghost var mid := States();
      NextToGreet(book.identity, aliases, i, before, mid);
      GreetOne(aliases[i], aliases[..i], before);
      OneMoreGreeted(book.identity, aliases, i, before, mid, States());
      greeting := Greeting(book.identity, before[aliases[i]], States()[aliases[i]]);
    }

    method GreetOne(alias: string, ghost done: seq<string>, ghost before: map<string, ContactState>)
      requires book.Valid() && connected && alias in book.contacts && alias !in done
      requires alias in before && before[alias] == book.contacts[alias].State()
      modifies this`outbox, this`generated, book.contacts[alias]
      ensures Greeted(book.identity, before[alias], States()[alias])
      ensures forall a | a in book.contacts && a != alias :: States()[a] == old(States())[a]
      ensures outbox == old(outbox) + Greeting(book.identity, before[alias], States()[alias])
      ensures Greetings(book.identity, done + [alias], before, States())
           == Greetings(book.identity, done, before, old(States())) + Greeting(book.identity, before[alias], States()[alias])
    {
      hide MaybeStartInitialPfs, Greeted, Greeting, Greetings;
      ghost var mid := States();
      StartGreets(View(alias, book.contacts[alias]));
      StartInitialPfs(alias, book.contacts[alias]);
      assert forall a | a in book.contacts && a != alias :: States()[a] == mid[a];
      GreetingsGrow(book.identity, done, alias, before, mid, States());
    }

    // -------------------------------------------------------------- sending

    /** The send command; an unknown alias is refused, and a contact without a session gets none of the text. */
    method HandleSend(alias: string, rawPayload: seq<byte>) returns (found: bool, notice: Notice)
      modifies this`outbox, this`generated, cache
      modifies if alias in book.contacts then {book.contacts[alias]} else {}
      ensures found <==> alias in book.contacts
      ensures !found ==> outbox == old(outbox) && generated == old(generated) && cache.histories == old(cache.histories)
      ensures found ==>
                var e := Send(old(View(alias, book.contacts[alias])), rawPayload);
                View(alias, book.contacts[alias]) == e.local && outbox == old(outbox) + e.out && notice == e.notice
      ensures forall a | a != alias :: cache.History(a) == old(cache.History(a))
    {
      hide InitiateRotation, MaybeStartInitialPfs;
      if alias !in book.contacts {
        return false, Quiet;
      }
      found := true;
      var contact := book.contacts[alias];
      if !contact.initialPfsComplete {
        StartInitialPfs(alias, contact);
        notice := NotReady;
        return;
      }
      cache.Append(alias, Entry(MessageId(rawPayload), Outbound, PendingAck, rawPayload));
      if interval > 0 && contact.messageCounter >= interval && contact.pfsState == Idle {
        var _ := InitiatePfsRotation(alias, contact);
      }
      contact.messageCounter := (contact.messageCounter + 1) % UINT32_RANGE;
      outbox := outbox + [Frame(Push, contact.txMailboxId, Sealed(contact.txKey, Text(rawPayload)))];
      notice := Queued;
    }

    // -------------------------------------------------------------- the timer

    /** The mailboxes polled for a list of aliases, in order; aliases without a contact are skipped. */
    function Active(aliases: seq<string>): seq<MailboxId>
      reads book, set a | a in book.contacts :: book.contacts[a]
    {
      if aliases == [] then []
      else
        (if aliases[0] in book.contacts then MailboxesOf(book.contacts[aliases[0]].State()) else [])
        + Active(aliases[1..])
    }

    lemma {:induction false} ActiveConcat(xs: seq<string>, ys: seq<string>)
      ensures Active(xs + ys) == Active(xs) + Active(ys)
    {
      if xs == [] {
        assert xs + ys == ys;
      } else {
        assert (xs + ys)[1..] == xs[1..] + ys;
        ActiveConcat(xs[1..], ys);
      }
    }

    /** Some contact of the list listens on the mailbox, as its current or its retained one. */
    ghost predicate Heard(aliases: seq<string>, m: MailboxId)
      reads book, set a | a in book.contacts :: book.contacts[a]
    {
      exists a :: a in aliases && a in book.contacts && Listens(book.contacts[a].State(), m)
    }

    /** The active mailboxes are those some contact listens on. */
    lemma {:induction false} ActiveIff(aliases: seq<string>, m: MailboxId)
      ensures m in Active(aliases) <==> Heard(aliases, m)
    {
      if aliases != [] {
        var first, rest := aliases[0], aliases[1..];
        ActiveIff(rest, m);
        if first in book.contacts {
          MailboxesListened(book.contacts[first].State(), m);
        }
        hide MailboxesOf, Listens;
        assert aliases == [first] + rest;
        assert Heard(rest, m) ==> Heard(aliases, m) by {
          if Heard(rest, m) {
            var a :| a in rest && a in book.contacts && Listens(book.contacts[a].State(), m);
            assert a in aliases;
          }
        }
      }
    }

    /** Whatever is queued in between, every mailbox a contact listens on is among any n polls in a row. */
    lemma HeardIsPolled(events: seq<Event>, i: nat, m: MailboxId)
      requires Heard(contactAliases, m)
      requires var polls := PollsAmong(Outputs(outbox, currentPollIndex, Active(contactAliases), dummyId, events));
               i + |Active(contactAliases)| <= |polls|
      ensures var polls := PollsAmong(Outputs(outbox, currentPollIndex, Active(contactAliases), dummyId, events));
              m in polls[i..i + |Active(contactAliases)|]
    {
      hide PollsAmong, Outputs, Active;
      ActiveIff(contactAliases, m);
      var active := Active(contactAliases);
      PollsVisitAll(outbox, currentPollIndex, active, dummyId, events, i);
      assert m in multiset(active);
    }

    /** Collects the active mailboxes alias by alias. */
    method CollectActive() returns (activeMailboxes: seq<MailboxId>)
      ensures activeMailboxes == Active(contactAliases)
      ensures forall m :: m in activeMailboxes <==> Heard(contactAliases, m)
    {
      activeMailboxes := [];
      for i := 0 to |contactAliases|
        invariant activeMailboxes == Active(contactAliases[..i])
      {
        var alias := contactAliases[i];
        ActiveConcat(contactAliases[..i], [alias]);
        assert contactAliases[..i + 1] == contactAliases[..i] + [alias];
        if alias in book.contacts {
          var contact := book.contacts[alias];
          activeMailboxes := activeMailboxes + [contact.rxMailboxId];
          if contact.oldRxMailboxId.Some? {
            activeMailboxes := activeMailboxes + [contact.oldRxMailboxId.value];
          }
        }
      }
      assert contactAliases[..|contactAliases|] == contactAliases;
      forall m
        ensures m in activeMailboxes <==> Heard(contactAliases, m)
      {
        ActiveIff(contactAliases, m);
      }
    }

    /** The oldest queued frame, or else a poll for the next active mailbox in turn. */
    method GetNextFrameForCBR() returns (frame: MailFrame)
      modifies this`outbox, this`currentPollIndex
      ensures old(outbox) != [] ==> [frame] + outbox == old(outbox)
      ensures old(outbox) == [] ==>
                && frame.action == Poll && outbox == []
                && (Heard(contactAliases, frame.mailbox)
                    || (frame.mailbox == dummyId && forall m :: !Heard(contactAliases, m)))
      ensures frame == FrameOf(TickOutput(old(outbox), old(currentPollIndex), Active(contactAliases), dummyId))
      ensures outbox == OutboxAfter(old(outbox), Tick)
      ensures currentPollIndex == IndexAfter(old(outbox), old(currentPollIndex), Active(contactAliases), Tick)
    {
      if outbox != [] {
        frame := outbox[0];
        outbox := outbox[1..];
        return;
      }
      var activeMailboxes := CollectActive();
      if activeMailboxes == [] {
        assert forall m :: m in activeMailboxes <==> Heard(contactAliases, m);
        return Frame(Poll, dummyId, Zeros);
      }
      currentPollIndex := NextIndex(currentPollIndex, |activeMailboxes|);
      frame := Frame(Poll, activeMailboxes[currentPollIndex], Zeros);
      assert frame.mailbox in activeMailboxes;
    }

    /** The timer and the handlers by turns: ticks take frames while others are queued. */
    method RunTimer(events: seq<Event>) returns (outputs: seq<MailFrame>)
      modifies this`outbox, this`currentPollIndex
      ensures outbox == OutboxAtEnd(old(outbox), events)
      ensures outputs == Frames(Outputs(old(outbox), old(currentPollIndex), Active(contactAliases), dummyId, events))
    {
      hide Outputs, Frames, OutboxAtEnd, TickOutput, IndexAfter;
      ghost var active := Active(contactAliases);
      ghost var all := Outputs(outbox, currentPollIndex, active, dummyId, events);
      outputs := [];
      assert events[0..] == events;
      for i := 0 to |events|
        invariant Active(contactAliases) == active
        invariant outputs + Frames(Outputs(outbox, currentPollIndex, active, dummyId, events[i..])) == Frames(all)
        invariant OutboxAtEnd(outbox, events[i..]) == OutboxAtEnd(old(outbox), events)
      {
        assert events[i..][1..] == events[i + 1..];
        FirstOutput(outbox, currentPollIndex, active, dummyId, events[i..]);
        if events[i].Tick? {
          var frame := GetNextFrameForCBR();
          Associates(outputs, [frame], Frames(Outputs(outbox, currentPollIndex, active, dummyId, events[i + 1..])));
          outputs := outputs + [frame];
        } else {
          EnqueueKeepsIndex(outbox, currentPollIndex, active, events[i]);
          outbox := outbox + events[i].frames;
        }
      }
      NothingLeft(outbox, currentPollIndex, active, dummyId);
    }

    // -------------------------------------------------------------- receiving

    method HandleTextMessage(alias: string, contact: Contact, msgData: seq<byte>) returns (notice: Notice)
      modifies this`outbox, cache
      ensures var e := HandleText(old(View(alias, contact)), msgData);
              View(alias, contact) == e.local && outbox == old(outbox) + e.out && notice == e.notice
      ensures forall a | a != alias :: cache.History(a) == old(cache.History(a))
    {
      var msgId := MessageId(msgData);
      cache.Append(alias, Entry(msgId, Inbound, Delivered, [TEXT_OPCODE] + msgData));
      outbox := outbox + [Frame(Ack, contact.txMailboxId, Sealed(contact.txKey, Receipt(msgId)))];
      notice := NewMessage;
    }

    method HandlePfsRotateRequest(alias: string, contact: Contact, key: PublicKey, signature: Signature)
      returns (notice: Notice)
      modifies this`outbox, this`generated, contact
      ensures var e := HandleRotateRequest(old(View(alias, contact)), key, signature);
              View(alias, contact) == e.local && outbox == old(outbox) + e.out && notice == e.notice
    {
      if signature != Signature(contact.publicKey, [key]) {
        return BadSignature;
      }
      var initialRotation := !contact.initialPfsComplete;
      if initialRotation && IsInitialPfsInitiator(book.identity, contact.publicKey) {
        StartInitialPfs(alias, contact);
        return SimultaneousInitial;
      }
      var myEphemeral := Ephemeral(book.identity, generated);
      generated := generated + 1;
      var mySignature := Signature(book.identity, [key, PublicKey(myEphemeral)]);
      var ack := Sealed(contact.txKey, RotateAck(PublicKey(myEphemeral), mySignature));
      outbox := outbox + [Frame(Push, contact.txMailboxId, ack)];
      if !initialRotation {
        contact.oldRxMailboxId := Some(contact.rxMailboxId);
        contact.oldRxKey := Some(contact.rxKey);
      }
      contact.Adopt(Derive(myEphemeral, key));
      if initialRotation {
        contact.initialPfsComplete := true;
        contact.pfsState := Idle;
      }
      notice := RotationAnswered;
    }

    method HandlePfsRotateAck(alias: string, contact: Contact, key: PublicKey, signature: Signature)
      returns (notice: Notice)
      modifies contact
      ensures var e := HandleRotateAck(old(View(alias, contact)), key, signature);
              View(alias, contact) == e.local && e.out == [] && notice == e.notice
    {
      if contact.pfsState != RotationRequested || contact.pendingEphemeralKey.None? {
        return UnexpectedAck;
      }
      var mine := contact.pendingEphemeralKey.value;
      if signature != Signature(contact.publicKey, [PublicKey(mine), key]) {
        return BadSignature;
      }
      contact.Adopt(Derive(mine, key));
      contact.pfsState := Idle;
      contact.pendingEphemeralKey := None;
      contact.initialPfsComplete := true;
      notice := RotationCompleted;
    }

    method ProcessPushFrame(alias: string, contact: Contact, usedOldKey: bool, payload: Payload)
      returns (notice: Notice)
      modifies this`outbox, this`generated, cache, contact
      ensures var e := ProcessPush(old(View(alias, contact)), usedOldKey, payload);
              View(alias, contact) == e.local && outbox == old(outbox) + e.out && notice == e.notice
      ensures forall a | a != alias :: cache.History(a) == old(cache.History(a))
    {
      hide HandleRotateRequest, HandleRotateAck, Open;
      var keyToUse := if usedOldKey && contact.oldRxKey.Some? then contact.oldRxKey.value else contact.rxKey;
      var plaintext := Open(keyToUse, payload);
      if plaintext.None? {
        return Malformed;
      }
      if !usedOldKey && contact.oldRxMailboxId.Some? {
        contact.oldRxMailboxId := None;
        contact.oldRxKey := None;
      }
      assert View(alias, contact)
          == old(View(alias, contact)).(contact := DropOld(old(View(alias, contact)).contact, usedOldKey));
      hide DropOld, HandleText;
      match plaintext.value {
        case Text(data) =>
          if !contact.initialPfsComplete {
            notice := TextBeforePfs;
          } else {
            notice := HandleTextMessage(alias, contact, data);
          }
        case RotateRequest(key, signature) =>
          notice := HandlePfsRotateRequest(alias, contact, key, signature);
        case RotateAck(key, signature) =>
          notice := HandlePfsRotateAck(alias, contact, key, signature);
        case Receipt(_) =>
          notice := Quiet;
      }
    }

    method ProcessAckFrame(alias: string, contact: Contact, usedOldKey: bool, payload: Payload)
      returns (notice: Notice)
      modifies cache
      ensures var e := ProcessAck(old(View(alias, contact)), usedOldKey, payload);
              View(alias, contact) == e.local && e.out == [] && notice == e.notice
      ensures forall a | a != alias :: cache.History(a) == old(cache.History(a))
    {
      var keyToUse := if usedOldKey && contact.oldRxKey.Some? then contact.oldRxKey.value else contact.rxKey;
      var plaintext := Open(keyToUse, payload);
      if plaintext.None? {
        return Malformed;
      }
      if plaintext.value.Receipt? {
        cache.UpdateMessageStatus(alias, plaintext.value.id, Delivered);
      }
      notice := MessageDelivered;
    }

    /** A received frame changes the contact that listens on its mailbox as Receive says, and no other. */
    method OnFrameReceived(frame: MailFrame) returns (alias: Option<string>, notice: Notice)
      requires book.Valid()
      modifies this`outbox, this`generated, cache, set a | a in book.contacts :: book.contacts[a]
      ensures alias.None? ==>
                && notice == (if frame.action == Poll then Quiet else UnknownMailbox)
                && (frame.action != Poll ==> forall a | a in book.contacts :: !old(Listens(book.contacts[a].State(), frame.mailbox)))
                && outbox == old(outbox) && generated == old(generated) && cache.histories == old(cache.histories)
      ensures alias.Some? ==>
                && alias.value in book.contacts
                && old(Listens(book.contacts[alias.value].State(), frame.mailbox))
                && var contact := book.contacts[alias.value];
                   var e := Receive(old(View(alias.value, contact)), frame);
                   View(alias.value, contact) == e.local && outbox == old(outbox) + e.out && notice == e.notice
      ensures forall a | a in book.contacts && alias != Some(a) ::
                book.contacts[a].State() == old(book.contacts[a].State()) && cache.History(a) == old(cache.History(a))
    {
      if frame.action == Poll {
        return None, Quiet;
      }
      alias := book.GetAliasByRxMailboxId(frame.mailbox);
      if alias.None? {
        return None, UnknownMailbox;
      }
      var contact := book.contacts[alias.value];
      var usedOldKey := contact.oldRxMailboxId.Some? && frame.mailbox == contact.oldRxMailboxId.value;
      if frame.action == Push {
        notice := ProcessPushFrame(alias.value, contact, usedOldKey, frame.payload);
      } else if frame.action == Ack {
        notice := ProcessAckFrame(alias.value, contact, usedOldKey, frame.payload);
      } else {
        notice := Quiet;
      }
    }
  }
}
