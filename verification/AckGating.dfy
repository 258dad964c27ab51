/**
  * The latency benchmark's acceptance of a run: four event logs indexed by message id, a check that
  * each message was queued only after the previous one was acknowledged, and rows of corrected times.
  */
module AckGating {
  import opened Common
  import opened ClockCorrection
  import Sorting

  datatype Event = Event(id: string, at: int, sequence: int)

  /** The logs of one run with the flags and the count its metadata carries. */
  datatype Run = Run(gated: bool, runGated: bool, verified: bool, requested: int,
                     queue: seq<Event>, tx: seq<Event>, rx: seq<Event>, ack: seq<Event>)

  /** The calibrations of the sender and of the receiver. */
  datatype Clocks = Clocks(aPre: Anchor, aPost: Anchor, bPre: Anchor, bPost: Anchor)

  /** The readings of one message, their corrected times, the intervals between these, and the clocks' part. */
  datatype Row = Row(sequence: int, id: string,
                     queueVm: int, txVm: int, rxVm: int, ackVm: int,
                     queue: int, tx: int, rx: int, ack: int,
                     latency: int, queueToTx: int, txToRx: int, queueToAck: int,
                     senderOffset: real, receiverOffset: real, uncertainty: real)

  const TOLERANCE := 2_000_000

  // ---------------------------------------------------------------- indexing

  function LowerChar(c: char): char {
    if 'A' <= c <= 'Z' then (c as int + 32) as char else c
  }

  function Key(id: string): string {
    seq(|id|, i requires 0 <= i < |id| => LowerChar(id[i]))
  }

  /** The same letter, whatever its case. */
  predicate SameLetter(c: char, d: char) {
    || c == d
    || ('A' <= c <= 'Z' && d as int == c as int + 32)
    || ('A' <= d <= 'Z' && c as int == d as int + 32)
  }

  /** Two ids share a key exactly when they are equal up to the case of ASCII letters. */
  lemma KeysEqualIff(x: string, y: string)
    ensures Key(x) == Key(y) <==> |x| == |y| && forall i | 0 <= i < |x| :: SameLetter(x[i], y[i])
    ensures Key(Key(x)) == Key(x)
  {
    assert |Key(x)| == |x| && |Key(y)| == |y|;
    forall i | 0 <= i < |x| && i < |y|
      ensures Key(x)[i] == Key(y)[i] <==> SameLetter(x[i], y[i])
    {
    }
    hide SameLetter;
    assert Key(x) == Key(y) <==> |x| == |y| && forall i | 0 <= i < |x| :: Key(x)[i] == Key(y)[i];
  }

  predicate Unique(log: seq<Event>) {
    forall i, j | 0 <= i < j < |log| :: Key(log[i].id) != Key(log[j].id)
  }

  function Keys(log: seq<Event>): (r: set<string>)
    ensures forall i | 0 <= i < |log| :: Key(log[i].id) in r
  {
    set i | 0 <= i < |log| :: Key(log[i].id)
  }

  /** An index of a log: one entry per event, found under the event's key. */
  ghost predicate Indexes(m: map<string, Event>, log: seq<Event>) {
    && m.Keys == Keys(log)
    && |m| == |log|
    && forall i | 0 <= i < |log| :: m[Key(log[i].id)] == log[i]
  }

  /** Builds the index of a log; an error when two events share a key. */
  method IndexEvents(log: seq<Event>) returns (r: Option<map<string, Event>>)
    ensures r.Some? <==> Unique(log)
    ensures r.Some? ==> Indexes(r.value, log)
  {
    hide Key;
    var m: map<string, Event> := map[];
    assert Keys([]) == {};
    assert log[..0] == [];
    for i := 0 to |log|
      invariant Unique(log[..i])
      invariant Indexes(m, log[..i])
    {
      var key := Key(log[i].id);
      IndexStep(m, log, i);
      if key in m {
        return None;
      }
      m := m[key := log[i]];
    }
    assert log[..|log|] == log;
    return Some(m);
  }

  lemma IndexStep(m: map<string, Event>, log: seq<Event>, i: nat)
    requires i < |log| && Unique(log[..i]) && Indexes(m, log[..i])
    ensures Key(log[i].id) in m ==> !Unique(log)
    ensures Key(log[i].id) !in m ==> Unique(log[..i + 1]) && Indexes(m[Key(log[i].id) := log[i]], log[..i + 1])
  {
    assert log[..i + 1] == log[..i] + [log[i]];
    if Key(log[i].id) in m {
      var k :| 0 <= k < i && Key(log[..i][k].id) == Key(log[i].id);
      assert log[..i][k] == log[k];
    } else {
      IndexGrows(m, log[..i], log[i]);
    }
  }

  lemma IndexGrows(m: map<string, Event>, log: seq<Event>, e: Event)
    requires Unique(log) && Indexes(m, log) && Key(e.id) !in m
    ensures Unique(log + [e]) && Indexes(m[Key(e.id) := e], log + [e])
  {
    KeysGrow(log, e);
    hide Key, Keys;
    var next := log + [e];
    forall k | 0 <= k < |log|
      ensures next[k] == log[k] && Key(log[k].id) in m
    {
      assert Key(log[k].id) in Keys(log);
    }
  }

  lemma KeysGrow(log: seq<Event>, e: Event)
    ensures Keys(log + [e]) == Keys(log) + {Key(e.id)}
  {
    hide Key;
    var next := log + [e];
    assert next[|log|] == e;
    forall key | key in Keys(log)
      ensures key in Keys(next)
    {
      var k :| 0 <= k < |log| && Key(log[k].id) == key;
      assert next[k] == log[k];
    }
  }

  /** The event a log holds under a key. */
  ghost function Lookup(log: seq<Event>, key: string): (e: Event)
    requires key in Keys(log)
    ensures e in log && Key(e.id) == key
  {
    var i :| 0 <= i < |log| && Key(log[i].id) == key;
    log[i]
  }

  lemma LookupIs(m: map<string, Event>, log: seq<Event>, key: string)
    requires Indexes(m, log) && key in Keys(log)
    ensures key in m && m[key] == Lookup(log, key)
  {
    hide Key;
    var e := Lookup(log, key);
    var i :| 0 <= i < |log| && log[i] == e;
    assert m[Key(log[i].id)] == log[i];
  }

  // ---------------------------------------------------------------- ordering by sequence number

  function SequenceKey(e: Event): real {
    e.sequence as real
  }

  /** The events of a log by sequence number. */
  function InSequence(log: seq<Event>): (r: seq<Event>)
    ensures multiset(r) == multiset(log) && |r| == |log|
    ensures forall i, j | 0 <= i < j < |r| :: r[i].sequence <= r[j].sequence
  {
    var r := Sorting.Sort(log, SequenceKey);
    assert forall i, j | 0 <= i < j < |r| :: SequenceKey(r[i]) <= SequenceKey(r[j]);
    r
  }

  lemma SameEvents(log: seq<Event>, i: nat)
    requires i < |log|
    ensures InSequence(log)[i] in log
  {
    assert InSequence(log)[i] in multiset(log);
  }

  // ---------------------------------------------------------------- validation

  predicate Numbered(s: seq<Event>) {
    forall i | 0 <= i < |s| :: s[i].sequence == i + 1
  }

  /** The four logs speak of the same messages, each log once of each. */
  predicate Consistent(run: Run) {
    && Unique(run.queue) && Unique(run.tx) && Unique(run.rx) && Unique(run.ack)
    && |run.queue| == |run.tx| == |run.rx| == |run.ack| == run.requested
    && Keys(run.queue) == Keys(run.tx) == Keys(run.rx) == Keys(run.ack)
  }

  lemma Known(run: Run, i: nat)
    requires Consistent(run) && i < |run.queue|
    ensures var key := Key(InSequence(run.queue)[i].id);
      key in Keys(run.queue) && key in Keys(run.tx) && key in Keys(run.rx) && key in Keys(run.ack)
  {
    SameEvents(run.queue, i);
    var e := InSequence(run.queue)[i];
    var k :| 0 <= k < |run.queue| && run.queue[k] == e;
    assert Key(run.queue[k].id) in Keys(run.queue);
  }

  /** Message i + 1 was queued no earlier than message i was acknowledged, on the sender's clock. */
  ghost predicate GatedAt(run: Run, i: nat)
    requires Consistent(run) && i + 1 < |run.queue|
  {
    Known(run, i);
    var ordered := InSequence(run.queue);
    Lookup(run.ack, Key(ordered[i].id)).at <= ordered[i + 1].at
  }

  ghost predicate Accepted(run: Run) {
    && run.gated && run.runGated && run.verified && run.requested > 0
    && Consistent(run)
    && Numbered(InSequence(run.queue))
    && forall i: nat | i + 1 < |run.queue| :: GatedAt(run, i)
  }

  // ---------------------------------------------------------------- acceptance, event by event

  ghost predicate HasNumber(log: seq<Event>, k: int) {
    exists e :: e in log && e.sequence == k
  }

  /** Every number from 1 to n is the sequence number of some event. */
  ghost predicate Counts(log: seq<Event>) {
    forall k | 1 <= k <= |log| :: HasNumber(log, k)
  }

  /** Whoever comes next was queued no earlier than the acknowledgement before. */
  predicate NextWaits(run: Run) {
    forall q, r, a | q in run.queue && r in run.queue && a in run.ack ::
      r.sequence == q.sequence + 1 && Key(a.id) == Key(q.id) ==> a.at <= r.at
  }

  /** Events in order that count from one number theirs by their places. */
  lemma {:induction false} CountedInOrder(s: seq<Event>)
    requires Counts(s) && forall i, j | 0 <= i < j < |s| :: s[i].sequence <= s[j].sequence
    ensures Numbered(s)
    decreases |s|
  {
    if s != [] {
      var n := |s|;
      var front, last := s[..n - 1], s[n - 1];
      assert HasNumber(s, n);
      var top :| top in s && top.sequence == n;
      assert last.sequence >= n;
      forall k | 1 <= k <= |front|
        ensures HasNumber(front, k)
      {
        assert HasNumber(s, k);
        var e :| e in s && e.sequence == k;
        var i :| 0 <= i < n && s[i] == e;
        assert e == front[i];
      }
      CountedInOrder(front);
      assert s == front + [last];
    }
  }

  lemma SameMembers(log: seq<Event>)
    ensures forall e :: e in InSequence(log) <==> e in log
  {
    forall e
      ensures e in InSequence(log) <==> e in log
    {
      assert e in InSequence(log) <==> e in multiset(InSequence(log));
      assert e in log <==> e in multiset(log);
    }
  }

  lemma NumberedCounts(log: seq<Event>)
    ensures Numbered(InSequence(log)) <==> Counts(log)
  {
    hide InSequence;
    var s := InSequence(log);
    SameMembers(log);
    assert forall k :: HasNumber(s, k) <==> HasNumber(log, k);
    if Numbered(s) {
      forall k | 1 <= k <= |log|
        ensures HasNumber(log, k)
      {
        assert s[k - 1] in s && s[k - 1].sequence == k;
      }
    }
    if Counts(log) {
      CountedInOrder(s);
    }
  }

  lemma GatedWaits(run: Run, q: Event, r: Event, a: Event)
    requires Consistent(run) && Numbered(InSequence(run.queue))
    requires forall i: nat | i + 1 < |run.queue| :: GatedAt(run, i)
    requires q in run.queue && r in run.queue && a in run.ack && r.sequence == q.sequence + 1 && Key(a.id) == Key(q.id)
    ensures a.at <= r.at
  {
    hide Key, Keys, Unique, InSequence;
    var s := InSequence(run.queue);
    SameMembers(run.queue);
    assert q in s && r in s;
    var i: nat :| i < |s| && s[i] == q;
    var j: nat :| j < |s| && s[j] == r;
    assert s[i].sequence == i + 1 && s[j].sequence == j + 1;
    assert GatedAt(run, i);
    Known(run, i);
    OnlyOne(run.ack, a);
  }

  lemma WaitsGated(run: Run, i: nat)
    requires Consistent(run) && Numbered(InSequence(run.queue)) && NextWaits(run) && i + 1 < |run.queue|
    ensures GatedAt(run, i)
  {
    hide Key, Keys, Unique, InSequence;
    var s := InSequence(run.queue);
    SameMembers(run.queue);
    Known(run, i);
    assert s[i] in s && s[i + 1] in s && s[i + 1].sequence == s[i].sequence + 1;
    assert Lookup(run.ack, Key(s[i].id)) in run.ack;
  }

  lemma GatedNext(run: Run)
    requires Consistent(run) && Numbered(InSequence(run.queue))
    ensures (forall i: nat | i + 1 < |run.queue| :: GatedAt(run, i)) <==> NextWaits(run)
  {
    hide Consistent, InSequence, Numbered, Key;
    if forall i: nat | i + 1 < |run.queue| :: GatedAt(run, i) {
      forall q, r, a | q in run.queue && r in run.queue && a in run.ack
        ensures r.sequence == q.sequence + 1 && Key(a.id) == Key(q.id) ==> a.at <= r.at
      {
        if r.sequence == q.sequence + 1 && Key(a.id) == Key(q.id) {
          GatedWaits(run, q, r, a);
        }
      }
    }
    if NextWaits(run) {
      forall i: nat | i + 1 < |run.queue|
        ensures GatedAt(run, i)
      {
        WaitsGated(run, i);
      }
    }
  }

  lemma OnlyOne(log: seq<Event>, e: Event)
    requires Unique(log) && e in log
    ensures Key(e.id) in Keys(log) && Lookup(log, Key(e.id)) == e
  {
    hide Key, Keys;
    var i :| 0 <= i < |log| && log[i] == e;
    assert Key(log[i].id) in Keys(log);
    var f := Lookup(log, Key(e.id));
    var j :| 0 <= j < |log| && log[j] == f;
  }

  /**
    * A run is accepted exactly when its flags are set, its four logs hold the same messages once each, the
    * queue events are numbered from one, and each of them but the first was queued no earlier than the
    * one before it was acknowledged.
    */
  lemma AcceptedRunIff(run: Run)
    ensures Accepted(run) <==>
            && run.gated && run.runGated && run.verified && run.requested > 0
            && Consistent(run) && Counts(run.queue) && NextWaits(run)
  {
    hide Unique, Keys, Key, InSequence, Counts, NextWaits;
    NumberedCounts(run.queue);
    if Consistent(run) && Numbered(InSequence(run.queue)) {
      GatedNext(run);
    }
  }

  /** The indexes of the four logs; an error unless they are consistent. */
  method IndexAll(run: Run)
    returns (ok: bool, queue: map<string, Event>, tx: map<string, Event>, rx: map<string, Event>, ack: map<string, Event>)
    ensures ok <==> Consistent(run)
    ensures ok ==> Indexes(queue, run.queue) && Indexes(tx, run.tx) && Indexes(rx, run.rx) && Indexes(ack, run.ack)
  {
    hide Unique, Keys;
    ok, queue, tx, rx, ack := false, map[], map[], map[], map[];
    var q := IndexEvents(run.queue);
    if q.None? { return; }
    var t := IndexEvents(run.tx);
    if t.None? { return; }
    var r := IndexEvents(run.rx);
    if r.None? { return; }
    var a := IndexEvents(run.ack);
    if a.None? { return; }
    queue, tx, rx, ack := q.value, t.value, r.value, a.value;
    ok := |queue| == |tx| == |rx| == |ack| == run.requested && queue.Keys == tx.Keys == rx.Keys == ack.Keys;
  }

  method Validate(run: Run) returns (ok: bool)
    ensures ok <==> Accepted(run)
  {
    hide Unique, Keys, InSequence, Key;
    if !run.gated || !run.runGated || !run.verified || run.requested <= 0 {
      return false;
    }
    var consistent, queue, tx, rx, ack := IndexAll(run);
    if !consistent {
      return false;
    }
    var ordered := InSequence(run.queue);
    for i := 0 to |ordered|
      invariant forall k | 0 <= k < i :: ordered[k].sequence == k + 1
    {
      if ordered[i].sequence != i + 1 {
        return false;
      }
    }
    for i := 0 to run.requested - 1
      invariant forall k: nat | k < i :: GatedAt(run, k)
    {
      Known(run, i);
      Known(run, i + 1);
      LookupIs(ack, run.ack, Key(ordered[i].id));
      QueueIsOrdered(run, queue, i + 1);
      if queue[Key(ordered[i + 1].id)].at < ack[Key(ordered[i].id)].at {
        assert !GatedAt(run, i);
        return false;
      }
      assert GatedAt(run, i);
    }
    return true;
  }

  lemma QueueIsOrdered(run: Run, queue: map<string, Event>, i: nat)
    requires Consistent(run) && Indexes(queue, run.queue) && i < |run.queue|
    ensures Key(InSequence(run.queue)[i].id) in queue
    ensures queue[Key(InSequence(run.queue)[i].id)] == InSequence(run.queue)[i]
  {
    hide Key;
    SameEvents(run.queue, i);
    var e := InSequence(run.queue)[i];
    var k :| 0 <= k < |run.queue| && run.queue[k] == e;
    assert queue[Key(run.queue[k].id)] == run.queue[k];
  }

  // ---------------------------------------------------------------- rows

  function Magnitude(n: int): int {
    if n < 0 then -n else n
  }

  /** One row from four readings; an error when one is out of window or an interval is negative. */
  function RowOf(q: Event, t: Event, r: Event, a: Event, clocks: Clocks): (row: Option<Row>) {
    var cq := Correct(q.at, clocks.aPre, clocks.aPost);
    var ct := Correct(t.at, clocks.aPre, clocks.aPost);
    var cr := Correct(r.at, clocks.bPre, clocks.bPost);
    var ca := Correct(a.at, clocks.aPre, clocks.aPost);
    if cq.None? || ct.None? || cr.None? || ca.None? then None
    else
      var latency := cr.value.host - cq.value.host;
      var queueToTx := ct.value.host - cq.value.host;
      var txToRx := cr.value.host - ct.value.host;
      var queueToAck := ca.value.host - cq.value.host;
      if latency < 0 || queueToTx < 0 || txToRx < 0 || queueToAck < 0 then None
      else if Magnitude(latency - (queueToTx + txToRx)) > TOLERANCE then None
      else Some(Row(q.sequence, Key(q.id), q.at, t.at, r.at, a.at,
                    cq.value.host, ct.value.host, cr.value.host, ca.value.host,
                    latency, queueToTx, txToRx, queueToAck,
                    cq.value.offset, cr.value.offset, cq.value.uncertainty + cr.value.uncertainty))
  }

  /** A column holds the corrected host time of a reading. */
  predicate CorrectedTo(at: int, pre: Anchor, post: Anchor, host: int) {
    var c := Correct(at, pre, post);
    c.Some? && c.value.host == host
  }

  /**
    * What a row says of four events: the sender's clock times queueing, sending and the
    * acknowledgement, the receiver's the reception, and each interval is the difference of its ends.
    */
  predicate Describes(row: Row, q: Event, t: Event, r: Event, a: Event, clocks: Clocks) {
    && row.sequence == q.sequence && row.id == Key(q.id)
    && row.queueVm == q.at && row.txVm == t.at && row.rxVm == r.at && row.ackVm == a.at
    && CorrectedTo(q.at, clocks.aPre, clocks.aPost, row.queue)
    && CorrectedTo(t.at, clocks.aPre, clocks.aPost, row.tx)
    && CorrectedTo(r.at, clocks.bPre, clocks.bPost, row.rx)
    && CorrectedTo(a.at, clocks.aPre, clocks.aPost, row.ack)
    && row.queueToTx == row.tx - row.queue && row.txToRx == row.rx - row.tx
    && row.latency == row.rx - row.queue && row.queueToAck == row.ack - row.queue
    && row.senderOffset == Correct(q.at, clocks.aPre, clocks.aPost).value.offset
    && row.receiverOffset == Correct(r.at, clocks.bPre, clocks.bPost).value.offset
    && row.uncertainty == Correct(q.at, clocks.aPre, clocks.aPost).value.uncertainty
                          + Correct(r.at, clocks.bPre, clocks.bPost).value.uncertainty
  }

  /** A row comes out of four events exactly when it describes them and none of its intervals is negative. */
  lemma RowOfIff(q: Event, t: Event, r: Event, a: Event, clocks: Clocks, row: Row)
    ensures RowOf(q, t, r, a, clocks) == Some(row) <==>
              Describes(row, q, t, r, a, clocks) && row.queue <= row.tx <= row.rx && row.queue <= row.ack
  {
    hide Correct, Key;
  }

  ghost function RowAt(run: Run, clocks: Clocks, i: nat): Option<Row>
    requires Consistent(run) && i < |run.queue|
  {
    Known(run, i);
    var e := InSequence(run.queue)[i];
    RowOf(e, Lookup(run.tx, Key(e.id)), Lookup(run.rx, Key(e.id)), Lookup(run.ack, Key(e.id)), clocks)
  }

  /** The rows of a run: one per message, in sequence. */
  ghost predicate RowsOf(run: Run, clocks: Clocks, rows: seq<Row>) {
    && Accepted(run)
    && |rows| == |run.queue|
    && forall i: nat | i < |rows| :: RowAt(run, clocks, i) == Some(rows[i])
  }

  /** Row i describes the queue event with number i + 1 and, under the same key, one event of each other log. */
  ghost predicate DescribesMessage(run: Run, clocks: Clocks, row: Row, i: nat) {
    exists q, t, r, a ::
      && q in run.queue && t in run.tx && r in run.rx && a in run.ack
      && q.sequence == i + 1 && Key(q.id) == Key(t.id) == Key(r.id) == Key(a.id)
      && Describes(row, q, t, r, a, clocks)
  }

  lemma RowDescribes(run: Run, clocks: Clocks, rows: seq<Row>, i: nat)
    requires RowsOf(run, clocks, rows) && i < |rows|
    ensures DescribesMessage(run, clocks, rows[i], i)
  {
    hide Key, Keys, Unique, RowOf, InSequence, Describes;
    Known(run, i);
    SameEvents(run.queue, i);
    var q := InSequence(run.queue)[i];
    var t, r, a := Lookup(run.tx, Key(q.id)), Lookup(run.rx, Key(q.id)), Lookup(run.ack, Key(q.id));
    assert RowAt(run, clocks, i) == Some(rows[i]);
    RowOfIff(q, t, r, a, clocks, rows[i]);
    assert q.sequence == i + 1;
  }

  method BuildRows(run: Run, clocks: Clocks) returns (r: Option<seq<Row>>)
    ensures r.Some? ==> RowsOf(run, clocks, r.value)
    ensures r.Some? ==> |r.value| == run.requested && forall i: nat | i < |r.value| :: DescribesMessage(run, clocks, r.value[i], i)
    ensures r.None? ==> forall rows :: !RowsOf(run, clocks, rows)
  {
    hide Unique, Keys, InSequence, RowOf;
    var ok := Validate(run);
    if !ok {
      return None;
    }
    var consistent, queue, tx, rx, ack := IndexAll(run);
    var ordered := InSequence(run.queue);
    var rows: seq<Row> := [];
    for i := 0 to |ordered|
      invariant |rows| == i
      invariant forall k: nat | k < i :: RowAt(run, clocks, k) == Some(rows[k])
    {
      var key := Key(ordered[i].id);
      Known(run, i);
      LookupIs(tx, run.tx, key);
      LookupIs(rx, run.rx, key);
      LookupIs(ack, run.ack, key);
      var row := RowOf(ordered[i], tx[key], rx[key], ack[key], clocks);
      assert RowAt(run, clocks, i) == row;
      if row.None? {
        return None;
      }
      rows := rows + [row.value];
    }
    forall i: nat | i < |rows|
      ensures DescribesMessage(run, clocks, rows[i], i)
    {
      RowDescribes(run, clocks, rows, i);
    }
    return Some(rows);
  }

  // ---------------------------------------------------------------- what acceptance gives

  /** Every interval follows every earlier one. */
  predicate OneAfterTheOther(rows: seq<Row>) {
    forall i, j | 0 <= i < j < |rows| :: rows[i].ack <= rows[j].queue
  }

  /** The parts of an accepted row: ordered, non-negative, each the difference of its ends, and adding up exactly. */
  lemma RowParts(q: Event, t: Event, r: Event, a: Event, clocks: Clocks)
    ensures var row := RowOf(q, t, r, a, clocks);
      row.Some? ==>
        && Describes(row.value, q, t, r, a, clocks)
        && row.value.queue <= row.value.tx <= row.value.rx && row.value.queue <= row.value.ack
        && row.value.latency == row.value.queueToTx + row.value.txToRx
  {
    var row := RowOf(q, t, r, a, clocks);
    if row.Some? {
      RowOfIff(q, t, r, a, clocks, row.value);
    }
    hide RowOf;
  }

  /** The decomposition check never rejects: the parts of the latency always add up. */
  lemma RejectedIff(q: Event, t: Event, r: Event, a: Event, clocks: Clocks)
    ensures
      var cq := Correct(q.at, clocks.aPre, clocks.aPost);
      var ct := Correct(t.at, clocks.aPre, clocks.aPost);
      var cr := Correct(r.at, clocks.bPre, clocks.bPost);
      var ca := Correct(a.at, clocks.aPre, clocks.aPost);
      RowOf(q, t, r, a, clocks).Some? <==>
        && cq.Some? && ct.Some? && cr.Some? && ca.Some?
        && cq.value.host <= ct.value.host <= cr.value.host && cq.value.host <= ca.value.host
  {
  }

  lemma NextRow(run: Run, clocks: Clocks, rows: seq<Row>, i: nat)
    requires RowsOf(run, clocks, rows) && i + 1 < |rows|
    requires KeepsOrder(clocks.aPre, clocks.aPost)
    ensures rows[i].queue <= rows[i].ack <= rows[i + 1].queue
  {
    assert GatedAt(run, i);
    assert RowAt(run, clocks, i) == Some(rows[i]);
    assert RowAt(run, clocks, i + 1) == Some(rows[i + 1]);
  }

  lemma {:induction false} RowsInOrder(run: Run, clocks: Clocks, rows: seq<Row>, i: nat, j: nat)
    requires RowsOf(run, clocks, rows) && i < j < |rows|
    requires KeepsOrder(clocks.aPre, clocks.aPost)
    ensures rows[i].ack <= rows[j].queue
    decreases j
  {
    hide RowsOf, KeepsOrder;
    NextRow(run, clocks, rows, j - 1);
    if i < j - 1 {
      RowsInOrder(run, clocks, rows, i, j - 1);
    }
  }

  /** A pair of messages exchanged at the two calibrations themselves. */
  function AtTheAnchors(pre: Anchor, post: Anchor): Run {
    var log := [Event("a", pre.vm, 1), Event("b", post.vm, 2)];
    Run(true, true, true, 2, log, log, log, log)
  }

  /** Every accepted run under a sender's calibrations has its corrected intervals one after the other. */
  ghost predicate Gates(pre: Anchor, post: Anchor) {
    forall run: Run, bPre: Anchor, bPost: Anchor, rows: seq<Row> | RowsOf(run, Clocks(pre, post, bPre, bPost), rows) ::
      OneAfterTheOther(rows)
  }

  /**
    * For all calibrations of a sender: every accepted run has its corrected queue-to-acknowledge
    * intervals one after the other exactly when no run is accepted, or the host times the two
    * calibrations stand for are in order.
    */
  lemma GatingIff(pre: Anchor, post: Anchor)
    ensures Gates(pre, post) <==> (pre.vm < post.vm ==> HostAt(pre) <= HostAt(post))
  {
    KeepsOrderIff(pre, post);
    if pre.vm < post.vm && HostAt(pre) > HostAt(post) {
      var rows := OutOfOrder(pre, post);
    } else {
      forall run: Run, bPre: Anchor, bPost: Anchor, rows: seq<Row> | RowsOf(run, Clocks(pre, post, bPre, bPost), rows)
        ensures OneAfterTheOther(rows)
      {
        forall i, j | 0 <= i < j < |rows|
          ensures rows[i].ack <= rows[j].queue
        {
          RowsInOrder(run, Clocks(pre, post, bPre, bPost), rows, i, j);
        }
      }
    }
  }

  /** With offsets recorded as the calibration does, the measured host times decide. */
  lemma FaithfulGating(pre: Anchor, post: Anchor)
    requires Faithful(pre) && Faithful(post) && pre.vm < post.vm
    ensures Gates(pre, post) <==> pre.hostMid <= post.hostMid
  {
    GatingIff(pre, post);
  }

  lemma OutOfOrder(pre: Anchor, post: Anchor) returns (rows: seq<Row>)
    requires pre.vm < post.vm && HostAt(pre) > HostAt(post)
    ensures RowsOf(AtTheAnchors(pre, post), Clocks(pre, post, pre, post), rows)
    ensures !OneAfterTheOther(rows)
  {
    var run, clocks := AtTheAnchors(pre, post), Clocks(pre, post, pre, post);
    AnchorsAccepted(pre, post);
    AnchorRows(pre, post);
    rows := [RowAt(run, clocks, 0).value, RowAt(run, clocks, 1).value];
  }

  lemma AnchorKeys()
    ensures Key("a") == "a" && Key("b") == "b"
  {
  }

  lemma AnchorsAccepted(pre: Anchor, post: Anchor)
    requires pre.vm < post.vm
    ensures Accepted(AtTheAnchors(pre, post))
    ensures InSequence(AtTheAnchors(pre, post).queue) == AtTheAnchors(pre, post).queue
  {
    var run := AtTheAnchors(pre, post);
    var log := run.queue;
    AnchorKeys();
    assert Sorting.Sort(log[1..], SequenceKey) == [log[1]];
    assert InSequence(log) == log;
    assert Unique(log);
    assert GatedAt(run, 0);
  }

  lemma AnchorRows(pre: Anchor, post: Anchor)
    requires pre.vm < post.vm
    ensures var run, clocks := AtTheAnchors(pre, post), Clocks(pre, post, pre, post);
      && Accepted(run)
      && RowAt(run, clocks, 0).Some? && RowAt(run, clocks, 0).value.ack == HostAt(pre)
      && RowAt(run, clocks, 1).Some? && RowAt(run, clocks, 1).value.queue == HostAt(post)
  {
    AnchorsAccepted(pre, post);
    AnchorsExact(pre, post);
    AnchorKeys();
  }
}
