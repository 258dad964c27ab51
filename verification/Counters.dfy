/** What a client's message counter counts, and when it makes the client rotate its keys. */
module Counters {
  import opened Common
  import opened Crypto
  import opened ClientCore
  import opened LossyMail
  import opened Relay
  import opened Theorems

  // ---------------------------------------------------------------- counting without the counter

  /** A text was sent: the history has one more entry, an outbound one. */
  predicate SentText(p: Local, q: Local) {
    |q.history| == |p.history| + 1 && q.history[|p.history|].direction == Outbound
  }

  /** The client changed the mailbox it sends to, or began to wait for a rotation answer. */
  predicate Restarts(p: Local, q: Local) {
    q.contact.txId != p.contact.txId || (p.contact.pending.None? && q.contact.pending.Some?)
  }

  /** The count after a step, given the count before it. */
  function Counted(n: nat, p: Local, q: Local): nat {
    (if Restarts(p, q) then 0 else n) + (if SentText(p, q) then 1 else 0)
  }

  /** The texts w sent in a run since it last changed keys or started a rotation. */
  function TextsSince(s: World, steps: seq<Step>, w: Who, n: nat): nat
    decreases |steps|
  {
    if steps == [] then n
    else
      var t := Do(s, steps[0]);
      TextsSince(t, steps[1..], w, Counted(n, s.At(w).local, t.At(w).local))
  }

  // ---------------------------------------------------------------- one step

  /** The counter holds the count modulo 2^32; an idle client that rotates has not let it wrap. */
  predicate CounterIs(p: Local, n: nat) {
    && p.contact.counter == n % UINT32_RANGE
    && (p.contact.pfs == Idle && p.interval > 0 ==> p.contact.counter == n)
  }

  lemma CountUp(n: nat)
    ensures (n % UINT32_RANGE + 1) % UINT32_RANGE == (n + 1) % UINT32_RANGE
  {
  }

  lemma ActionsCount(a: Abs, w: Who, data: seq<byte>, n: nat)
    requires LocalOk(a, w) && CounterIs(a.At(w), n)
    ensures var p := a.At(w);
            var q := Connect(p).local;
            CounterIs(q, Counted(n, p, q))
    ensures var p := a.At(w);
            var q := Send(p, data).local;
            CounterIs(q, Counted(n, p, q))
  {
    CountUp(n);
    hide MailboxOk, OldOk;
  }

  /** Answering or completing moves to another mailbox and starts the count again. */
  lemma RotationsCount(p: Local, key: PublicKey, s: Signature, n: nat)
    requires CounterIs(p, n) && p.contact.pending != Some(Sender(p.contact.txId))
    requires Sender(p.contact.txId) != Ephemeral(p.me, p.generated) && (p.contact.pfs == Idle ==> p.contact.pending.None?)
    ensures var q := HandleRotateRequest(p, key, s).local;
            CounterIs(q, Counted(n, p, q))
    ensures var q := HandleRotateAck(p, key, s).local;
            CounterIs(q, Counted(n, p, q))
  {
  }

  lemma OpenedCounts(a: Abs, w: Who, usedOldKey: bool)
    requires LocalOk(a, w)
    ensures var p := a.At(w).(contact := DropOld(a.At(w).contact, usedOldKey));
            && p.contact.pending != Some(Sender(p.contact.txId))
            && Sender(p.contact.txId) != Ephemeral(p.me, p.generated)
            && (p.contact.pfs == Idle ==> p.contact.pending.None?)
  {
  }

  /** Whatever frame arrives, from whomever. */
  lemma ReceiveCounts(a: Abs, w: Who, f: MailFrame, n: nat)
    requires LocalOk(a, w) && CounterIs(a.At(w), n)
    ensures var p := a.At(w);
            var q := Receive(p, f).local;
            CounterIs(q, Counted(n, p, q))
  {
    hide LocalOk, CounterIs, Counted, ProcessPush, ProcessAck;
    var p := a.At(w);
    var usedOldKey := p.contact.oldRxId == Some(f.mailbox);
    StandingCounts(p, n);
    PushCounts(a, w, usedOldKey, f.payload, n);
    AckCounts(p, usedOldKey, f.payload, n);
  }

  lemma PushCounts(a: Abs, w: Who, usedOldKey: bool, payload: Payload, n: nat)
    requires LocalOk(a, w) && CounterIs(a.At(w), n)
    ensures var p := a.At(w);
            var q := ProcessPush(p, usedOldKey, payload).local;
            CounterIs(q, Counted(n, p, q))
  {
    hide LocalOk, HandleRotateRequest, HandleRotateAck;
    var p := a.At(w);
    var o := p.(contact := DropOld(p.contact, usedOldKey));
    OpenedCounts(a, w, usedOldKey);
    if payload.Sealed? && payload.plain.RotateRequest? {
      RotationsCount(o, payload.plain.key, payload.plain.signature, n);
      SameCounted(p, o, HandleRotateRequest(o, payload.plain.key, payload.plain.signature).local, n);
    } else if payload.Sealed? && payload.plain.RotateAck? {
      RotationsCount(o, payload.plain.key, payload.plain.signature, n);
      SameCounted(p, o, HandleRotateAck(o, payload.plain.key, payload.plain.signature).local, n);
    } else {
      hide Open;
    }
  }

  /** Retiring an old mailbox is no restart. */
  lemma SameCounted(p: Local, o: Local, q: Local, n: nat)
    requires o.history == p.history && o.contact.txId == p.contact.txId && o.contact.pending == p.contact.pending
    ensures Counted(n, o, q) == Counted(n, p, q)
  {
  }

  lemma AckCounts(p: Local, usedOldKey: bool, payload: Payload, n: nat)
    requires CounterIs(p, n)
    ensures var q := ProcessAck(p, usedOldKey, payload).local;
            CounterIs(q, Counted(n, p, q))
  {
    hide UpdateStatus;
  }

  lemma StepCounts(s: World, step: Step, w: Who, n: nat)
    requires RunOk(s) && CounterIs(s.At(w).local, n)
    ensures CounterIs(Do(s, step).At(w).local, Counted(n, s.At(w).local, Do(s, step).At(w).local))
  {
    hide RunOk, Base, WellAddressed, LocalOk, CounterIs, Counted, Connect, Send, Receive;
    RunOkBase(s);
    LocalOf(Alpha(s), w);
    var p := s.At(w).local;
    assert CounterIs(p, Counted(n, p, p)) by { StandingCounts(p, n); }
    if step.w == w {
      ActionsCount(Alpha(s), w, if step.DoSend? then step.data else [], n);
      if step.DoDeliver? && s.At(w).down != [] {
        ReceiveCounts(Alpha(s), w, s.At(w).down[0], n);
      }
    }
    assert step.DoServe? ==> Do(s, step).At(w).local == p by { ServeStands(s, step.w, w); }
  }

  lemma StandingCounts(p: Local, n: nat)
    requires CounterIs(p, n)
    ensures CounterIs(p, Counted(n, p, p))
  {
  }

  lemma ServeStands(s: World, x: Who, w: Who)
    ensures ServeNext(s, x).At(w).local == s.At(w).local
  {
    if s.At(x).up != [] {
      ServeKeepsLocals(s, x);
    }
  }

  lemma {:induction false} RunCounts(s: World, steps: seq<Step>, w: Who, n: nat)
    requires RunOk(s) && CounterIs(s.At(w).local, n)
    ensures RunOk(Exec(s, steps)) && CounterIs(Exec(s, steps).At(w).local, TextsSince(s, steps, w, n))
    decreases |steps|
  {
    hide RunOk, Do, CounterIs, Counted;
    if steps != [] {
      StepRefines(s, steps[0]);
      StepCounts(s, steps[0], w, n);
      RunCounts(Do(s, steps[0]), steps[1..], w, Counted(n, s.At(w).local, Do(s, steps[0]).At(w).local));
    }
  }

  // ---------------------------------------------------------------- runs

  /**
    * In every run, crossings included, a client's counter is the number of texts it has sent since it last
    * changed keys or started a rotation, modulo 2^32; while an idle client rotates at all, it is that number.
    */
  lemma CounterCountsTexts(g: Config, steps: seq<Step>, w: Who)
    requires ValidConfig(g)
    ensures var p := Exec(Init(g), steps).At(w).local;
            var n := TextsSince(Init(g), steps, w, 0);
            && p.contact.counter == n % UINT32_RANGE
            && (p.contact.pfs == Idle && p.interval > 0 ==> p.contact.counter == n)
  {
    InitOk(g);
    hide RunOk, Exec, TextsSince;
    RunCounts(Init(g), steps, w, 0);
  }

  /**
    * In every run, an idle client past the initial handshake starts a rotation with its next text exactly
    * when rotation is switched on and it has sent as many texts as its interval since its last key change.
    */
  lemma RotatesIff(g: Config, steps: seq<Step>, w: Who, data: seq<byte>)
    requires ValidConfig(g)
    requires var c := Exec(Init(g), steps).At(w).local.contact; c.complete && c.pfs == Idle
    ensures var p := Exec(Init(g), steps).At(w).local;
            var q := Send(p, data).local;
            && (q.contact.pfs == RotationRequested <==>
                  p.interval > 0 && TextsSince(Init(g), steps, w, 0) == p.interval)
            && SentText(p, q)
  {
    CounterCountsTexts(g, steps, w);
    CounterBounded(g, steps, w);
    hide Exec, TextsSince;
  }
}
