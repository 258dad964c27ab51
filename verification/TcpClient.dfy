/** The client's side of a connection: answering the challenge, then one frame per timer tick. */
module TcpClient {
  import opened Common
  import opened Wire
  import opened FrameParser
  import opened Session

  const NONCE_RANGE := 0x1_0000_0000_0000_0000

  /** A nonce as it is copied into the response, least significant byte first. */
  function Nonce(n: nat): (r: seq<byte>)
    ensures |r| == NONCE_SIZE
  {
    LeBytes(n, NONCE_SIZE)
  }

  /** Every number below 2^64 has its own eight bytes, and every eight bytes are those of one number. */
  lemma NoncesAreAll(n: nat, s: seq<byte>)
    requires n < NONCE_RANGE && |s| == NONCE_SIZE
    ensures FromLe(Nonce(n)) == n
    ensures FromLe(s) < NONCE_RANGE && Nonce(FromLe(s)) == s
    ensures forall i | 0 <= i < NONCE_SIZE :: Nonce(n)[i] == n / Pow256(i) % 256
  {
    RangeIs();
    FromLeBytes(n, NONCE_SIZE);
    LeBytesFrom(s);
    forall i | 0 <= i < NONCE_SIZE
      ensures Nonce(n)[i] == n / Pow256(i) % 256
    {
      LeByteAt(n, NONCE_SIZE, i);
    }
  }

  lemma RangeIs()
    ensures Pow256(NONCE_SIZE) == NONCE_RANGE
  {
    Pow256Of4();
    assert Pow256(5) == 256 * Pow256(4);
    assert Pow256(6) == 256 * Pow256(5);
    assert Pow256(7) == 256 * Pow256(6);
    assert Pow256(8) == 256 * Pow256(7);
  }

  /** The n-th nonce tried: counting starts at one and wraps around to zero last. */
  function Tried(n: nat): nat {
    n % NONCE_RANGE
  }

  predicate Solves(pow: seq<byte> -> bool, challenge: seq<byte>, n: nat) {
    pow(challenge + Nonce(Tried(n)))
  }

  /** Some eight bytes prove the work on the challenge; otherwise the search does not end. */
  ghost predicate Solvable(pow: seq<byte> -> bool, challenge: seq<byte>) {
    exists s: seq<byte> :: |s| == NONCE_SIZE && pow(challenge + s)
  }

  /**
    * The search stops at the first nonce, in the order tried, that solves the challenge. When the counter
    * comes round without success it would go on for ever, which is the outcome None.
    */
  method FindNonce(pow: seq<byte> -> bool, challenge: seq<byte>) returns (nonce: Option<nat>, ghost tries: nat)
    ensures nonce.Some? <==> Solvable(pow, challenge)
    ensures nonce.Some? ==>
              && 1 <= tries <= NONCE_RANGE && nonce.value == Tried(tries) && nonce.value < NONCE_RANGE
              && pow(challenge + Nonce(nonce.value))
              && forall n | 1 <= n < tries :: !Solves(pow, challenge, n)
  {
    var n := 0;
    while n < NONCE_RANGE
      invariant n <= NONCE_RANGE
      invariant forall k | 1 <= k <= n :: !Solves(pow, challenge, k)
    {
      n := n + 1;
      var next := Tried(n);
      if pow(challenge + Nonce(next)) {
        assert Solves(pow, challenge, n) && |Nonce(next)| == NONCE_SIZE;
        return Some(next), n;
      }
      assert !Solves(pow, challenge, n);
    }
    forall s: seq<byte> | |s| == NONCE_SIZE
      ensures !pow(challenge + s)
    {
      NoncesAreAll(0, s);
      RoundAgain(pow, challenge, FromLe(s));
    }
    return None, n;
  }

  /** Every nonce comes up in the first round. */
  lemma RoundAgain(pow: seq<byte> -> bool, challenge: seq<byte>, k: nat)
    ensures k < NONCE_RANGE ==> Solves(pow, challenge, k) == pow(challenge + Nonce(k))
    ensures var n := if k % NONCE_RANGE == 0 then NONCE_RANGE else k % NONCE_RANGE;
            1 <= n <= NONCE_RANGE && Solves(pow, challenge, k) == Solves(pow, challenge, n)
  {
    hide Nonce;
    var r := k % NONCE_RANGE;
    TriedOnce(r);
    assert Tried(k) == r;
    hide Tried;
  }

  lemma TriedOnce(r: nat)
    requires r < NONCE_RANGE
    ensures Tried(r) == r && Tried(NONCE_RANGE) == 0
  {
  }

  /** A challenge at which the client's search never ends. */
  ghost predicate Endless(pow: seq<byte> -> bool, f: WireFrame) {
    f.action == AuthChallenge && |f.payload| >= CHALLENGE_SIZE && !Solvable(pow, f.payload[..CHALLENGE_SIZE])
  }

  /** The frames handled before such a challenge. */
  ghost function Worked(pow: seq<byte> -> bool, fs: seq<WireFrame>): seq<WireFrame> {
    if fs == [] || Endless(pow, fs[0]) then [] else [fs[0]] + Worked(pow, fs[1..])
  }

  lemma {:induction false} WorkedConcat(pow: seq<byte> -> bool, fs: seq<WireFrame>, gs: seq<WireFrame>)
    ensures |Worked(pow, fs)| <= |fs|
    ensures Worked(pow, fs + gs) == if Worked(pow, fs) == fs then fs + Worked(pow, gs) else Worked(pow, fs)
  {
    hide Endless;
    if fs == [] {
      assert fs + gs == gs;
    } else {
      assert (fs + gs)[0] == fs[0] && (fs + gs)[1..] == fs[1..] + gs;
      WorkedConcat(pow, fs[1..], gs);
      assert fs == [fs[0]] + fs[1..];
    }
  }

  /** Work that has stopped stays stopped. */
  lemma WorkedStops(pow: seq<byte> -> bool, fs: seq<WireFrame>, gs: seq<WireFrame>)
    requires Worked(pow, fs) != fs
    ensures Worked(pow, fs + gs) == Worked(pow, fs) && Worked(pow, fs + gs) != fs + gs
  {
    WorkedConcat(pow, fs, gs);
    hide Worked;
    assert gs == [] ==> fs + gs == fs;
    assert gs != [] ==> |Worked(pow, fs)| < |fs + gs|;
  }

  lemma {:induction false} WorkedAll(pow: seq<byte> -> bool, fs: seq<WireFrame>)
    requires forall f | f in fs :: !Endless(pow, f)
    ensures Worked(pow, fs) == fs
  {
    hide Endless;
    if fs != [] {
      WorkedAll(pow, fs[1..]);
    }
  }

  /** The frames handed to the receiver: all but challenges, once a challenge has been answered. */
  function DeliveredOf(fs: seq<WireFrame>, authenticated: bool): seq<WireFrame> {
    if fs == [] then []
    else if fs[0].action == AuthChallenge then DeliveredOf(fs[1..], true)
    else (if authenticated then [fs[0]] else []) + DeliveredOf(fs[1..], authenticated)
  }

  /** The first challenge seen: an earlier one, or that of the first challenge frame. */
  function FirstChallenge(fs: seq<WireFrame>, was: Option<seq<byte>>): Option<seq<byte>> {
    if was.Some? || fs == [] then was
    else if fs[0].action == AuthChallenge && |fs[0].payload| >= CHALLENGE_SIZE then Some(fs[0].payload[..CHALLENGE_SIZE])
    else FirstChallenge(fs[1..], was)
  }

  function Later(f: WireFrame, was: Option<seq<byte>>): Option<seq<byte>> {
    if was.None? && f.action == AuthChallenge && |f.payload| >= CHALLENGE_SIZE then Some(f.payload[..CHALLENGE_SIZE]) else was
  }

  /** All but the challenges. */
  function Others(fs: seq<WireFrame>): seq<WireFrame> {
    if fs == [] then [] else (if fs[0].action == AuthChallenge then [] else [fs[0]]) + Others(fs[1..])
  }

  /** Before the first challenge nothing is handed on; from there on everything but challenges is. */
  lemma {:induction false} DeliveredIs(before: seq<WireFrame>, challenge: WireFrame, after: seq<WireFrame>)
    requires challenge.action == AuthChallenge && forall f | f in before :: f.action != AuthChallenge
    ensures DeliveredOf(before, false) == []
    ensures DeliveredOf(before + [challenge] + after, false) == Others(after)
    decreases before
  {
    var fs := before + [challenge] + after;
    if before == [] {
      assert fs[0] == challenge && fs[1..] == after;
      AfterChallenge(after);
    } else {
      assert before[0] in before && fs[0] == before[0] && fs[1..] == before[1..] + [challenge] + after;
      DeliveredIs(before[1..], challenge, after);
    }
  }

  lemma {:induction false} AfterChallenge(fs: seq<WireFrame>)
    ensures DeliveredOf(fs, true) == Others(fs)
  {
    if fs != [] {
      AfterChallenge(fs[1..]);
    }
  }

  lemma StepFirst(fs: seq<WireFrame>, was: Option<seq<byte>>)
    requires fs != [] && FactoryBuilt(fs[0])
    ensures FirstChallenge(fs, was) == FirstChallenge(fs[1..], Later(fs[0], was))
    ensures DeliveredOf(fs, was.Some?)
         == (if fs[0].action != AuthChallenge && was.Some? then [fs[0]] else []) + DeliveredOf(fs[1..], Later(fs[0], was).Some?)
  {
  }

  lemma SingleDelivered(f: WireFrame, was: Option<seq<byte>>)
    ensures DeliveredOf([f], was.Some?) == if f.action != AuthChallenge && was.Some? then [f] else []
    ensures FirstChallenge([f], was) == Later(f, was)
  {
    assert [f][1..] == [];
  }

  lemma {:induction false} DeliveredConcat(fs: seq<WireFrame>, gs: seq<WireFrame>, was: Option<seq<byte>>)
    requires Sendable(fs)
    ensures DeliveredOf(fs + gs, was.Some?)
         == DeliveredOf(fs, was.Some?) + DeliveredOf(gs, FirstChallenge(fs, was).Some?)
    ensures FirstChallenge(fs + gs, was) == FirstChallenge(gs, FirstChallenge(fs, was))
  {
    if fs == [] {
      assert fs + gs == gs;
    } else {
      var f := fs[0];
      assert f in fs && (fs + gs)[0] == f && (fs + gs)[1..] == fs[1..] + gs;
      StepFirst(fs, was);
      StepFirst(fs + gs, was);
      hide DeliveredOf, FirstChallenge, Later;
      DeliveredConcat(fs[1..], gs, Later(f, was));
    }
  }

  class Client {
    const parser: Parser
    const pow: seq<byte> -> bool
    var isAuthenticated: bool
    var isOpen: bool
    var writeQueue: seq<seq<byte>>
    var writeInProgress: bool
    var searching: bool
    ghost var queued: seq<WireFrame>
    ghost var challenged: Option<seq<byte>>

    /**
      * The client queues nothing before its answer to the first challenge, and knows itself
      * authenticated from then on.
      */
    ghost predicate Valid()
      reads this
    {
      && (isAuthenticated <==> queued != [])
      && (isAuthenticated <==> challenged.Some?)
      && (isAuthenticated ==>
            && Proves(pow, challenged.value, queued[0])
            && FactoryBuilt(queued[0]) && |queued[0].payload| == CONTROL_PAYLOAD)
      && QueueOk()
    }

    /** What waits to be written are the last frames queued, in order. */
    ghost predicate QueueOk()
      reads this
    {
      && (writeInProgress ==> writeQueue != [])
      && |writeQueue| <= |queued| && writeQueue == Buffers(queued[|queued| - |writeQueue|..])
    }

    constructor (pow: seq<byte> -> bool)
      ensures Valid() && isOpen && !isAuthenticated && !searching && fresh(parser) && this.pow == pow
      ensures writeQueue == [] && queued == []
      ensures parser.Valid() && parser.Reading() && parser.Pending() == []
    {
      this.pow := pow;
      parser := new Parser();
      isAuthenticated, isOpen := false, true;
      writeQueue, writeInProgress, searching := [], false, false;
      queued, challenged := [], None;
    }

    method DoWrite()
      modifies this`writeInProgress
      ensures writeInProgress == (old(writeInProgress) || writeQueue != [])
    {
      if writeInProgress || writeQueue == [] {
        return;
      }
      writeInProgress := true;
    }

    /** Queues a frame behind all others. */
    method Enqueue(frame: WireFrame)
      requires QueueOk()
      modifies this`writeQueue, this`queued, this`writeInProgress
      ensures queued == old(queued) + [frame] && writeQueue == old(writeQueue) + [Serialize(frame)]
      ensures QueueOk() && writeInProgress
    {
      hide Buffers, Serialize;
      QueueGrows(queued, writeQueue, frame);
      queued := queued + [frame];
      writeQueue := writeQueue + [Serialize(frame)];
      DoWrite();
    }

    /** A timer tick: silent until authenticated, then one frame. */
    method DoCbrTick(next: WireFrame) returns (sent: bool)
      requires Valid() && !searching
      modifies this`writeQueue, this`queued, this`writeInProgress
      ensures Valid() && sent == isAuthenticated
      ensures queued == old(queued) + (if sent then [next] else [])
    {
      if !isAuthenticated {
        return false;
      }
      Enqueue(next);
      return true;
    }

    /** A write completes, with or without error; either way its buffer is gone. */
    method OnWriteDone(error: bool)
      requires Valid() && writeInProgress && !searching
      modifies this`writeInProgress, this`writeQueue
      ensures Valid() && writeQueue == old(writeQueue)[1..]
    {
      hide Buffers, Proves, Serialize, FactoryBuilt;
      QueueShrinks(queued, writeQueue);
      writeInProgress := false;
      writeQueue := writeQueue[1..];
      if error {
        return;
      }
      DoWrite();
    }

    method Answer(challenge: seq<byte>) returns (response: Option<WireFrame>)
      ensures response.Some? <==> Solvable(pow, challenge)
      ensures response.Some? ==>
                && Proves(pow, challenge, response.value)
                && FactoryBuilt(response.value) && |response.value.payload| == CONTROL_PAYLOAD
                && response.value.mailbox == Zeroes(16) && forall i | 8 <= i < CONTROL_PAYLOAD :: response.value.payload[i] == 0
    {
      var nonce, _ := FindNonce(pow, challenge);
      if nonce.None? {
        return None;
      }
      var frame := CreateAuthResponse(ZERO_ID, Nonce(nonce.value));
      assert frame.payload[..NONCE_SIZE] == Nonce(nonce.value);
      return Some(frame);
    }

    /**
      * Answers a challenge with a nonce that solves it, or searches for ever if there is none. The source's
      * check for a short payload is modelled; behind the parser it never applies.
      */
    method HandleAuthChallenge(challenge: seq<byte>) returns (response: Option<WireFrame>)
      requires Valid() && !searching
      modifies this`writeQueue, this`queued, this`writeInProgress, this`isOpen, this`searching
      ensures isOpen == (old(isOpen) && |challenge| >= CHALLENGE_SIZE)
      ensures searching <==> |challenge| >= CHALLENGE_SIZE && !Solvable(pow, challenge[..CHALLENGE_SIZE])
      ensures response.Some? <==> |challenge| >= CHALLENGE_SIZE && !searching
      ensures queued == old(queued) + (if response.Some? then [response.value] else [])
      ensures response.Some? ==>
                && Proves(pow, challenge[..CHALLENGE_SIZE], response.value)
                && FactoryBuilt(response.value) && |response.value.payload| == CONTROL_PAYLOAD
                && response.value.mailbox == Zeroes(16) && forall i | 8 <= i < CONTROL_PAYLOAD :: response.value.payload[i] == 0
      ensures QueueOk() && isAuthenticated == old(isAuthenticated)
      ensures |queued| - |writeQueue| == |old(queued)| - |old(writeQueue)|
    {
      hide Proves, Solvable, FactoryBuilt, Buffers, Serialize;
      if |challenge| < CHALLENGE_SIZE {
        isOpen := false;
        return None;
      }
      response := Answer(challenge[..CHALLENGE_SIZE]);
      searching := response.None?;
      if searching {
        return;
      }
      Enqueue(response.value);
    }

    /** One frame from the relay. Behind the parser every challenge is long enough to be answered. */
    method HandleFrame(frame: WireFrame) returns (given: seq<WireFrame>)
      requires Valid() && FactoryBuilt(frame) && !searching
      modifies this`writeQueue, this`queued, this`writeInProgress, this`isOpen, this`isAuthenticated, this`challenged, this`searching
      ensures Valid() && isOpen == old(isOpen)
      ensures searching <==> Endless(pow, frame)
      ensures given == if searching then [] else DeliveredOf([frame], old(isAuthenticated))
      ensures challenged == if searching then old(challenged) else FirstChallenge([frame], old(challenged))
      ensures |queued| - |writeQueue| == |old(queued)| - |old(writeQueue)|
    {
      hide Proves, Solvable, Buffers, DeliveredOf, FirstChallenge;
      SingleDelivered(frame, challenged);
      if frame.action == AuthChallenge {
        var _ := HandleAuthChallenge(frame.payload);
        if searching {
          return [];
        }
        isAuthenticated := true;
        if challenged.None? {
          challenged := Some(frame.payload[..CHALLENGE_SIZE]);
        }
        given := [];
      } else {
        given := if isAuthenticated then [frame] else [];
      }
    }

    /** What has been worked off so far, against the decoder on everything received. */
    ghost predicate Midway(whole: seq<byte>, was: Option<seq<byte>>, seen: seq<WireFrame>, delivered: seq<WireFrame>, data: seq<byte>)
      reads this, parser
    {
      && Valid() && isOpen && !searching && parser.Valid() && parser.Reading()
      && Resumes(whole, seen, parser.Pending() + data) && Sendable(seen) && Worked(pow, seen) == seen
      && delivered == DeliveredOf(seen, was.Some?)
      && challenged == FirstChallenge(seen, was)
    }

    /** The frames that became ready in one round, at most one, each handled in turn. */
    method HandleAll(frames: seq<WireFrame>, ghost seen: seq<WireFrame>, ghost was: Option<seq<byte>>, delivered: seq<WireFrame>)
      returns (more: seq<WireFrame>)
      requires Valid() && !searching && Sendable(frames) && Sendable(seen) && Worked(pow, seen) == seen
      requires delivered == DeliveredOf(seen, was.Some?) && challenged == FirstChallenge(seen, was)
      modifies this`writeQueue, this`queued, this`writeInProgress, this`isOpen, this`isAuthenticated, this`challenged, this`searching
      ensures Valid() && isOpen == old(isOpen)
      ensures more == DeliveredOf(Worked(pow, seen + frames), was.Some?)
      ensures challenged == FirstChallenge(Worked(pow, seen + frames), was)
      ensures searching <==> Worked(pow, seen + frames) != seen + frames
      ensures |queued| - |writeQueue| == |old(queued)| - |old(writeQueue)|
    {
      hide Worked, Endless, Buffers, Proves, DeliveredOf, FirstChallenge;
      more := delivered;
      assert seen + frames[..0] == seen;
      for i := 0 to |frames|
        invariant Valid() && isOpen == old(isOpen) && !searching
        invariant Worked(pow, seen + frames[..i]) == seen + frames[..i]
        invariant more == DeliveredOf(seen + frames[..i], was.Some?)
        invariant challenged == FirstChallenge(seen + frames[..i], was)
        invariant |queued| - |writeQueue| == |old(queued)| - |old(writeQueue)|
      {
        ghost var before := seen + frames[..i];
        assert seen + frames == before + ([frames[i]] + frames[i + 1..]);
        assert before + [frames[i]] == seen + frames[..i + 1];
        var given := HandleFrame(frames[i]);
        WorkedNext(pow, before, frames[i], frames[i + 1..]);
        if searching {
          return;
        }
        DeliveredConcat(before, [frames[i]], was);
        more := more + given;
      }
      assert frames[..|frames|] == frames;
    }

    /**
      * Bytes arrive from the relay. The receiver gets the frames of the one-shot decoder, without
      * challenges and without anything before the first one; the client closes only on malformed bytes.
      */
    method OnRead(chunk: seq<byte>) returns (delivered: seq<WireFrame>)
      requires Valid() && isOpen && !searching && parser.Valid() && parser.Reading()
      modifies this`writeQueue, this`queued, this`writeInProgress, this`isOpen, this`isAuthenticated, this`challenged
      modifies this`searching, parser
      ensures Valid() && parser.Valid()
      ensures var d := Decode(old(parser.Pending()) + chunk);
              var worked := Worked(pow, d.frames);
              && delivered == DeliveredOf(worked, old(isAuthenticated))
              && challenged == FirstChallenge(worked, old(challenged))
              && (searching <==> worked != d.frames)
              && isOpen == (searching || !d.malformed)
              && (isOpen && !searching ==> parser.Reading() && parser.Pending() == d.rest)
      ensures |queued| - |writeQueue| == |old(queued)| - |old(writeQueue)|
    {
      hide Decode, Endless, Worked, DeliveredOf, FirstChallenge, Buffers, Proves, FactoryBuilt;
      ghost var whole := parser.Pending() + chunk;
      ghost var seen: seq<WireFrame> := [];
      var data := chunk;
      var done := false;
      delivered := [];
      assert seen + Decode(whole).frames == Decode(whole).frames;
      NothingDelivered(challenged);
      NothingWorked(pow);
      while data != [] && !done
        invariant if done then Finished(whole, old(challenged), delivered) else Midway(whole, old(challenged), seen, delivered, data)
        invariant |queued| - |writeQueue| == |old(queued)| - |old(writeQueue)|
        decreases |data|
      {
        data, seen, delivered, done := ReadOn(whole, old(challenged), seen, delivered, data);
      }
      if !done {
        parser.StateDecodes();
        assert parser.Pending() + [] == parser.Pending() && seen + [] == seen;
      }
    }

    /** How things stand once all bytes received are worked off, or the client has closed or is caught in a search. */
    ghost predicate Finished(whole: seq<byte>, was: Option<seq<byte>>, delivered: seq<WireFrame>)
      reads this, parser
    {
      var d := Decode(whole);
      var worked := Worked(pow, d.frames);
      && Valid() && parser.Valid()
      && delivered == DeliveredOf(worked, was.Some?)
      && challenged == FirstChallenge(worked, was)
      && (searching <==> worked != d.frames)
      && isOpen == (searching || !d.malformed)
      && (isOpen && !searching ==> parser.Reading() && parser.Pending() == d.rest)
    }

    /** One round: feed the parser, then handle what became ready. */
    method ReadOn(ghost whole: seq<byte>, ghost was: Option<seq<byte>>, ghost seen: seq<WireFrame>, delivered: seq<WireFrame>, data: seq<byte>)
      returns (rest: seq<byte>, ghost now: seq<WireFrame>, more: seq<WireFrame>, done: bool)
      requires Midway(whole, was, seen, delivered, data) && data != []
      modifies this`writeQueue, this`queued, this`writeInProgress, this`isOpen, this`isAuthenticated, this`challenged
      modifies this`searching, parser
      ensures |rest| < |data|
      ensures if done then Finished(whole, was, more) else Midway(whole, was, now, more, rest)
      ensures |queued| - |writeQueue| == |old(queued)| - |old(writeQueue)|
    {
      hide Decode, Endless, Worked, DeliveredOf, FirstChallenge, Buffers, Proves, FactoryBuilt;
      now, more, done := seen, delivered, false;
      var frames, left, sound := ReadRound(parser, whole, seen, data);
      rest := left;
      if !sound {
        isOpen, done := false, true;
        return;
      }
      SendableConcat(seen, frames);
      more := HandleAll(frames, seen, was, delivered);
      now := seen + frames;
      if searching {
        WorkedStops(pow, now, Decode(parser.Pending() + rest).frames);
        done := true;
      }
    }
  }

  lemma SendableConcat(fs: seq<WireFrame>, gs: seq<WireFrame>)
    requires Sendable(fs) && Sendable(gs)
    ensures Sendable(fs + gs)
  {
  }

  lemma QueueGrows(queued: seq<WireFrame>, waiting: seq<seq<byte>>, f: WireFrame)
    requires |waiting| <= |queued| && waiting == Buffers(queued[|queued| - |waiting|..])
    ensures waiting + [Serialize(f)] == Buffers((queued + [f])[|queued| - |waiting|..])
  {
    hide Serialize;
    var k := |queued| - |waiting|;
    IdsSnoc(queued[k..], f);
    assert (queued + [f])[k..] == queued[k..] + [f];
  }

  lemma QueueShrinks(queued: seq<WireFrame>, waiting: seq<seq<byte>>)
    requires 0 < |waiting| <= |queued| && waiting == Buffers(queued[|queued| - |waiting|..])
    ensures waiting[1..] == Buffers(queued[|queued| - |waiting[1..]|..])
  {
    hide Serialize;
    var k := |queued| - |waiting|;
    assert queued[k..][1..] == queued[k + 1..];
  }

  /** The work on a stream, one frame further on: all of it so far, or none from here on. */
  lemma WorkedNext(pow: seq<byte> -> bool, done: seq<WireFrame>, f: WireFrame, rest: seq<WireFrame>)
    requires Worked(pow, done) == done
    ensures Endless(pow, f) ==> Worked(pow, done + ([f] + rest)) == done != done + ([f] + rest)
    ensures !Endless(pow, f) ==> Worked(pow, done + [f]) == done + [f]
  {
    hide Endless;
    WorkedConcat(pow, done, [f] + rest);
    WorkedConcat(pow, done, [f]);
    assert [f][1..] == [] && done + [] == done;
  }

  lemma NothingWorked(pow: seq<byte> -> bool)
    ensures Worked(pow, []) == []
  {
  }

  lemma NothingDelivered(was: Option<seq<byte>>)
    ensures DeliveredOf([], was.Some?) == [] && FirstChallenge([], was) == was
  {
  }
}
