/** The relay's side of a connection: challenge, proof of work, then pushes and polls. */
module Session {
  import opened Common
  import opened Wire
  import opened FrameParser
  import opened Broker

  const CHALLENGE_SIZE := 32
  const NONCE_SIZE := 8

  const ZERO_ID: Mailbox := Zeroes(MAILBOX_SIZE)

  /** The frame that answers a challenge: a response whose nonce makes the proof of work hold. */
  predicate Proves(pow: seq<byte> -> bool, challenge: seq<byte>, f: WireFrame) {
    f.action == AuthResponse && |f.payload| >= NONCE_SIZE && pow(challenge + f.payload[..NONCE_SIZE])
  }

  /** The handler calls an authenticated client's frames lead to, in order. */
  function CallsOf(fs: seq<WireFrame>): seq<Op<Mailbox, seq<byte>>> {
    if fs == [] then []
    else
      (if IsMail(fs[0]) then [PushOp(fs[0])]
       else if fs[0].action == Poll then [PollOp(fs[0].mailbox)]
       else [])
      + CallsOf(fs[1..])
  }

  /** The mailboxes polled by a list of frames, in order. */
  function PolledIds(fs: seq<WireFrame>): seq<Mailbox> {
    if fs == [] then []
    else (if fs[0].action == Poll then [fs[0].mailbox] else []) + PolledIds(fs[1..])
  }

  /** The answer to one handler call: the frame the broker hands out, or an empty poll answer. */
  function AnswerTo(queues: Queues<Mailbox, seq<byte>>, max: nat, op: Op<Mailbox, seq<byte>>): seq<WireFrame> {
    if op.PushOp? then []
    else
      var got := Apply(queues, max, op).1;
      [if got.Some? then got.value else CreatePoll(op.mid)]
  }

  function AnswersOf(queues: Queues<Mailbox, seq<byte>>, max: nat, ops: seq<Op<Mailbox, seq<byte>>>): seq<WireFrame>
    decreases |ops|
  {
    if ops == [] then []
    else AnswerTo(queues, max, ops[0]) + AnswersOf(Apply(queues, max, ops[0]).0, max, ops[1..])
  }

  function Ids(fs: seq<WireFrame>): seq<Mailbox> {
    if fs == [] then [] else [fs[0].mailbox] + Ids(fs[1..])
  }

  function Buffers(fs: seq<WireFrame>): seq<seq<byte>> {
    if fs == [] then [] else [Serialize(fs[0])] + Buffers(fs[1..])
  }

  lemma {:induction false} CallsOfSnoc(fs: seq<WireFrame>, f: WireFrame)
    ensures CallsOf(fs + [f]) == CallsOf(fs) + CallsOf([f])
    ensures PolledIds(fs + [f]) == PolledIds(fs) + PolledIds([f])
  {
    if fs == [] {
      assert fs + [f] == [f];
    } else {
      assert (fs + [f])[0] == fs[0] && (fs + [f])[1..] == fs[1..] + [f];
      CallsOfCons(fs);
      CallsOfCons(fs + [f]);
      hide CallsOf, PolledIds;
      CallsOfSnoc(fs[1..], f);
    }
  }

  lemma CallsOfCons(fs: seq<WireFrame>)
    requires fs != []
    ensures CallsOf(fs) == CallsOf([fs[0]]) + CallsOf(fs[1..])
    ensures PolledIds(fs) == PolledIds([fs[0]]) + PolledIds(fs[1..])
  {
    SingleFrame(fs[0]);
    hide Run, AnswersOf;
  }

  lemma {:induction false} IdsSnoc(fs: seq<WireFrame>, f: WireFrame)
    ensures Ids(fs + [f]) == Ids(fs) + [f.mailbox]
    ensures Buffers(fs + [f]) == Buffers(fs) + [Serialize(f)]
  {
    if fs == [] {
      assert fs + [f] == [f];
    } else {
      assert (fs + [f])[1..] == fs[1..] + [f];
      IdsSnoc(fs[1..], f);
    }
  }

  lemma {:induction false} RunConcat(queues: Queues<Mailbox, seq<byte>>, max: nat, xs: seq<Op<Mailbox, seq<byte>>>, ys: seq<Op<Mailbox, seq<byte>>>)
    ensures Run(queues, max, xs + ys) == Run(Run(queues, max, xs), max, ys)
    ensures AnswersOf(queues, max, xs + ys) == AnswersOf(queues, max, xs) + AnswersOf(Run(queues, max, xs), max, ys)
    decreases |xs|
  {
    hide Apply, AnswerTo;
    if xs == [] {
      assert xs + ys == ys;
    } else {
      assert (xs + ys)[0] == xs[0] && (xs + ys)[1..] == xs[1..] + ys;
      RunConcat(Apply(queues, max, xs[0]).0, max, xs[1..], ys);
    }
  }

  class TcpSession {
    const broker: MessageBroker<Mailbox, seq<byte>>
    const parser: Parser
    const pow: seq<byte> -> bool
    const currentChallenge: seq<byte>
    var authenticated: bool
    var isOpen: bool
    var writeQueue: seq<seq<byte>>
    var writeInProgress: bool
    var transmitted: seq<seq<byte>>

    // The whole conversation so far, for stating what the session guarantees.
    ghost var stream: seq<byte>
    ghost var handled: seq<WireFrame>
    ghost var calls: seq<Op<Mailbox, seq<byte>>>
    ghost var answers: seq<WireFrame>

    ghost function ChallengeFrame(): WireFrame
    {
      CreateAuthChallenge(ZERO_ID, currentChallenge)
    }

    /** Everything ever queued for writing: the challenge, then the answers. */
    ghost function Output(): seq<seq<byte>>
      reads this
    {
      Buffers([ChallengeFrame()] + answers)
    }

    /**
      * What was handled and what came of it. Nothing reaches the broker unless the first frame proves
      * the work; then every later frame does, in order, and every poll has exactly one answer, for its
      * own mailbox.
      */
    ghost predicate Safe()
      reads this
    {
      if handled != [] && Proves(pow, currentChallenge, handled[0]) then
        authenticated && calls == CallsOf(handled[1..]) && Ids(answers) == PolledIds(handled[1..])
      else
        !authenticated && calls == [] && answers == [] && (handled != [] ==> !isOpen)
    }

    /** The frames handled are those of the bytes received, all of them as long as the connection is open. */
    ghost predicate InStep()
      reads this, parser
    {
      && handled <= Decode(stream).frames
      && (isOpen ==> parser.Valid() && parser.Reading() && Resumes(stream, handled, parser.Pending()))
    }

    /** What went out is a prefix of the output; while open, the rest is queued and a write is under way. */
    ghost predicate WritesOk()
      reads this
    {
      && transmitted <= Output()
      && ((isOpen || writeInProgress) ==> transmitted + writeQueue == Output())
      && (isOpen && writeQueue != [] ==> writeInProgress)
      && (writeInProgress ==> writeQueue != [])
    }

    ghost predicate Valid()
      reads this, parser, broker
    {
      && Safe() && InStep() && WritesOk()
      && Sound(broker.queues, broker.maxMessages)
    }

    /** Starting a session queues the challenge. */
    constructor (broker: MessageBroker<Mailbox, seq<byte>>, pow: seq<byte> -> bool, challenge: seq<byte>)
      requires Sound(broker.queues, broker.maxMessages)
      ensures Valid() && isOpen && fresh(parser) && stream == [] && handled == [] && transmitted == []
      ensures this.broker == broker && this.pow == pow && currentChallenge == challenge
    {
      this.broker, this.pow, currentChallenge := broker, pow, challenge;
      parser := new Parser();
      authenticated, isOpen := false, true;
      writeQueue, writeInProgress := [Serialize(CreateAuthChallenge(ZERO_ID, challenge))], true;
      transmitted := [];
      stream, handled, calls, answers := [], [], [], [];
      new;
      parser.StateDecodes();
      assert [ChallengeFrame()] + answers == [ChallengeFrame()] && Buffers([ChallengeFrame()][1..]) == [];
    }

    // -------------------------------------------------------------- writing

    /** Starts the next write unless one is under way. */
    method ProcessWriteQueue()
      modifies this`writeInProgress
      ensures writeInProgress == (old(writeInProgress) || writeQueue != [])
    {
      if writeInProgress || writeQueue == [] {
        return;
      }
      writeInProgress := true;
    }

    method DoWrite(frame: WireFrame)
      requires WritesOk() && isOpen
      modifies this`writeQueue, this`writeInProgress, this`answers
      ensures answers == old(answers) + [frame]
      ensures WritesOk()
    {
      answers := answers + [frame];
      assert [ChallengeFrame()] + answers == ([ChallengeFrame()] + old(answers)) + [frame];
      IdsSnoc([ChallengeFrame()] + old(answers), frame);
      writeQueue := writeQueue + [Serialize(frame)];
      ProcessWriteQueue();
    }

    /** A write completes; an error closes the connection and nothing more is written. */
    method OnWriteDone(error: bool)
      requires Valid() && writeInProgress
      modifies this`writeInProgress, this`writeQueue, this`transmitted, this`isOpen
      ensures Valid()
      ensures !error ==> transmitted == old(transmitted) + [old(writeQueue)[0]] && isOpen == old(isOpen)
      ensures error ==> transmitted == old(transmitted) && !isOpen && !writeInProgress
    {
      hide Decode, Buffers, Sound, Proves, CallsOf, Ids, PolledIds;
      var front := writeQueue[0];
      writeInProgress := false;
      writeQueue := writeQueue[1..];
      if error {
        isOpen := false;
        return;
      }
      transmitted := transmitted + [front];
      assert transmitted + writeQueue == old(transmitted + writeQueue);
      ProcessWriteQueue();
    }

    // -------------------------------------------------------------- handling frames

    method HandleAuthResponse(frame: WireFrame) returns (ok: bool)
      requires Safe() && WritesOk() && !authenticated && isOpen
      modifies this`authenticated, this`isOpen, this`handled
      ensures handled == old(handled) + [frame]
      ensures ok == Proves(pow, currentChallenge, frame) == isOpen
      ensures Safe() && WritesOk()
    {
      handled := handled + [frame];
      if frame.action != AuthResponse {
        isOpen := false;
        return false;
      }
      if |frame.payload| < NONCE_SIZE {
        isOpen := false;
        return false;
      }
      var combined := currentChallenge + frame.payload[..NONCE_SIZE];
      if pow(combined) {
        authenticated := true;
        return true;
      }
      isOpen := false;
      return false;
    }

    /** The ghost record of one more frame handled. */
    ghost method Note(frame: WireFrame)
      requires Safe() && authenticated
      modifies this`handled, this`calls
      ensures handled == old(handled) + [frame] && calls == old(calls) + CallsOf([frame])
      ensures calls == CallsOf(handled[1..])
      ensures PolledIds(handled[1..]) == PolledIds(old(handled)[1..]) + PolledIds([frame])
      ensures handled[0] == old(handled)[0]
    {
      CallsOfSnoc(handled[1..], frame);
      assert (handled + [frame])[1..] == handled[1..] + [frame];
      handled := handled + [frame];
      calls := calls + CallsOf([frame]);
    }

    method HandleMail(frame: WireFrame)
      requires Safe() && WritesOk() && authenticated && isOpen && IsMail(frame)
      requires Sound(broker.queues, broker.maxMessages)
      modifies this`handled, this`calls, broker
      ensures handled == old(handled) + [frame] && Safe() && WritesOk()
      ensures calls == old(calls) + CallsOf([frame])
      ensures broker.queues == Run(old(broker.queues), broker.maxMessages, CallsOf([frame]))
      ensures AnswersOf(old(broker.queues), broker.maxMessages, CallsOf([frame])) == []
      ensures Sound(broker.queues, broker.maxMessages)
    {
      hide Buffers, Sound, AnswersOf;
      SingleFrame(frame);
      Note(frame);
      broker.ProcessPush(frame);
    }

    method HandlePoll(frame: WireFrame)
      requires Safe() && WritesOk() && authenticated && isOpen && frame.action == Poll
      requires Sound(broker.queues, broker.maxMessages)
      modifies this`handled, this`calls, this`answers, this`writeQueue, this`writeInProgress, broker
      ensures handled == old(handled) + [frame] && Safe() && WritesOk()
      ensures calls == old(calls) + CallsOf([frame])
      ensures broker.queues == Run(old(broker.queues), broker.maxMessages, CallsOf([frame]))
      ensures answers == old(answers) + AnswersOf(old(broker.queues), broker.maxMessages, CallsOf([frame]))
      ensures Sound(broker.queues, broker.maxMessages)
    {
      hide Buffers, Sound, AnswersOf;
      SingleFrame(frame);
      Note(frame);
      var response := broker.ProcessPoll(frame.mailbox);
      var answer := if response.Some? then response.value else CreatePoll(frame.mailbox);
      IdsSnoc(answers, answer);
      DoWrite(answer);
    }

    /** One frame of an authenticated client; authentication frames are ignored by now. */
    method HandleFrame(frame: WireFrame)
      requires Safe() && WritesOk() && authenticated && isOpen && Sound(broker.queues, broker.maxMessages)
      modifies this`handled, this`calls, this`answers, this`writeQueue, this`writeInProgress, broker
      ensures handled == old(handled) + [frame] && Safe() && WritesOk()
      ensures calls == old(calls) + CallsOf([frame])
      ensures broker.queues == Run(old(broker.queues), broker.maxMessages, CallsOf([frame]))
      ensures answers == old(answers) + AnswersOf(old(broker.queues), broker.maxMessages, CallsOf([frame]))
      ensures Sound(broker.queues, broker.maxMessages)
    {
      hide Buffers, Sound, AnswersOf;
      if frame.action == Push || frame.action == Ack {
        HandleMail(frame);
      } else if frame.action == Poll {
        HandlePoll(frame);
      } else {
        SingleFrame(frame);
        NoCalls(broker.queues, broker.maxMessages);
        Note(frame);
      }
    }

    /** The handler calls made since a point, their effect on the broker, and what was answered. */
    ghost predicate Ran(before: Queues<Mailbox, seq<byte>>, made: seq<Op<Mailbox, seq<byte>>>, said: seq<WireFrame>)
      reads this, broker
    {
      && made <= calls && said <= answers
      && broker.queues == Run(before, broker.maxMessages, calls[|made|..])
      && answers[|said|..] == AnswersOf(before, broker.maxMessages, calls[|made|..])
      && Sound(broker.queues, broker.maxMessages)
    }

    lemma RanNothing()
      requires Sound(broker.queues, broker.maxMessages)
      ensures Ran(broker.queues, calls, answers)
    {
      hide Sound;
    }

    /** Handles one frame, by authentication state. */
    method Dispatch(frame: WireFrame)
      requires Safe() && WritesOk() && isOpen && Sound(broker.queues, broker.maxMessages)
      modifies this`handled, this`calls, this`answers, this`writeQueue, this`writeInProgress, this`authenticated, this`isOpen, broker
      ensures handled == old(handled) + [frame] && Safe() && WritesOk()
      ensures Ran(old(broker.queues), old(calls), old(answers))
      ensures !isOpen ==> !authenticated && handled != []
    {
      if !authenticated {
        var _ := HandleAuthResponse(frame);
      } else {
        HandleFrame(frame);
        assert calls[|old(calls)|..] == CallsOf([frame]);
        assert answers[|old(answers)|..] == AnswersOf(old(broker.queues), broker.maxMessages, CallsOf([frame]));
      }
    }

    /**
      * Extracts and handles frames until none is ready, which is after at most one, or the connection
      * closes.
      */
    method ProcessExtractedFrame()
      requires Safe() && WritesOk() && isOpen && Sound(broker.queues, broker.maxMessages)
      requires parser.Valid() && parser.currentState != ErrorMalformed
      modifies this`handled, this`calls, this`answers, this`writeQueue, this`writeInProgress, this`authenticated, this`isOpen, broker, parser
      ensures Safe() && WritesOk() && Ran(old(broker.queues), old(calls), old(answers))
      ensures parser.Valid() && parser.Reading() && parser.Pending() == Decode(old(parser.Pending())).rest
      ensures handled == old(handled) + Decode(old(parser.Pending())).frames
      ensures !isOpen ==> !authenticated && handled != []
    {
      hide Decode, Buffers, Proves, Serialize, CallsOf, Sound, Ran, Ids, PolledIds, Run, AnswersOf;
      RanNothing();
      parser.StateDecodes();
      var frameOpt := parser.TryExtractFrame();
      while frameOpt.Some?
        invariant Safe() && WritesOk() && isOpen
        invariant parser.Valid() && parser.Reading() && parser.Pending() == Decode(old(parser.Pending())).rest
        invariant handled + (if frameOpt.Some? then [frameOpt.value] else []) == old(handled) + Decode(old(parser.Pending())).frames
        invariant Ran(old(broker.queues), old(calls), old(answers))
        invariant frameOpt.Some? ==> broker.queues == old(broker.queues) && calls == old(calls) && answers == old(answers)
        decreases frameOpt.Some?
      {
        Dispatch(frameOpt.value);
        if !isOpen {
          return;
        }
        frameOpt := parser.TryExtractFrame();
      }
    }

    /** The loop state while bytes are worked off: everything up to `data` is accounted for. */
    ghost predicate Midway(data: seq<byte>)
      reads this, parser, broker
    {
      && Safe() && WritesOk() && isOpen && Sound(broker.queues, broker.maxMessages)
      && parser.Valid() && parser.Reading() && Resumes(stream, handled, parser.Pending() + data)
    }

    /** The peer sent malformed bytes, or a first frame that does not prove the work. */
    ghost predicate ClosedForCause()
      reads this
    {
      var d := Decode(stream);
      d.malformed || (d.frames != [] && !Proves(pow, currentChallenge, d.frames[0]))
    }

    /** One round of the read loop: feed, check for a malformed header, handle what is ready. */
    method Round(data: seq<byte>) returns (consumed: nat)
      requires Midway(data) && data != []
      modifies this`handled, this`calls, this`answers, this`writeQueue, this`writeInProgress, this`authenticated, this`isOpen, broker, parser
      ensures 0 < consumed <= |data|
      ensures isOpen ==> Midway(data[consumed..])
      ensures !isOpen ==> Valid() && ClosedForCause()
      ensures Ran(old(broker.queues), old(calls), old(answers))
    {
      hide Decode, Buffers, Proves, Serialize, CallsOf, Sound, Ids, PolledIds, Run, AnswersOf;
      consumed := FeedRound(parser, stream, handled, data);
      if parser.currentState == ErrorMalformed {
        isOpen := false;
        RanNothing();
        return;
      }
      ProcessExtractedFrame();
    }

    /**
      * Bytes arrive. Rounds go on until they are used up or the connection closes; the branch for a
      * round that takes nothing is never entered.
      */
    method OnRead(chunk: seq<byte>)
      requires Valid() && isOpen
      modifies this`stream, this`handled, this`calls, this`answers, this`writeQueue, this`writeInProgress, this`authenticated, this`isOpen, broker, parser
      ensures Valid() && stream == old(stream) + chunk
      ensures Ran(old(broker.queues), old(calls), old(answers))
      ensures isOpen ==> handled == Decode(stream).frames && !Decode(stream).malformed
      ensures !isOpen ==> ClosedForCause()
    {
      hide Decode, Buffers, Proves, Serialize, CallsOf, Sound;
      parser.StateDecodes();
      ResumesMore(stream, handled, parser.Pending(), chunk);
      stream := stream + chunk;
      var data := chunk;
      while data != []
        invariant stream == old(stream) + chunk
        invariant Midway(data) && Ran(old(broker.queues), old(calls), old(answers))
        decreases |data|
      {
        ghost var queues, made, said := broker.queues, calls, answers;
        var consumed := Round(data);
        RanThen(old(broker.queues), old(calls), old(answers), queues, made, said);
        if !isOpen {
          return;
        }
        if consumed == 0 {
          assert false;
        }
        data := data[consumed..];
      }
      parser.StateDecodes();
      assert parser.Pending() + [] == parser.Pending() && handled + [] == handled;
    }

    /** Two stretches of handler calls in a row are one. */
    lemma RanThen(first: Queues<Mailbox, seq<byte>>, made: seq<Op<Mailbox, seq<byte>>>, said: seq<WireFrame>,
                  second: Queues<Mailbox, seq<byte>>, more: seq<Op<Mailbox, seq<byte>>>, told: seq<WireFrame>)
      requires made <= more && second == Run(first, broker.maxMessages, more[|made|..])
      requires said <= told && told[|said|..] == AnswersOf(first, broker.maxMessages, more[|made|..])
      requires Ran(second, more, told)
      ensures Ran(first, made, said)
    {
      hide Run, AnswersOf, Sound;
      RunConcat(first, broker.maxMessages, more[|made|..], calls[|more|..]);
      assert calls[|made|..] == more[|made|..] + calls[|more|..];
      assert answers[|said|..] == told[|said|..] + answers[|told|..];
    }
  }

  lemma NoCalls(queues: Queues<Mailbox, seq<byte>>, max: nat)
    ensures Run(queues, max, []) == queues && AnswersOf(queues, max, []) == []
  {
  }

  /**
    * Behind the parser the checks for a short authentication payload never apply, at the relay and at
    * the client alike: a parsed response holds a nonce and a parsed challenge a whole challenge.
    */
  lemma ParsedAuthIsWhole(s: seq<byte>, f: WireFrame)
    requires f in Decode(s).frames
    ensures f.action == AuthResponse ==> |f.payload| >= NONCE_SIZE
    ensures f.action == AuthChallenge ==> |f.payload| >= CHALLENGE_SIZE
  {
    DecodedSendable(s);
    hide Decode;
  }

  lemma SingleFrame(f: WireFrame)
    ensures IsMail(f) ==> CallsOf([f]) == [PushOp(f)] && PolledIds([f]) == []
    ensures f.action == Poll ==> CallsOf([f]) == [PollOp(f.mailbox)] && PolledIds([f]) == [f.mailbox]
    ensures !IsMail(f) && f.action != Poll ==> CallsOf([f]) == [] && PolledIds([f]) == []
    ensures forall queues: Queues<Mailbox, seq<byte>>, max: nat, op ::
              Run(queues, max, [op]) == Apply(queues, max, op).0 && AnswersOf(queues, max, [op]) == AnswerTo(queues, max, op)
  {
    assert [f][1..] == [];
    hide Apply, AnswerTo;
    forall queues: Queues<Mailbox, seq<byte>>, max: nat, op
      ensures Run(queues, max, [op]) == Apply(queues, max, op).0 && AnswersOf(queues, max, [op]) == AnswerTo(queues, max, op)
    {
      assert [op][1..] == [];
    }
  }

  /** One frame of an authenticated client is handled as the relay of whole runs serves it. */
  lemma ServedAsHandled(queues: Queues<Mailbox, seq<byte>>, max: nat, f: WireFrame)
    ensures Serve(queues, max, f, CreatePoll(f.mailbox).payload)
         == (Run(queues, max, CallsOf([f])), AnswersOf(queues, max, CallsOf([f])))
  {
    SingleFrame(f);
    NoCalls(queues, max);
    hide Run, AnswersOf, CallsOf;
  }
}
