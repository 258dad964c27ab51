/** The incremental frame parser, fed in arbitrary pieces, and the read loop around it. */
module FrameParser {
  import opened Common
  import opened Wire

  datatype ParserState = ReadingHeader | ReadingPayload | FrameReady | ErrorMalformed

  class Parser {
    var currentState: ParserState
    var headerBuffer: seq<byte>
    var payloadBuffer: seq<byte>
    var currentAction: Option<byte>
    var currentMailbox: Option<Mailbox>
    var expectedPayloadLength: nat

    /** The bytes taken in since the last frame was extracted. */
    ghost function Pending(): seq<byte>
      reads this
    {
      headerBuffer + payloadBuffer
    }

    /** The header fields agree with the header bytes. */
    ghost predicate HeaderParsed()
      reads this
    {
      && |headerBuffer| == HEADER_SIZE
      && currentAction == Some(headerBuffer[0])
      && currentMailbox == Some(MailboxField(headerBuffer))
      && expectedPayloadLength == LengthField(headerBuffer)
    }

    ghost predicate Valid()
      reads this
    {
      match currentState
      case ReadingHeader => |headerBuffer| < HEADER_SIZE && payloadBuffer == []
      case ReadingPayload => HeaderParsed() && |payloadBuffer| < expectedPayloadLength <= MAX_PAYLOAD
      case FrameReady => HeaderParsed() && |payloadBuffer| == expectedPayloadLength <= MAX_PAYLOAD
      case ErrorMalformed => HeaderParsed() && payloadBuffer == [] && expectedPayloadLength > MAX_PAYLOAD
    }

    predicate Reading()
      reads this
    {
      currentState == ReadingHeader || currentState == ReadingPayload
    }

    constructor ()
      ensures Valid() && currentState == ReadingHeader && Pending() == []
    {
      currentState := ReadingHeader;
      headerBuffer, payloadBuffer := [], [];
      currentAction, currentMailbox := None, None;
      expectedPayloadLength := 0;
    }

    method ParseHeader()
      requires |headerBuffer| == HEADER_SIZE && payloadBuffer == []
      modifies this
      ensures headerBuffer == old(headerBuffer) && payloadBuffer == []
      ensures Valid() && HeaderParsed() && currentState != ReadingHeader
    {
      currentAction := Some(headerBuffer[0]);
      currentMailbox := Some(headerBuffer[1..17]);
      expectedPayloadLength := FromLe(headerBuffer[17..21]);
      if expectedPayloadLength > MAX_PAYLOAD {
        currentState := ErrorMalformed;
        return;
      }
      if expectedPayloadLength == 0 {
        currentState := FrameReady;
      } else {
        currentState := ReadingPayload;
      }
    }

    /** Copies what the header still needs, or all there is, and parses the header once it is whole. */
    method TakeHeader(data: seq<byte>) returns (toCopy: nat)
      requires Valid() && currentState == ReadingHeader && data != []
      modifies this
      ensures Valid() && 0 < toCopy <= |data| && Pending() == old(Pending()) + data[..toCopy]
    {
      var needed := HEADER_SIZE - |headerBuffer|;
      toCopy := if needed < |data| then needed else |data|;
      headerBuffer := headerBuffer + data[..toCopy];
      if |headerBuffer| == HEADER_SIZE {
        ParseHeader();
      }
    }

    /** Copies what the payload still needs, or all there is; a whole payload makes the frame ready. */
    method TakePayload(data: seq<byte>) returns (toCopy: nat)
      requires Valid() && currentState == ReadingPayload && data != []
      modifies this
      ensures Valid() && 0 < toCopy <= |data| && Pending() == old(Pending()) + data[..toCopy]
    {
      var needed := expectedPayloadLength - |payloadBuffer|;
      toCopy := if needed < |data| then needed else |data|;
      payloadBuffer := payloadBuffer + data[..toCopy];
      if |payloadBuffer| == expectedPayloadLength {
        currentState := FrameReady;
      }
      assert Pending() == old(Pending()) + data[..toCopy];
    }

    /**
      * Takes in bytes until a frame is ready, the header proves malformed, or the data is used up.
      * What was taken in is a prefix of the data, never empty while the parser is reading.
      */
    method FeedBytes(input: seq<byte>) returns (consumed: nat)
      requires Valid()
      modifies this
      ensures Valid() && consumed <= |input|
      ensures Pending() == old(Pending()) + input[..consumed]
      ensures consumed == |input| || !Reading()
      ensures old(Reading()) && input != [] ==> consumed > 0
      ensures !old(Reading()) ==> consumed == 0 && currentState == old(currentState)
    {
      hide LengthField, MailboxField;
      var data := input;
      ghost var used := 0;
      while data != [] && currentState != FrameReady && currentState != ErrorMalformed
        invariant Valid()
        invariant 0 <= used <= |input| && data == input[used..]
        invariant Pending() == old(Pending()) + input[..used]
        invariant used == 0 ==> currentState == old(currentState)
        invariant !old(Reading()) ==> used == 0
        decreases |data|
      {
        var toCopy: nat;
        if currentState == ReadingHeader {
          toCopy := TakeHeader(data);
        } else {
          toCopy := TakePayload(data);
        }
        assert input[..used] + data[..toCopy] == input[..used + toCopy];
        data := data[toCopy..];
        used := used + toCopy;
      }
      consumed := |input| - |data|;
    }

    /** Hands out the ready frame and starts over; an unknown action starts over without a frame. */
    method TryExtractFrame() returns (result: Option<WireFrame>)
      requires Valid()
      modifies this
      ensures Valid()
      ensures old(currentState) != FrameReady ==>
                result.None? && currentState == old(currentState) && Pending() == old(Pending())
      ensures old(currentState) == FrameReady ==>
                && currentState == ReadingHeader && Pending() == []
                && (if result.Some? then [result.value] else []) == Decode(old(Pending())).frames
    {
      if currentState != FrameReady {
        return None;
      }
      assert old(Pending())[17..21] == headerBuffer[17..21] && old(Pending())[1..17] == headerBuffer[1..17];
      assert old(Pending())[HEADER_SIZE..HEADER_SIZE + expectedPayloadLength] == payloadBuffer;
      ReadyDecodes(old(Pending()));
      assert FrameOf(old(Pending()))
          == match Build(headerBuffer[0], currentMailbox.value, payloadBuffer) case None => [] case Some(f) => [f];
      var code := currentAction.value;
      if ActionOf(code) == Some(Push) {
        result := Some(CreatePush(currentMailbox.value, payloadBuffer));
      } else if ActionOf(code) == Some(Poll) {
        result := Some(CreatePoll(currentMailbox.value));
      } else if ActionOf(code) == Some(Ack) {
        result := Some(CreateAck(currentMailbox.value, payloadBuffer));
      } else if ActionOf(code) == Some(AuthChallenge) {
        result := Some(CreateAuthChallenge(currentMailbox.value, payloadBuffer));
      } else if ActionOf(code) == Some(AuthResponse) {
        result := Some(CreateAuthResponse(currentMailbox.value, payloadBuffer));
      } else {
        result := None;
      }
      headerBuffer, payloadBuffer := [], [];
      currentAction, currentMailbox := None, None;
      expectedPayloadLength := 0;
      currentState := ReadingHeader;
    }

    /** What the state says about the bytes taken in so far. */
    lemma StateDecodes()
      requires Valid()
      ensures Reading() ==> Decode(Pending()) == Decoded([], Pending(), false)
      ensures currentState == FrameReady ==> Decode(Pending()).rest == [] && !Decode(Pending()).malformed
      ensures currentState == ErrorMalformed ==> Decode(Pending()) == Decoded([], Pending(), true)
    {
      if currentState != ReadingHeader {
        HeaderOfPrefix(headerBuffer, payloadBuffer);
        if currentState == FrameReady {
          ReadyDecodes(Pending());
        }
      }
    }
  }

  lemma ReadyDecodes(s: seq<byte>)
    requires |s| >= HEADER_SIZE && |s| == HEADER_SIZE + LengthField(s) && LengthField(s) <= MAX_PAYLOAD
    ensures Decode(s) == Decoded(FrameOf(s), [], false)
  {
    FirstFrame(s, []);
    assert s + [] == s;
    assert Decode([]) == Decoded([], [], false);
    assert FrameOf(s) + [] == FrameOf(s);
  }

  // ---------------------------------------------------------------- the read loop

  /** Decoding a + b after a was cut off at a frame boundary or in the middle of a frame. */
  ghost predicate Resumes(whole: seq<byte>, done: seq<WireFrame>, rest: seq<byte>) {
    Decode(whole) == Decode(rest).(frames := done + Decode(rest).frames)
  }

  lemma ResumesThen(whole: seq<byte>, done: seq<WireFrame>, head: seq<byte>, tail: seq<byte>)
    requires Resumes(whole, done, head + tail) && !Decode(head).malformed
    ensures Resumes(whole, done + Decode(head).frames, Decode(head).rest + tail)
  {
    DecodeResumes(head, tail);
    hide Decode;
    var d := Decode(head);
    var e := Decode(d.rest + tail);
    assert done + (d.frames + e.frames) == (done + d.frames) + e.frames;
  }

  lemma ResumesStop(whole: seq<byte>, done: seq<WireFrame>, head: seq<byte>, tail: seq<byte>)
    requires Resumes(whole, done, head + tail) && Decode(head) == Decoded([], head, true)
    ensures Decode(whole).malformed && Decode(whole).frames == done
  {
    DecodeResumes(head, tail);
    hide Decode;
    assert done + [] == done;
  }

  /** More bytes can be appended to a stream and to its unused rest alike. */
  lemma ResumesMore(whole: seq<byte>, done: seq<WireFrame>, rest: seq<byte>, more: seq<byte>)
    requires Resumes(whole, done, rest) && !Decode(rest).malformed
    ensures Resumes(whole + more, done, rest + more)
  {
    DecodeResumes(whole, more);
    DecodeResumes(rest, more);
    hide Decode;
    var d := Decode(rest);
    var e := Decode(d.rest + more);
    assert (done + d.frames) + e.frames == done + (d.frames + e.frames);
  }

  /**
    * One received chunk: feed, extract, repeat. The frames delivered and the bytes kept are those of
    * the one-shot decoder, and the connection survives unless the decoder calls the bytes malformed.
    */
  method ReadChunk(parser: Parser, chunk: seq<byte>) returns (frames: seq<WireFrame>, open: bool)
    requires parser.Valid() && parser.Reading()
    modifies parser
    ensures parser.Valid()
    ensures var d := Decode(old(parser.Pending()) + chunk);
            frames == d.frames && open == !d.malformed && (open ==> parser.Reading() && parser.Pending() == d.rest)
  {
    hide Decode;
    ghost var whole := parser.Pending() + chunk;
    var data := chunk;
    frames := [];
    assert frames + Decode(whole).frames == Decode(whole).frames;
    while data != []
      invariant parser.Valid() && parser.Reading()
      invariant Resumes(whole, frames, parser.Pending() + data)
      decreases |data|
    {
      var ready, rest, sound := ReadRound(parser, whole, frames, data);
      if !sound {
        return frames, false;
      }
      data := rest;
      frames := frames + ready;
    }
    parser.StateDecodes();
    assert parser.Pending() + [] == parser.Pending();
    assert frames + [] == frames;
    return frames, true;
  }

  /** One round of reading: feed the parser, then take what became ready. Some bytes are always consumed. */
  method ReadRound(parser: Parser, ghost whole: seq<byte>, ghost seen: seq<WireFrame>, data: seq<byte>)
    returns (frames: seq<WireFrame>, rest: seq<byte>, sound: bool)
    requires parser.Valid() && parser.Reading() && data != [] && Resumes(whole, seen, parser.Pending() + data)
    modifies parser
    ensures parser.Valid() && |rest| < |data|
    ensures !sound ==> Decode(whole).malformed && Decode(whole).frames == seen
    ensures sound ==> parser.Reading() && Resumes(whole, seen + frames, parser.Pending() + rest) && Sendable(frames)
  {
    hide Decode;
    var consumed := FeedRound(parser, whole, seen, data);
    rest := data[consumed..];
    if parser.currentState == ErrorMalformed {
      return [], rest, false;
    }
    DecodedSendable(parser.Pending());
    frames := ExtractReady(parser);
    if consumed == 0 {
      assert false;
    }
    sound := true;
  }

  /** The feeding part of a round: what becomes ready is what the decoder finds next. */
  method FeedRound(parser: Parser, ghost whole: seq<byte>, ghost seen: seq<WireFrame>, data: seq<byte>)
    returns (consumed: nat)
    requires parser.Valid() && parser.Reading() && data != [] && Resumes(whole, seen, parser.Pending() + data)
    modifies parser
    ensures parser.Valid() && 0 < consumed <= |data|
    ensures parser.currentState == ErrorMalformed ==> Decode(whole).malformed && Decode(whole).frames == seen
    ensures parser.currentState != ErrorMalformed ==>
              var d := Decode(parser.Pending());
              Resumes(whole, seen + d.frames, d.rest + data[consumed..])
  {
    hide Decode, LengthField, MailboxField, Resumes;
    ghost var before := parser.Pending();
    consumed := parser.FeedBytes(data);
    ghost var pending, rest := parser.Pending(), data[consumed..];
    assert before + data == pending + rest by {
      assert data == data[..consumed] + rest;
      Associates(before, data[..consumed], rest);
    }
    parser.StateDecodes();
    if parser.currentState == ErrorMalformed {
      ResumesStop(whole, seen, pending, rest);
    } else {
      ResumesThen(whole, seen, pending, rest);
    }
  }

  /** The inner loop: extracts until no frame is ready, which is after at most one frame. */
  method ExtractReady(parser: Parser) returns (frames: seq<WireFrame>)
    requires parser.Valid() && parser.currentState != ErrorMalformed
    modifies parser
    ensures parser.Valid() && parser.Reading()
    ensures frames == Decode(old(parser.Pending())).frames && parser.Pending() == Decode(old(parser.Pending())).rest
  {
    parser.StateDecodes();
    hide Decode;
    frames := [];
    var frameOpt := parser.TryExtractFrame();
    while frameOpt.Some?
      invariant parser.Valid() && parser.Reading()
      invariant frames + (if frameOpt.Some? then [frameOpt.value] else []) == Decode(old(parser.Pending())).frames
      invariant parser.Pending() == Decode(old(parser.Pending())).rest
      decreases frameOpt.Some?
    {
      frames := frames + [frameOpt.value];
      frameOpt := parser.TryExtractFrame();
    }
  }

  function Flatten(chunks: seq<seq<byte>>): seq<byte> {
    if chunks == [] then [] else chunks[0] + Flatten(chunks[1..])
  }

  /**
    * Chunk independence: however a byte stream is cut into chunks, the frames delivered are those of
    * the one-shot decoder on the whole stream, up to the first malformed header.
    */
  method ReadStream(parser: Parser, chunks: seq<seq<byte>>) returns (frames: seq<WireFrame>, open: bool)
    requires parser.Valid() && parser.Reading() && parser.Pending() == []
    modifies parser
    ensures frames == Decode(Flatten(chunks)).frames && open == !Decode(Flatten(chunks)).malformed
  {
    hide Decode;
    ghost var whole := Flatten(chunks);
    frames, open := [], true;
    var i := 0;
    assert [] + whole == whole && frames + Decode(whole).frames == Decode(whole).frames;
    while i < |chunks|
      invariant 0 <= i <= |chunks|
      invariant parser.Valid() && parser.Reading() && open
      invariant Resumes(whole, frames, parser.Pending() + Flatten(chunks[i..]))
    {
      ghost var before := parser.Pending();
      var got, still := ReadChunk(parser, chunks[i]);
      assert chunks[i..][1..] == chunks[i + 1..];
      ghost var tail := Flatten(chunks[i + 1..]);
      assert before + Flatten(chunks[i..]) == (before + chunks[i]) + tail;
      if !still {
        DecodeResumes(before + chunks[i], tail);
        return frames + got, false;
      }
      ResumesThen(whole, frames, before + chunks[i], tail);
      frames := frames + got;
      i := i + 1;
    }
    parser.StateDecodes();
    assert Flatten(chunks[i..]) == [] && parser.Pending() + [] == parser.Pending() && frames + [] == frames;
  }
}
