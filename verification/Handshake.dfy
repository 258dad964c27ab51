/** An honest client and the relay authenticate over any cutting of their bytes into chunks. */
module Handshake {
  import opened Common
  import opened Wire
  import opened FrameParser
  import opened Session
  import opened TcpClient
  import opened Broker

  /** The challenge a session opens with reaches the client unchanged, whatever follows it. */
  lemma ChallengeArrives(challenge: seq<byte>, more: seq<byte>)
    requires |challenge| == CHALLENGE_SIZE
    ensures var f := CreateAuthChallenge(ZERO_ID, challenge);
            var d := Decode(Serialize(f) + more);
            && d.frames != [] && d.frames[0] == f
            && FirstChallenge(d.frames, None) == Some(challenge)
  {
    var f := CreateAuthChallenge(ZERO_ID, challenge);
    SerializedFirst(f, more);
    assert f.payload[..CHALLENGE_SIZE] == challenge;
    hide Decode, Serialize;
  }

  /** A response that proves the work still does after serialisation and parsing at the relay. */
  lemma ResponseArrives(pow: seq<byte> -> bool, challenge: seq<byte>, response: WireFrame, more: seq<byte>)
    requires Proves(pow, challenge, response) && FactoryBuilt(response) && |response.payload| <= MAX_PAYLOAD
    ensures var d := Decode(Serialize(response) + more);
            d.frames != [] && Proves(pow, challenge, d.frames[0])
  {
    SerializedFirst(response, more);
    hide Decode, Serialize, Proves;
  }

  /** Hands a client a byte stream in chunks. */
  method FeedClient(client: Client, chunks: seq<seq<byte>>)
    requires client.Valid() && client.isOpen && !client.searching
    requires forall f | f in Decode(Flatten(chunks)).frames :: !Endless(client.pow, f)
    requires client.parser.Valid() && client.parser.Reading() && client.parser.Pending() == []
    requires !Decode(Flatten(chunks)).malformed
    modifies client, client.parser
    ensures client.Valid() && client.isOpen && !client.searching
    ensures client.challenged == FirstChallenge(Decode(Flatten(chunks)).frames, old(client.challenged))
    ensures |client.queued| - |client.writeQueue| == old(|client.queued| - |client.writeQueue|)
  {
    hide Decode, FirstChallenge, DeliveredOf, Endless, Worked;
    ghost var whole := Flatten(chunks);
    ghost var seen: seq<WireFrame> := [];
    NothingDelivered(client.challenged);
    assert [] + whole == whole && seen + Decode(whole).frames == Decode(whole).frames;
    for i := 0 to |chunks|
      invariant client.Valid() && client.isOpen && !client.searching && client.parser.Valid() && client.parser.Reading()
      invariant Resumes(whole, seen, client.parser.Pending() + Flatten(chunks[i..])) && Sendable(seen)
      invariant client.challenged == FirstChallenge(seen, old(client.challenged))
      invariant |client.queued| - |client.writeQueue| == old(|client.queued| - |client.writeQueue|)
    {
      ghost var head, tail := client.parser.Pending() + chunks[i], Flatten(chunks[i + 1..]);
      assert chunks[i..][1..] == chunks[i + 1..];
      assert client.parser.Pending() + Flatten(chunks[i..]) == head + tail;
      NotMalformedYet(whole, seen, head, tail);
      ResumesThen(whole, seen, head, tail);
      DecodedSendable(head);
      DeliveredConcat(seen, Decode(head).frames, old(client.challenged));
      assert forall f | f in Decode(head).frames :: f in Decode(whole).frames;
      WorkedAll(client.pow, Decode(head).frames);
      var _ := client.OnRead(chunks[i]);
      seen := seen + Decode(head).frames;
    }
    assert Flatten(chunks[|chunks|..]) == [] && client.parser.Pending() + [] == client.parser.Pending();
    client.parser.StateDecodes();
    assert seen + [] == seen;
  }

  lemma NotMalformedYet(whole: seq<byte>, seen: seq<WireFrame>, head: seq<byte>, tail: seq<byte>)
    requires Resumes(whole, seen, head + tail) && !Decode(whole).malformed
    ensures !Decode(head).malformed
  {
    DecodeResumes(head, tail);
  }

  /** A stream that gives the relay no cause to close gives none at any earlier point. */
  lemma NoCauseEarlier(pow: seq<byte> -> bool, challenge: seq<byte>, s: seq<byte>, t: seq<byte>)
    requires var d := Decode(s + t);
             !d.malformed && (d.frames != [] ==> Proves(pow, challenge, d.frames[0]))
    ensures var d := Decode(s);
            !d.malformed && (d.frames != [] ==> Proves(pow, challenge, d.frames[0]))
  {
    DecodeResumes(s, t);
    hide Decode, Proves;
  }

  /** Hands a session a byte stream in chunks; with no cause to close it handles all of it. */
  method FeedSession(session: TcpSession, chunks: seq<seq<byte>>)
    requires session.Valid() && session.isOpen
    requires var d := Decode(session.stream + Flatten(chunks));
             !d.malformed && (d.frames != [] ==> Proves(session.pow, session.currentChallenge, d.frames[0]))
    modifies session, session.parser, session.broker
    ensures session.Valid() && session.isOpen
    ensures session.stream == old(session.stream) + Flatten(chunks)
    ensures session.handled == Decode(session.stream).frames
    ensures session.Ran(old(session.broker.queues), old(session.calls), old(session.answers))
  {
    hide Decode, Proves, CallsOf, Buffers, Serialize, Run, AnswersOf;
    session.RanNothing();
    session.parser.StateDecodes();
    assert session.handled + [] == session.handled;
    ghost var whole := session.stream + Flatten(chunks);
    for i := 0 to |chunks|
      invariant session.Valid() && session.isOpen
      invariant session.stream + Flatten(chunks[i..]) == whole
      invariant session.handled == Decode(session.stream).frames
      invariant session.Ran(old(session.broker.queues), old(session.calls), old(session.answers))
    {
      assert chunks[i..][1..] == chunks[i + 1..];
      assert session.stream + Flatten(chunks[i..]) == (session.stream + chunks[i]) + Flatten(chunks[i + 1..]);
      NoCauseEarlier(session.pow, session.currentChallenge, session.stream + chunks[i], Flatten(chunks[i + 1..]));
      ghost var queues, made, said := session.broker.queues, session.calls, session.answers;
      session.OnRead(chunks[i]);
      session.RanThen(old(session.broker.queues), old(session.calls), old(session.answers), queues, made, said);
    }
    assert Flatten(chunks[|chunks|..]) == [] && session.stream + [] == session.stream;
  }

  /**
    * The handshake of an honest client: whatever challenge has an answer and however the bytes are cut, the
    * client's first frame authenticates it at the relay, and the broker's queues are untouched.
    */
  method Authenticate(broker: MessageBroker<Mailbox, seq<byte>>, pow: seq<byte> -> bool, challenge: seq<byte>,
                      cut: seq<byte> -> seq<seq<byte>>)
    returns (session: TcpSession, client: Client)
    requires |challenge| == CHALLENGE_SIZE && Solvable(pow, challenge)
    requires Sound(broker.queues, broker.maxMessages)
    requires forall s :: Flatten(cut(s)) == s
    modifies broker
    ensures session.Valid() && session.isOpen && session.authenticated
    ensures client.Valid() && client.isOpen && client.isAuthenticated
    ensures session.calls == [] && |session.handled| == 1 && session.answers == []
    ensures session.broker == broker && broker.queues == old(broker.queues)
    ensures var f := session.handled[0];
            f.action == AuthResponse && |f.payload| >= 8 && pow(challenge + f.payload[..8])
  {
    hide Decode, Proves, CallsOf, Serialize, Solvable, FirstChallenge, Sound, Endless;
    session := new TcpSession(broker, pow, challenge);
    client := new Client(pow);
    var opening := session.writeQueue[0];
    var f := CreateAuthChallenge(ZERO_ID, challenge);
    OpeningIs(session);
    ChallengeArrives(challenge, []);
    SerializedFirst(f, []);
    DecodeNothing();
    assert opening + [] == opening;
    Answerable(pow, challenge);
    FeedClient(client, cut(opening));
    var response := client.queued[0];
    FirstWaiting(client);
    var reply := client.writeQueue[0];
    ResponseArrives(pow, challenge, response, []);
    SerializedFirst(response, []);
    assert reply + [] == reply && [] + reply == reply;
    FeedSession(session, cut(reply));
    SessionFacts(session, response);
    ProofIs(pow, challenge, session.handled[0]);
    NoCalls(old(broker.queues), broker.maxMessages);
  }

  lemma ProofIs(pow: seq<byte> -> bool, challenge: seq<byte>, f: WireFrame)
    requires Proves(pow, challenge, f)
    ensures f.action == AuthResponse && |f.payload| >= 8 && pow(challenge + f.payload[..8])
  {
  }

  lemma Answerable(pow: seq<byte> -> bool, challenge: seq<byte>)
    requires |challenge| == CHALLENGE_SIZE && Solvable(pow, challenge)
    ensures !Endless(pow, CreateAuthChallenge(ZERO_ID, challenge))
  {
    hide Solvable;
    assert CreateAuthChallenge(ZERO_ID, challenge).payload[..CHALLENGE_SIZE] == challenge;
  }

  lemma DecodeNothing()
    ensures Decode([]) == Decoded([], [], false)
  {
  }

  lemma OpeningIs(session: TcpSession)
    requires session.Valid() && session.isOpen && session.transmitted == [] && session.answers == []
    ensures session.writeQueue == [Serialize(CreateAuthChallenge(ZERO_ID, session.currentChallenge))]
  {
    var f := session.ChallengeFrame();
    assert [f] + session.answers == [f] && [f][1..] == [];
    assert Buffers([f]) == [Serialize(f)] + Buffers([f][1..]);
    assert session.transmitted + session.writeQueue == session.writeQueue;
  }

  lemma FirstWaiting(client: Client)
    requires client.Valid() && client.isAuthenticated && |client.queued| == |client.writeQueue|
    ensures client.writeQueue != [] && client.writeQueue[0] == Serialize(client.queued[0])
  {
    assert client.queued[0..] == client.queued;
  }

  lemma SessionFacts(session: TcpSession, response: WireFrame)
    requires session.Valid() && session.handled == [response]
    requires Proves(session.pow, session.currentChallenge, response)
    ensures session.authenticated && session.calls == [] && session.answers == []
  {
    assert session.handled[1..] == [];
  }
}
