/** The wire format: frames, their factories, serialisation, and a one-shot reference decoder. */
module Wire {
  import opened Common

  const MAILBOX_SIZE := 16
  const HEADER_SIZE := 21
  const TOR_CELL := 498
  const CONTROL_PAYLOAD := 477
  const MAX_PAYLOAD := 1024 * 1024

  type Mailbox = m: seq<byte> | |m| == MAILBOX_SIZE witness seq(MAILBOX_SIZE, _ => 0)

  type WireFrame = Frame<Mailbox, seq<byte>>

  // ---------------------------------------------------------------- little-endian numbers

  function Pow256(k: nat): (r: nat)
    ensures r > 0
  {
    if k == 0 then 1 else 256 * Pow256(k - 1)
  }

  /** The k low bytes of n, least significant first: higher bytes are cut off. */
  function LeBytes(n: nat, k: nat): (r: seq<byte>)
    ensures |r| == k
    decreases k
  {
    if k == 0 then [] else [n % 256] + LeBytes(n / 256, k - 1)
  }

  function FromLe(bs: seq<byte>): nat {
    if bs == [] then 0 else bs[0] + 256 * FromLe(bs[1..])
  }

  lemma {:induction false} FromLeBytes(n: nat, k: nat)
    requires n < Pow256(k)
    ensures FromLe(LeBytes(n, k)) == n
    decreases k
  {
    if k > 0 {
      assert n / 256 < Pow256(k - 1);
      FromLeBytes(n / 256, k - 1);
      assert LeBytes(n, k)[1..] == LeBytes(n / 256, k - 1);
    }
  }

  lemma {:induction false} LeBytesFrom(bs: seq<byte>)
    ensures FromLe(bs) < Pow256(|bs|) && LeBytes(FromLe(bs), |bs|) == bs
  {
    if bs != [] {
      LeBytesFrom(bs[1..]);
      assert (bs[0] + 256 * FromLe(bs[1..])) / 256 == FromLe(bs[1..]);
      assert (bs[0] + 256 * FromLe(bs[1..])) % 256 == bs[0];
    }
  }

  // ---------------------------------------------------------------- actions and factories

  function ActionCode(a: Action): byte {
    match a
    case Push => 0x01
    case Poll => 0x02
    case Ack => 0x03
    case AuthChallenge => 0x04
    case AuthResponse => 0x05
  }

  function ActionOf(code: byte): Option<Action> {
    if code == 0x01 then Some(Push)
    else if code == 0x02 then Some(Poll)
    else if code == 0x03 then Some(Ack)
    else if code == 0x04 then Some(AuthChallenge)
    else if code == 0x05 then Some(AuthResponse)
    else None
  }

  /** The five codes on the wire, and no others. */
  lemma ActionsOnTheWire(code: byte, a: Action)
    ensures ActionCode(Push) == 1 && ActionCode(Poll) == 2 && ActionCode(Ack) == 3
    ensures ActionCode(AuthChallenge) == 4 && ActionCode(AuthResponse) == 5
    ensures ActionOf(code) == Some(a) <==> code == ActionCode(a)
    ensures ActionOf(code).Some? <==> 1 <= code <= 5
  {
  }

  function Zeroes(n: nat): seq<byte> {
    seq(n, _ => 0)
  }

  /** Pads with zero bytes up to a length; longer data is left alone. */
  function PadTo(p: seq<byte>, n: nat): (r: seq<byte>)
    ensures p <= r && |r| == if |p| < n then n else |p|
    ensures forall i | |p| <= i < |r| :: r[i] == 0
  {
    if |p| < n then p + Zeroes(n - |p|) else p
  }

  function CreatePush(m: Mailbox, payload: seq<byte>): WireFrame {
    Frame(Push, m, payload)
  }

  function CreatePoll(m: Mailbox): WireFrame {
    Frame(Poll, m, Zeroes(CONTROL_PAYLOAD))
  }

  function CreateAck(m: Mailbox, payload: seq<byte>): WireFrame {
    Frame(Ack, m, payload)
  }

  function CreateAuthChallenge(m: Mailbox, data: seq<byte>): WireFrame {
    Frame(AuthChallenge, m, PadTo(data, CONTROL_PAYLOAD))
  }

  function CreateAuthResponse(m: Mailbox, data: seq<byte>): WireFrame {
    Frame(AuthResponse, m, PadTo(data, CONTROL_PAYLOAD))
  }

  /** What the factories can build: polls are all zero, authentication payloads fill a cell. */
  predicate FactoryBuilt(f: WireFrame) {
    match f.action
    case Push => true
    case Ack => true
    case Poll => f.payload == Zeroes(CONTROL_PAYLOAD)
    case AuthChallenge => |f.payload| >= CONTROL_PAYLOAD
    case AuthResponse => |f.payload| >= CONTROL_PAYLOAD
  }

  /** The factory call for an action code read off the wire; unknown codes yield no frame. */
  function Build(code: byte, m: Mailbox, payload: seq<byte>): (r: Option<WireFrame>)
    ensures r.Some? ==> FactoryBuilt(r.value) && r.value.mailbox == m && ActionCode(r.value.action) == code
    ensures r.None? <==> code == 0 || code > 5
  {
    match ActionOf(code)
    case None => None
    case Some(Push) => Some(CreatePush(m, payload))
    case Some(Poll) => Some(CreatePoll(m))
    case Some(Ack) => Some(CreateAck(m, payload))
    case Some(AuthChallenge) => Some(CreateAuthChallenge(m, payload))
    case Some(AuthResponse) => Some(CreateAuthResponse(m, payload))
  }

  /** Rebuilding a factory-built frame from its own fields gives the frame back. */
  lemma BuildIsIdentity(f: WireFrame)
    requires FactoryBuilt(f)
    ensures Build(ActionCode(f.action), f.mailbox, f.payload) == Some(f)
  {
  }

  // ---------------------------------------------------------------- serialisation

  /** The length field keeps the low 32 bits of the payload length; a payload is omitted when they are zero. */
  function Serialize(f: WireFrame): (r: seq<byte>)
    ensures |r| >= HEADER_SIZE
  {
    var header := [ActionCode(f.action)] + f.mailbox + LeBytes(|f.payload|, 4);
    if |f.payload| % Pow256(4) > 0 then header + f.payload else header
  }

  /** Serialisation as the buffer is filled, byte group by byte group. */
  method SerializeFrame(f: WireFrame) returns (buffer: seq<byte>)
    ensures buffer == Serialize(f)
  {
    Pow256Of4();
    var payloadLength := |f.payload| % 0x1_0000_0000;
    buffer := [ActionCode(f.action)];
    buffer := buffer + f.mailbox;
    buffer := buffer + [payloadLength % 256];
    buffer := buffer + [payloadLength / 0x100 % 256];
    buffer := buffer + [payloadLength / 0x1_0000 % 256];
    buffer := buffer + [payloadLength / 0x100_0000 % 256];
    FourBytes(|f.payload|);
    if payloadLength > 0 && f.payload != [] {
      buffer := buffer + f.payload;
    }
  }

  /** Only the low bytes of a number show in its k low bytes. */
  lemma {:induction false} LowBytes(n: nat, q: nat, low: nat, k: nat)
    requires n == Pow256(k) * q + low
    ensures LeBytes(n, k) == LeBytes(low, k)
    decreases k
  {
    if k > 0 {
      var p := Pow256(k - 1) * q;
      assert Pow256(k) * q == 256 * p;
      assert n / 256 == p + low / 256 && n % 256 == low % 256;
      LowBytes(n / 256, q, low / 256, k - 1);
    }
  }

  lemma DivSteps(n: nat)
    ensures n / 256 / 256 == n / 0x1_0000
    ensures n / 0x1_0000 / 256 == n / 0x100_0000
  {
  }

  /** The four low bytes of a number, each shifted out of its low 32 bits. */
  lemma FourBytes(n: nat)
    ensures var low := n % 0x1_0000_0000;
      LeBytes(n, 4) == [low % 256, low / 0x100 % 256, low / 0x1_0000 % 256, low / 0x100_0000 % 256]
  {
    var low := n % 0x1_0000_0000;
    Pow256Of4();
    LowBytes(n, n / 0x1_0000_0000, low, 4);
    DivSteps(low);
    assert LeBytes(low, 4) == [low % 256] + LeBytes(low / 256, 3);
    assert LeBytes(low / 256, 3) == [low / 256 % 256] + LeBytes(low / 0x1_0000, 2);
    assert LeBytes(low / 0x1_0000, 2) == [low / 0x1_0000 % 256] + LeBytes(low / 0x100_0000, 1);
    assert LeBytes(low / 0x100_0000, 1) == [low / 0x100_0000 % 256];
  }

  /** The layout of a serialised frame, byte by byte. */
  lemma SerializedLayout(f: WireFrame)
    ensures var s := Serialize(f);
            var low := |f.payload| % 0x1_0000_0000;
            && |s| == 21 + (if low == 0 then 0 else |f.payload|)
            && s[0] == (match f.action case Push => 1 case Poll => 2 case Ack => 3 case AuthChallenge => 4 case AuthResponse => 5)
            && s[1..17] == f.mailbox
            && s[17] == low % 256 && s[18] == low / 0x100 % 256
            && s[19] == low / 0x1_0000 % 256 && s[20] == low / 0x100_0000 % 256
            && (low != 0 ==> s[21..] == f.payload)
  {
    Pow256Of4();
    FourBytes(|f.payload|);
    var s := Serialize(f);
    var header := [ActionCode(f.action)] + f.mailbox + LeBytes(|f.payload|, 4);
    assert s == header || s == header + f.payload;
    assert s[..21] == header;
    assert header[17..21] == LeBytes(|f.payload|, 4);
    assert header[17] == LeBytes(|f.payload|, 4)[0] && header[18] == LeBytes(|f.payload|, 4)[1];
    assert header[19] == LeBytes(|f.payload|, 4)[2] && header[20] == LeBytes(|f.payload|, 4)[3];
    hide LeBytes, Pow256;
    assert s[1..17] == header[1..17] == f.mailbox;
  }

  /** The i-th byte of a number is its i-th digit in base 256, the least significant first. */
  lemma {:induction false} LeByteAt(n: nat, k: nat, i: nat)
    requires i < k
    ensures LeBytes(n, k)[i] == n / Pow256(i) % 256
    decreases k
  {
    if i == 0 {
      assert Pow256(0) == 1;
    } else {
      LeByteAt(n / 256, k - 1, i - 1);
      DivInSteps(n, Pow256(i - 1));
    }
  }

  lemma DivInSteps(n: nat, m: nat)
    requires m > 0
    ensures n / 256 / m == n / (256 * m)
  {
    var q, r := n / 256 / m, n / 256 % m;
    assert n / 256 == m * q + r;
    assert n == (256 * m) * q + (256 * r + n % 256);
    QuotientIs(n, 256 * m, q, 256 * r + n % 256);
  }

  lemma QuotientIs(n: nat, d: nat, q: nat, r: nat)
    requires d > 0 && r < d && n == d * q + r
    ensures n / d == q
  {
    var k := n / d;
    assert k < q ==> d * (k + 1) <= d * q;
    assert q < k ==> d * (q + 1) <= d * k;
  }

  // ---------------------------------------------------------------- the reference decoder

  /** Frames found, bytes not yet used, and whether an over-long length was met. */
  datatype Decoded = Decoded(frames: seq<WireFrame>, rest: seq<byte>, malformed: bool)

  function LengthField(s: seq<byte>): nat
    requires |s| >= HEADER_SIZE
  {
    FromLe(s[17..21])
  }

  function MailboxField(s: seq<byte>): Mailbox
    requires |s| >= HEADER_SIZE
  {
    s[1..17]
  }

  function FrameOf(s: seq<byte>): seq<WireFrame>
    requires |s| >= HEADER_SIZE && |s| >= HEADER_SIZE + LengthField(s)
  {
    match Build(s[0], MailboxField(s), s[HEADER_SIZE..HEADER_SIZE + LengthField(s)])
    case None => []
    case Some(f) => [f]
  }

  /** Decodes a whole stream at once: unknown actions are skipped, an over-long length stops for good. */
  function Decode(s: seq<byte>): Decoded
    decreases |s|
  {
    if |s| < HEADER_SIZE then Decoded([], s, false)
    else if LengthField(s) > MAX_PAYLOAD then Decoded([], s, true)
    else if |s| < HEADER_SIZE + LengthField(s) then Decoded([], s, false)
    else
      var d := Decode(s[HEADER_SIZE + LengthField(s)..]);
      d.(frames := FrameOf(s) + d.frames)
  }

  lemma HeaderOfPrefix(s: seq<byte>, t: seq<byte>)
    requires |s| >= HEADER_SIZE
    ensures LengthField(s + t) == LengthField(s) && MailboxField(s + t) == MailboxField(s) && (s + t)[0] == s[0]
  {
    assert (s + t)[17..21] == s[17..21];
    assert (s + t)[1..17] == s[1..17];
  }

  /** A complete first frame is decoded the same whatever follows it. */
  lemma FirstFrame(s: seq<byte>, t: seq<byte>)
    requires |s| >= HEADER_SIZE && |s| == HEADER_SIZE + LengthField(s) && LengthField(s) <= MAX_PAYLOAD
    ensures Decode(s + t) == Decode(t).(frames := FrameOf(s) + Decode(t).frames)
  {
    HeaderOfPrefix(s, t);
    var n := HEADER_SIZE + LengthField(s);
    assert (s + t)[n..] == t;
    assert (s + t)[HEADER_SIZE..n] == s[HEADER_SIZE..n];
  }

  predicate StartsWithFrame(s: seq<byte>) {
    |s| >= HEADER_SIZE && LengthField(s) <= MAX_PAYLOAD && |s| >= HEADER_SIZE + LengthField(s)
  }

  function After(s: seq<byte>): (r: seq<byte>)
    requires StartsWithFrame(s)
    ensures |r| < |s|
  {
    s[HEADER_SIZE + LengthField(s)..]
  }

  /** Without a whole frame in front nothing is decoded; an over-long length stays in front. */
  lemma NoWholeFrame(s: seq<byte>, t: seq<byte>)
    requires !StartsWithFrame(s)
    ensures Decode(s).frames == [] && Decode(s).rest == s
    ensures Decode(s).malformed ==> Decode(s + t).malformed && Decode(s + t).frames == []
  {
    if |s| >= HEADER_SIZE {
      HeaderOfPrefix(s, t);
    }
  }

  /** Splitting a stream after its first frame. */
  lemma SplitFirst(s: seq<byte>, t: seq<byte>)
    requires StartsWithFrame(s)
    ensures |s| >= HEADER_SIZE && |s| >= HEADER_SIZE + LengthField(s)
    ensures Decode(s + t) == Decode(After(s) + t).(frames := FrameOf(s) + Decode(After(s) + t).frames)
  {
    var n := HEADER_SIZE + LengthField(s);
    var head, tail := s[..n], s[n..];
    assert s == head + tail;
    HeaderOfPrefix(head, tail);
    assert s[HEADER_SIZE..n] == head[HEADER_SIZE..n];
    assert FrameOf(head) == FrameOf(s) && After(s) == tail;
    hide FrameOf, LengthField, StartsWithFrame, Decode;
    assert s + t == head + (tail + t);
    FirstFrame(head, tail + t);
  }

  /** Decoding can be resumed: more bytes continue from the unused rest, and an error is final. */
  lemma {:induction false} DecodeResumes(s: seq<byte>, t: seq<byte>)
    ensures var d := Decode(s);
            && (!d.malformed ==> Decode(s + t) == Decode(d.rest + t).(frames := d.frames + Decode(d.rest + t).frames))
            && (d.malformed ==> Decode(s + t).malformed && Decode(s + t).frames == d.frames)
    decreases |s|
  {
    hide Decode, FrameOf, StartsWithFrame, LengthField;
    if StartsWithFrame(s) {
      var u := After(s);
      SplitFirst(s, []);
      SplitFirst(s, t);
      assert s + [] == s && u + [] == u;
      hide After;
      DecodeResumes(u, t);
      var d := Decode(u);
      Associates(FrameOf(s), d.frames, Decode(d.rest + t).frames);
    } else {
      NoWholeFrame(s, t);
      assert [] + Decode(s + t).frames == Decode(s + t).frames;
    }
  }

  // ---------------------------------------------------------------- round trips

  function SerializeAll(fs: seq<WireFrame>): seq<byte> {
    if fs == [] then [] else Serialize(fs[0]) + SerializeAll(fs[1..])
  }

  lemma Pow256Of4()
    ensures Pow256(4) == 0x1_0000_0000
  {
    assert Pow256(4) == 256 * (256 * (256 * (256 * Pow256(0))));
  }

  lemma SerializedHeader(f: WireFrame)
    requires |f.payload| <= MAX_PAYLOAD
    ensures var s := Serialize(f);
            && |s| == HEADER_SIZE + |f.payload|
            && s[0] == ActionCode(f.action) && MailboxField(s) == f.mailbox && LengthField(s) == |f.payload|
            && s[HEADER_SIZE..] == f.payload
  {
    var s := Serialize(f);
    Pow256Of4();
    FromLeBytes(|f.payload|, 4);
    var header := [ActionCode(f.action)] + f.mailbox + LeBytes(|f.payload|, 4);
    assert header[1..17] == f.mailbox && header[17..21] == LeBytes(|f.payload|, 4);
    assert s == header + f.payload;
    assert s[1..17] == header[1..17] && s[17..21] == header[17..21];
  }

  /** A serialised frame, followed by anything, decodes to that frame first. */
  lemma SerializedFirst(f: WireFrame, t: seq<byte>)
    requires FactoryBuilt(f) && |f.payload| <= MAX_PAYLOAD
    ensures Decode(Serialize(f) + t) == Decode(t).(frames := [f] + Decode(t).frames)
  {
    var s := Serialize(f);
    SerializedHeader(f);
    BuildIsIdentity(f);
    assert s[HEADER_SIZE..HEADER_SIZE + LengthField(s)] == f.payload;
    assert FrameOf(s) == [f];
    FirstFrame(s, t);
  }

  predicate Sendable(fs: seq<WireFrame>) {
    forall f | f in fs :: FactoryBuilt(f) && |f.payload| <= MAX_PAYLOAD
  }

  /** Any list of factory-built frames within the size limit survives serialisation and decoding. */
  lemma {:induction false} RoundTrip(fs: seq<WireFrame>)
    requires Sendable(fs)
    ensures Decode(SerializeAll(fs)) == Decoded(fs, [], false)
  {
    if fs != [] {
      RoundTrip(fs[1..]);
      SerializedFirst(fs[0], SerializeAll(fs[1..]));
      assert [fs[0]] + fs[1..] == fs;
    }
  }

  lemma {:induction false} DecodedSendable(s: seq<byte>)
    ensures Sendable(Decode(s).frames)
    decreases |s|
  {
    if |s| >= HEADER_SIZE && LengthField(s) <= MAX_PAYLOAD && |s| >= HEADER_SIZE + LengthField(s) {
      DecodedSendable(s[HEADER_SIZE + LengthField(s)..]);
    }
  }

  /** Decoding normalises: serialising what was decoded and decoding again changes nothing more. */
  lemma DecodeNormalises(s: seq<byte>)
    ensures var fs := Decode(s).frames;
            Decode(SerializeAll(fs)) == Decoded(fs, [], false)
  {
    DecodedSendable(s);
    RoundTrip(Decode(s).frames);
  }

  /** A frame is accepted whole by a decoder exactly when its payload keeps within the limit. */
  lemma AcceptedIffWithinLimit(f: WireFrame)
    requires FactoryBuilt(f)
    ensures Decode(Serialize(f)).frames == [f] <==> |f.payload| <= MAX_PAYLOAD
  {
    if |f.payload| <= MAX_PAYLOAD {
      SerializedFirst(f, []);
      assert Serialize(f) + [] == Serialize(f);
    } else {
      DecodedSendable(Serialize(f));
      assert Decode(Serialize(f)).frames == [f] ==> f in Decode(Serialize(f)).frames;
    }
  }

  /**
    * As long as the length field can say how long a payload is, one beyond the limit is malformed.
    * From 2^32 bytes on the field keeps only the low 32 bits, and what the decoder makes of it varies.
    */
  lemma MalformedIffBeyondLimit(f: WireFrame)
    requires FactoryBuilt(f) && |f.payload| < Pow256(4)
    ensures Decode(Serialize(f)).malformed <==> |f.payload| > MAX_PAYLOAD
  {
    var s := Serialize(f);
    assert s + [] == s;
    if |f.payload| <= MAX_PAYLOAD {
      SerializedFirst(f, []);
    } else {
      FromLeBytes(|f.payload|, 4);
      var header := [ActionCode(f.action)] + f.mailbox + LeBytes(|f.payload|, 4);
      assert header[17..21] == LeBytes(|f.payload|, 4);
      assert s == header + f.payload && s[17..21] == header[17..21];
    }
  }
}
