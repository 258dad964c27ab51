/** The byte layout of what travels inside a PUSH frame: an opcode followed by its fields. */
module PayloadFormatter {
  import opened Common

  const TEXT_MESSAGE: byte := 0x01
  const PFS_ROTATE_REQUEST: byte := 0x02
  const PFS_ROTATE_ACK: byte := 0x03
  const PUBLIC_KEY_SIZE := 32
  const SIGN_BYTES := 64

  datatype Message =
    | TextMessage(data: seq<byte>)
    | RotateRequest(key: seq<byte>, signature: seq<byte>)
    | RotateAck(key: seq<byte>, signature: seq<byte>)

  predicate Sized(m: Message) {
    !m.TextMessage? ==> |m.key| == PUBLIC_KEY_SIZE && |m.signature| == SIGN_BYTES
  }

  function Build(m: Message): seq<byte> {
    match m
    case TextMessage(data) => [TEXT_MESSAGE] + data
    case RotateRequest(key, signature) => [PFS_ROTATE_REQUEST] + key + signature
    case RotateAck(key, signature) => [PFS_ROTATE_ACK] + key + signature
  }

  function ExtractOpcode(p: seq<byte>): Option<byte> {
    if p == [] then None
    else if p[0] == TEXT_MESSAGE || p[0] == PFS_ROTATE_REQUEST || p[0] == PFS_ROTATE_ACK then Some(p[0])
    else None
  }

  function ParseTextMessage(p: seq<byte>): Option<seq<byte>> {
    if ExtractOpcode(p) != Some(TEXT_MESSAGE) then None else Some(p[1..])
  }

  /** Key and signature behind one of the two rotation opcodes. */
  function ParseRotate(p: seq<byte>, opcode: byte): Option<(seq<byte>, seq<byte>)> {
    if ExtractOpcode(p) != Some(opcode) || |p| != 1 + PUBLIC_KEY_SIZE + SIGN_BYTES then None
    else Some((p[1..1 + PUBLIC_KEY_SIZE], p[1 + PUBLIC_KEY_SIZE..]))
  }

  /** The dispatch of a received payload: what it is handled as, if anything. */
  function Parse(p: seq<byte>): Option<Message> {
    match ExtractOpcode(p)
    case None => None
    case Some(opcode) =>
      if opcode == TEXT_MESSAGE then
        var t := ParseTextMessage(p);
        if t.Some? then Some(TextMessage(t.value)) else None
      else
        var r := ParseRotate(p, opcode);
        if r.None? then None
        else if opcode == PFS_ROTATE_REQUEST then Some(RotateRequest(r.value.0, r.value.1))
        else Some(RotateAck(r.value.0, r.value.1))
  }

  /** The layouts, opcode first. */
  lemma BuiltLayout(m: Message)
    requires Sized(m)
    ensures var p := Build(m);
            && p != []
            && p[0] == (match m case TextMessage(_) => 1 case RotateRequest(_, _) => 2 case RotateAck(_, _) => 3)
            && (m.TextMessage? ==> p[1..] == m.data)
            && (!m.TextMessage? ==> |p| == 97 && p[1..33] == m.key && p[33..] == m.signature)
  {
  }

  /** A payload is handled as a message exactly when it is that message's layout. */
  lemma ParsedIffBuilt(p: seq<byte>, m: Message)
    ensures Parse(p) == Some(m) <==> Sized(m) && p == Build(m)
  {
    if Sized(m) && p == Build(m) {
      BuiltLayout(m);
      hide Build;
    }
    if Parse(p) == Some(m) {
      ParsedLayout(p, m);
      hide Parse;
    }
  }

  lemma ParsedLayout(p: seq<byte>, m: Message)
    requires Parse(p) == Some(m)
    ensures Sized(m) && p == Build(m)
  {
    assert p == [p[0]] + p[1..];
    if !m.TextMessage? {
      assert p[1..] == p[1..1 + PUBLIC_KEY_SIZE] + p[1 + PUBLIC_KEY_SIZE..];
      assert p == [p[0]] + m.key + m.signature;
    }
  }
}
