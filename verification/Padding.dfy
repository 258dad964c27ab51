/** Padding to whole Tor cells, its removal, and the sizes of everything a client transmits. */
module Padding {
  import opened Common
  import opened Wire
  import PayloadFormatter

  const KEY_SIZE := 32
  const CIPHER_NONCE_SIZE := 24
  const MAC_SIZE := 16
  const FIXED_OVERHEAD := 61
  const MARKER: byte := 0x80

  /** The least number of cells that hold a frame with this much plaintext. */
  function Cells(n: nat): (c: nat)
    ensures c > 0
    ensures FIXED_OVERHEAD + n + 1 <= c * TOR_CELL
    ensures (c - 1) * TOR_CELL < FIXED_OVERHEAD + n + 1
  {
    (FIXED_OVERHEAD + (n + 1) + TOR_CELL - 1) / TOR_CELL
  }

  function PaddedSize(n: nat): (r: nat)
    ensures r > n
  {
    Cells(n) * TOR_CELL - FIXED_OVERHEAD
  }

  /** The marker byte, then zeros up to the padded size. */
  function Pad(p: seq<byte>): (r: seq<byte>)
    ensures |r| == PaddedSize(|p|)
  {
    p + [MARKER] + Zeroes(PaddedSize(|p|) - |p| - 1)
  }

  method PadPlaintext(plaintext: seq<byte>) returns (padded: seq<byte>)
    ensures padded == Pad(plaintext)
  {
    var paddedPlaintextSize := PaddedSize(|plaintext|);
    padded := plaintext + [MARKER];
    while |padded| < paddedPlaintextSize
      invariant |plaintext| + 1 <= |padded| <= paddedPlaintextSize
      invariant padded == plaintext + [MARKER] + Zeroes(|padded| - |plaintext| - 1)
    {
      padded := padded + [0];
    }
  }

  /** Drops trailing zeros and then one marker; anything else is no padding. */
  function Unpad(d: seq<byte>): Option<seq<byte>> {
    if d == [] then None
    else if d[|d| - 1] == 0 then Unpad(d[..|d| - 1])
    else if d[|d| - 1] == MARKER then Some(d[..|d| - 1])
    else None
  }

  method UnpadDecrypted(decrypted: seq<byte>) returns (r: Option<seq<byte>>)
    ensures r == Unpad(decrypted)
  {
    var it := |decrypted|;
    assert decrypted[..it] == decrypted;
    while it > 0 && decrypted[it - 1] == 0
      invariant 0 <= it <= |decrypted|
      invariant Unpad(decrypted) == Unpad(decrypted[..it])
    {
      assert decrypted[..it][..it - 1] == decrypted[..it - 1];
      it := it - 1;
    }
    if it == 0 || decrypted[it - 1] != MARKER {
      return None;
    }
    assert decrypted[..it][..it - 1] == decrypted[..it - 1];
    return Some(decrypted[..it - 1]);
  }

  lemma {:induction false} UnpadOfPadded(p: seq<byte>, k: nat)
    ensures Unpad(p + [MARKER] + Zeroes(k)) == Some(p)
    decreases k
  {
    var d := p + [MARKER] + Zeroes(k);
    if k == 0 {
      assert d == p + [MARKER];
    } else {
      assert d[..|d| - 1] == p + [MARKER] + Zeroes(k - 1);
      UnpadOfPadded(p, k - 1);
    }
  }

  lemma {:induction false} UnpadShape(d: seq<byte>)
    ensures Unpad(d).Some? ==> exists k: nat :: d == Unpad(d).value + [MARKER] + Zeroes(k)
    decreases |d|
  {
    if d != [] {
      var e := d[..|d| - 1];
      if d[|d| - 1] == 0 {
        UnpadShape(e);
        if Unpad(e).Some? {
          var k: nat :| e == Unpad(e).value + [MARKER] + Zeroes(k);
          assert d == Unpad(e).value + [MARKER] + Zeroes(k + 1);
        }
      } else if d[|d| - 1] == MARKER {
        assert d == e + [MARKER] + Zeroes(0);
      }
    }
  }

  /** Unpadding yields p exactly on p followed by the marker and zeros, even if p itself ends like padding. */
  lemma UnpadExactly(d: seq<byte>, p: seq<byte>)
    ensures Unpad(d) == Some(p) <==> exists k: nat :: d == p + [0x80] + Zeroes(k)
  {
    UnpadShape(d);
    forall k: nat | d == p + [MARKER] + Zeroes(k)
      ensures Unpad(d) == Some(p)
    {
      UnpadOfPadded(p, k);
    }
  }

  lemma PadRoundTrip(p: seq<byte>)
    ensures Unpad(Pad(p)) == Some(p)
  {
    UnpadOfPadded(p, PaddedSize(|p|) - |p| - 1);
  }

  // ---------------------------------------------------------------- encryption around it

  /** An authenticated cipher: key, nonce and message to ciphertext with tag, and back. */
  datatype Aead = Aead(seal: (seq<byte>, seq<byte>, seq<byte>) -> seq<byte>,
                       unseal: (seq<byte>, seq<byte>, seq<byte>) -> Option<seq<byte>>)

  ghost predicate Correct(a: Aead) {
    forall key, nonce, m :: |a.seal(key, nonce, m)| == |m| + MAC_SIZE && a.unseal(key, nonce, a.seal(key, nonce, m)) == Some(m)
  }

  function EncryptWithPadding(a: Aead, key: seq<byte>, nonce: seq<byte>, plaintext: seq<byte>): Option<seq<byte>> {
    if |key| != KEY_SIZE then None else Some(nonce + a.seal(key, nonce, Pad(plaintext)))
  }

  function DecryptAndUnpad(a: Aead, key: seq<byte>, ciphertext: seq<byte>): Option<seq<byte>> {
    if |key| != KEY_SIZE || |ciphertext| < CIPHER_NONCE_SIZE + MAC_SIZE then None
    else
      match a.unseal(key, ciphertext[..CIPHER_NONCE_SIZE], ciphertext[CIPHER_NONCE_SIZE..])
      case None => None
      case Some(decrypted) => Unpad(decrypted)
  }

  /** What is encrypted under a key of the right size decrypts to the same bytes under it. */
  lemma EncryptRoundTrip(a: Aead, key: seq<byte>, nonce: seq<byte>, plaintext: seq<byte>)
    requires Correct(a) && |key| == KEY_SIZE && |nonce| == CIPHER_NONCE_SIZE
    ensures var c := EncryptWithPadding(a, key, nonce, plaintext);
            c.Some? && DecryptAndUnpad(a, key, c.value) == Some(plaintext)
  {
    var sealed := a.seal(key, nonce, Pad(plaintext));
    assert (nonce + sealed)[..CIPHER_NONCE_SIZE] == nonce && (nonce + sealed)[CIPHER_NONCE_SIZE..] == sealed;
    PadRoundTrip(plaintext);
  }

  /** Encryption fails on a key of the wrong size; otherwise decryption under that key undoes it. */
  method Encrypt(a: Aead, key: seq<byte>, nonce: seq<byte>, plaintext: seq<byte>) returns (r: Option<seq<byte>>)
    requires Correct(a) && |nonce| == CIPHER_NONCE_SIZE
    ensures r == EncryptWithPadding(a, key, nonce, plaintext)
    ensures r.Some? <==> |key| == KEY_SIZE
    ensures r.Some? ==> DecryptAndUnpad(a, key, r.value) == Some(plaintext)
  {
    if |key| != KEY_SIZE {
      return None;
    }
    var padded := PadPlaintext(plaintext);
    EncryptRoundTrip(a, key, nonce, plaintext);
    r := Some(nonce + a.seal(key, nonce, padded));
  }

  /** Decryption fails on a key of the wrong size, a text too short for nonce and tag, a bad tag or bad padding. */
  method Decrypt(a: Aead, key: seq<byte>, ciphertext: seq<byte>) returns (r: Option<seq<byte>>)
    ensures r == DecryptAndUnpad(a, key, ciphertext)
    ensures |key| != KEY_SIZE || |ciphertext| < CIPHER_NONCE_SIZE + MAC_SIZE ==> r.None?
  {
    if |key| != KEY_SIZE || |ciphertext| < CIPHER_NONCE_SIZE + MAC_SIZE {
      return None;
    }
    var decrypted := a.unseal(key, ciphertext[..CIPHER_NONCE_SIZE], ciphertext[CIPHER_NONCE_SIZE..]);
    if decrypted.None? {
      return None;
    }
    r := UnpadDecrypted(decrypted.value);
  }

  // ---------------------------------------------------------------- sizes on the wire

  /** A frame fills a whole, positive number of cells. */
  predicate FillsCells(f: WireFrame) {
    |Serialize(f)| > 0 && |Serialize(f)| % TOR_CELL == 0
  }

  lemma WholeCells(c: nat)
    ensures (c * TOR_CELL) % TOR_CELL == 0
  {
  }

  /** The payload of a frame is left out only when its length is a multiple of 2^32. */
  lemma SizeOf(f: WireFrame)
    requires |f.payload| % 0x1_0000_0000 != 0
    ensures |Serialize(f)| == HEADER_SIZE + |f.payload|
  {
    Pow256Of4();
  }

  /** Whole even cells less an odd header: never a multiple of 2^32. */
  lemma OddPayload(c: nat, n: nat)
    requires n == c * TOR_CELL - HEADER_SIZE
    ensures n % 0x1_0000_0000 != 0
  {
    assert n == 2 * (c * 249 - 11) + 1;
  }

  lemma EncryptedSize(a: Aead, key: seq<byte>, nonce: seq<byte>, plaintext: seq<byte>)
    requires Correct(a) && |key| == KEY_SIZE && |nonce| == CIPHER_NONCE_SIZE
    ensures var c := EncryptWithPadding(a, key, nonce, plaintext);
            c.Some? && |c.value| == Cells(|plaintext|) * TOR_CELL - HEADER_SIZE
  {
  }

  /**
    * Every encrypted push and acknowledgement fills the fewest whole cells that hold it, whatever the
    * length of the plaintext.
    */
  lemma EncryptedFillsCells(a: Aead, key: seq<byte>, nonce: seq<byte>, plaintext: seq<byte>, m: Mailbox)
    requires Correct(a) && |key| == KEY_SIZE && |nonce| == CIPHER_NONCE_SIZE
    ensures var payload := EncryptWithPadding(a, key, nonce, plaintext).value;
            && FillsCells(CreatePush(m, payload)) && FillsCells(CreateAck(m, payload))
            && |Serialize(CreatePush(m, payload))| == Cells(|plaintext|) * TOR_CELL
            && |Serialize(CreateAck(m, payload))| == Cells(|plaintext|) * TOR_CELL
  {
    hide Serialize;
    EncryptedSize(a, key, nonce, plaintext);
    hide EncryptWithPadding;
    var payload := EncryptWithPadding(a, key, nonce, plaintext).value;
    OddPayload(Cells(|plaintext|), |payload|);
    SizeOf(CreatePush(m, payload));
    SizeOf(CreateAck(m, payload));
    WholeCells(Cells(|plaintext|));
  }

  lemma ControlFillsCells(m: Mailbox, nonce: seq<byte>)
    requires |nonce| <= CONTROL_PAYLOAD
    ensures |Serialize(CreatePoll(m))| == TOR_CELL && |Serialize(CreateAuthResponse(m, nonce))| == TOR_CELL
  {
    SizeOf(CreatePoll(m));
    SizeOf(CreateAuthResponse(m, nonce));
  }

  const MAX_PLAINTEXT := 1048228

  lemma CellLimit(n: nat)
    ensures PaddedSize(n) + MAC_SIZE + CIPHER_NONCE_SIZE <= MAX_PAYLOAD <==> n <= MAX_PLAINTEXT
  {
    var c := Cells(n);
    if n <= MAX_PLAINTEXT {
      assert (c - 1) * TOR_CELL < 2105 * TOR_CELL;
      assert c <= 2105;
    } else {
      assert c > 2105;
    }
  }

  /** The relay's parser takes the frame of a plaintext whole exactly when it has at most MAX_PLAINTEXT bytes. */
  lemma DeliverableIffShort(a: Aead, key: seq<byte>, nonce: seq<byte>, plaintext: seq<byte>, m: Mailbox)
    requires Correct(a) && |key| == KEY_SIZE && |nonce| == CIPHER_NONCE_SIZE
    ensures var f := CreatePush(m, EncryptWithPadding(a, key, nonce, plaintext).value);
            Decode(Serialize(f)).frames == [f] <==> |plaintext| <= MAX_PLAINTEXT
  {
    hide Serialize, Decode;
    EncryptedSize(a, key, nonce, plaintext);
    CellLimit(|plaintext|);
    AcceptedIffWithinLimit(CreatePush(m, EncryptWithPadding(a, key, nonce, plaintext).value));
  }

  /** The opcode takes one byte of the plaintext. */
  const MAX_TEXT := MAX_PLAINTEXT - 1

  /**
    * The longest text that gets through: a text of at most MAX_TEXT bytes reaches the relay's broker,
    * and a longer one never does, though the sender encrypts and sends it.
    */
  lemma TextDeliverableIffShort(a: Aead, key: seq<byte>, nonce: seq<byte>, text: seq<byte>, m: Mailbox)
    requires Correct(a) && |key| == KEY_SIZE && |nonce| == CIPHER_NONCE_SIZE
    ensures var plaintext := PayloadFormatter.Build(PayloadFormatter.TextMessage(text));
            var f := CreatePush(m, EncryptWithPadding(a, key, nonce, plaintext).value);
            Decode(Serialize(f)).frames == [f] <==> |text| <= MAX_TEXT
  {
    hide Serialize, Decode, EncryptWithPadding;
    var plaintext := PayloadFormatter.Build(PayloadFormatter.TextMessage(text));
    DeliverableIffShort(a, key, nonce, plaintext, m);
  }

  /** Below 4 GiB the frame of a longer plaintext is malformed to the parser, which closes the connection. */
  lemma LongTextCloses(a: Aead, key: seq<byte>, nonce: seq<byte>, plaintext: seq<byte>, m: Mailbox)
    requires Correct(a) && |key| == KEY_SIZE && |nonce| == CIPHER_NONCE_SIZE
    requires Cells(|plaintext|) * TOR_CELL < Pow256(4)
    ensures var f := CreatePush(m, EncryptWithPadding(a, key, nonce, plaintext).value);
            Decode(Serialize(f)).malformed <==> |plaintext| > MAX_PLAINTEXT
  {
    hide Serialize, Decode;
    EncryptedSize(a, key, nonce, plaintext);
    CellLimit(|plaintext|);
    MalformedIffBeyondLimit(CreatePush(m, EncryptWithPadding(a, key, nonce, plaintext).value));
  }
}
