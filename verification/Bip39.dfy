/**
  * Public keys as 24-word mnemonics: 256 key bits and an 8-bit checksum, cut into 24 groups of 11
  * bits, each naming a dictionary word. SHA-256 enters as the function `sum` from a key to the first
  * byte of its hash; the dictionary is any list with the properties `IsDictionary` states.
  */
module Bip39 {
  import opened Common
  import opened Bits
  import opened Words

  const KEY_SIZE := 32
  const WORDS_IN_MNEMONIC := 24
  const BIP_BITS := 264
  const DEFAULT_CAPACITY := 256
  const LONGEST_WORD := 8

  predicate IsKey(key: seq<byte>) {
    |key| == KEY_SIZE
  }

  predicate IsDictionary(dict: seq<string>) {
    && |dict| == 2048
    && Sorted(dict)
    && DashFree(dict)
    && forall i | 0 <= i < |dict| :: |dict[i]| <= LONGEST_WORD
  }

  lemma Powers()
    ensures Pow2(8) == 256 && Pow2(11) == 2048
  {
    assert Pow2(4) == 16;
    assert Pow2(8) == 256;
  }

  // ---------------------------------------------------------------- what a mnemonic is

  /** 33 bytes read as 24 numbers of 11 bits. */
  function Pack(bytes: seq<byte>): (r: seq<nat>)
    requires |bytes| == KEY_SIZE + 1
    ensures |r| == WORDS_IN_MNEMONIC
    ensures forall i | 0 <= i < |r| :: r[i] < 2048
  {
    Powers();
    Group(Spread(bytes, 8), 11, WORDS_IN_MNEMONIC)
  }

  /** 24 numbers of 11 bits read as 33 bytes. */
  function Unpack(ns: seq<nat>): (r: seq<byte>)
    requires |ns| == WORDS_IN_MNEMONIC
    ensures |r| == KEY_SIZE + 1
  {
    Powers();
    Group(Spread(ns, 11), 8, KEY_SIZE + 1)
  }

  function WordsAt(dict: seq<string>, ns: seq<nat>): (r: seq<string>)
    requires forall i | 0 <= i < |ns| :: ns[i] < |dict|
    ensures |r| == |ns|
    ensures forall i | 0 <= i < |ns| :: r[i] == dict[ns[i]]
  {
    seq(|ns|, i requires 0 <= i < |ns| => dict[ns[i]])
  }

  function Mnemonic(key: seq<byte>, sum: seq<byte> -> byte, dict: seq<string>): string
    requires IsKey(key) && IsDictionary(dict)
  {
    Join(WordsAt(dict, Pack(key + [sum(key)])))
  }

  ghost function PlaceOf(dict: seq<string>, w: string): (r: nat)
    requires w in dict
    ensures r < |dict| && dict[r] == w
  {
    var i :| 0 <= i < |dict| && dict[i] == w;
    i
  }

  ghost function PlacesOf(dict: seq<string>, words: seq<string>): (r: seq<nat>)
    requires forall w | w in words :: w in dict
    ensures |r| == |words|
    ensures forall i | 0 <= i < |r| :: r[i] < |dict| && dict[r[i]] == words[i]
  {
    seq(|words|, i requires 0 <= i < |words| => PlaceOf(dict, words[i]))
  }

  /** The key a text stands for: 24 dictionary words whose last 8 bits are the checksum. */
  ghost function KeyOf(s: string, sum: seq<byte> -> byte, dict: seq<string>): (r: Option<seq<byte>>)
    requires IsDictionary(dict)
    ensures r.Some? ==> IsKey(r.value)
  {
    var words := Split(s);
    if |words| != WORDS_IN_MNEMONIC || exists w :: w in words && w !in dict then None
    else
      Checked(Unpack(PlacesOf(dict, words)), sum)
  }

  function Checked(bytes: seq<byte>, sum: seq<byte> -> byte): (r: Option<seq<byte>>)
    requires |bytes| == KEY_SIZE + 1
  {
    if sum(bytes[..KEY_SIZE]) != bytes[KEY_SIZE] then None else Some(bytes[..KEY_SIZE])
  }

  // ---------------------------------------------------------------- properties

  lemma UnpackPack(bytes: seq<byte>)
    requires |bytes| == KEY_SIZE + 1
    ensures Unpack(Pack(bytes)) == bytes
  {
    Powers();
    SpreadGroup(Spread(bytes, 8), 11, WORDS_IN_MNEMONIC);
    GroupSpread(bytes, 8);
  }

  lemma PackUnpack(ns: seq<nat>)
    requires |ns| == WORDS_IN_MNEMONIC
    requires forall i | 0 <= i < |ns| :: ns[i] < 2048
    ensures Pack(Unpack(ns)) == ns
  {
    Powers();
    SpreadGroup(Spread(ns, 11), 8, KEY_SIZE + 1);
    GroupSpread(ns, 11);
  }

  /** Bytes and word places write the same number, in base 256 and in base 2048. */
  lemma SameNumber(bytes: seq<byte>)
    requires |bytes| == KEY_SIZE + 1
    ensures Number(bytes, 256) == Number(Pack(bytes), 2048)
  {
    Powers();
    SpreadNumber(bytes, 8);
    SpreadNumber(Pack(bytes), 11);
    SpreadGroup(Spread(bytes, 8), 11, WORDS_IN_MNEMONIC);
  }

  /**
    * A mnemonic is 24 dictionary words between dashes; their places are the digits, in base 2048, of the
    * number that the key and its checksum byte write in base 256.
    */
  lemma MnemonicIs(key: seq<byte>, sum: seq<byte> -> byte, dict: seq<string>)
    requires IsKey(key) && IsDictionary(dict)
    ensures var words := Split(Mnemonic(key, sum, dict));
            && |words| == 24 && (forall w | w in words :: w in dict)
            && Number(PlacesOf(dict, words), 2048) == Number(key + [sum(key)], 256)
  {
    hide Pack, Split, Join, Number;
    var bytes := key + [sum(key)];
    var words := WordsAt(dict, Pack(bytes));
    SplitJoin(words);
    PlacesUnique(dict, Pack(bytes));
    SameNumber(bytes);
  }

  /** Looking the words of a list of places up again gives those places. */
  lemma PlacesUnique(dict: seq<string>, ns: seq<nat>)
    requires IsDictionary(dict)
    requires forall i | 0 <= i < |ns| :: ns[i] < |dict|
    ensures forall w | w in WordsAt(dict, ns) :: w in dict
    ensures PlacesOf(dict, WordsAt(dict, ns)) == ns
  {
    var words := WordsAt(dict, ns);
    forall i | 0 <= i < |ns|
      ensures PlacesOf(dict, words)[i] == ns[i]
    {
      SortedDistinct(dict, PlacesOf(dict, words)[i], ns[i]);
    }
  }

  /** A text stands for a key exactly when it is that key's mnemonic. */
  lemma KeyOfMnemonic(s: string, key: seq<byte>, sum: seq<byte> -> byte, dict: seq<string>)
    requires IsKey(key) && IsDictionary(dict)
    ensures KeyOf(s, sum, dict) == Some(key) <==> s == Mnemonic(key, sum, dict)
  {
    hide KeyOf, Mnemonic, IsDictionary;
    if s == Mnemonic(key, sum, dict) {
      MnemonicRead(key, sum, dict);
    }
    if KeyOf(s, sum, dict) == Some(key) {
      ReadMnemonic(s, key, sum, dict);
    }
  }

  lemma ReadMnemonic(s: string, key: seq<byte>, sum: seq<byte> -> byte, dict: seq<string>)
    requires IsKey(key) && IsDictionary(dict) && KeyOf(s, sum, dict) == Some(key)
    ensures s == Mnemonic(key, sum, dict)
  {
    hide Pack, Unpack, Split, Join, Sorted, DashFree;
    var words := Split(s);
    var ns := PlacesOf(dict, words);
    assert Unpack(ns) == key + [sum(key)];
    PackUnpack(ns);
    assert WordsAt(dict, ns) == words;
    JoinSplit(s);
  }

  lemma MnemonicRead(key: seq<byte>, sum: seq<byte> -> byte, dict: seq<string>)
    requires IsKey(key) && IsDictionary(dict)
    ensures KeyOf(Mnemonic(key, sum, dict), sum, dict) == Some(key)
  {
    hide Pack, Unpack, Split, Join;
    var bytes := key + [sum(key)];
    var ns := Pack(bytes);
    var words := WordsAt(dict, ns);
    SplitJoin(words);
    PlacesUnique(dict, ns);
    UnpackPack(bytes);
    assert bytes[..KEY_SIZE] == key;
  }

  /** No two keys share a mnemonic. */
  lemma MnemonicInjective(a: seq<byte>, b: seq<byte>, sum: seq<byte> -> byte, dict: seq<string>)
    requires IsKey(a) && IsKey(b) && IsDictionary(dict)
    requires Mnemonic(a, sum, dict) == Mnemonic(b, sum, dict)
    ensures a == b
  {
    MnemonicRead(a, sum, dict);
    MnemonicRead(b, sum, dict);
  }

  /** The first words of a mnemonic never fill the default buffer. */
  lemma PrefixFits(dict: seq<string>, words: seq<string>)
    requires IsDictionary(dict) && 0 < |words| <= WORDS_IN_MNEMONIC
    requires forall w | w in words :: w in dict
    ensures |Join(words)| < DEFAULT_CAPACITY - 1
  {
    forall i | 0 <= i < |words|
      ensures |words[i]| <= LONGEST_WORD
    {
      assert words[i] in words;
    }
    JoinLength(words, LONGEST_WORD);
  }

  // ---------------------------------------------------------------- the text buffer

  /** A fixed buffer of characters holding a terminated text. */
  class SecureString {
    const data: array<char>
    var size: nat

    ghost predicate Valid()
      reads this, data
    {
      size < data.Length && data[size] == '\0'
    }

    ghost function Text(): string
      requires Valid()
      reads this, data
    {
      data[..size]
    }

    constructor (capacity: nat)
      requires capacity > 0
      ensures Valid() && fresh(data) && data.Length == capacity && Text() == ""
    {
      data := new char[capacity];
      size := 0;
      new;
      data[0] := '\0';
    }

    /** Appends while there is room for the character and the terminator; otherwise discards. */
    method PushBack(c: char)
      requires Valid()
      modifies this, data
      ensures Valid()
      ensures Text() == if old(size) < data.Length - 1 then old(Text()) + [c] else old(Text())
    {
      if size < data.Length - 1 {
        data[size] := c;
        size := size + 1;
        data[size] := '\0';
      }
    }

    method PushAll(w: string)
      requires Valid() && size + |w| < data.Length
      modifies this, data
      ensures Valid() && Text() == old(Text()) + w
    {
      for i := 0 to |w|
        invariant Valid() && size == old(size) + i
        invariant Text() == old(Text()) + w[..i]
      {
        PushBack(w[i]);
        assert w[..i + 1] == w[..i] + [w[i]];
      }
      assert w[..|w|] == w;
    }
  }

  // ---------------------------------------------------------------- encoding

  lemma BitOfByte(bytes: seq<byte>, i: nat)
    requires |bytes| == KEY_SIZE + 1 && i < BIP_BITS
    ensures |Spread(bytes, 8)| == BIP_BITS
    ensures Spread(bytes, 8)[i] == (Shr(bytes[i / 8], 7 - i % 8) % 2 == 1)
  {
    SpreadAt(bytes, 8, i / 8, i % 8, i);
    BitAt(bytes[i / 8], 8, i % 8);
  }

  lemma ValSnoc(bits: seq<bool>, lo: nat, hi: nat)
    requires lo <= hi < |bits|
    ensures Val(bits[lo..hi + 1]) == 2 * Val(bits[lo..hi]) + Digit(bits[hi])
  {
    assert bits[lo..hi + 1][..hi - lo] == bits[lo..hi];
  }

  /** Shifting a bit into the number read so far. */
  lemma ShiftIn(bits: seq<bool>, lo: nat, hi: nat)
    requires lo <= hi < |bits|
    ensures Or(Shl(Val(bits[lo..hi]), 1), Digit(bits[hi])) == Val(bits[lo..hi + 1])
  {
    ValSnoc(bits, lo, hi);
    OrAppends(Val(bits[lo..hi]), bits[hi], 0);
    assert Pow2(0) == 1;
  }

  /** The eleven bits just read are the next number of the packing. */
  lemma PackedAt(bytes: seq<byte>, w: nat)
    requires |bytes| == KEY_SIZE + 1 && w < WORDS_IN_MNEMONIC
    ensures |Spread(bytes, 8)| == BIP_BITS
    ensures Pack(bytes)[w] == Val(Spread(bytes, 8)[11 * w..11 * w + 11])
  {
    GroupAt(Spread(bytes, 8), 11, WORDS_IN_MNEMONIC, w, 11 * w);
  }

  lemma NextWord(dict: seq<string>, words: seq<string>, k: nat)
    requires IsDictionary(dict) && |words| == WORDS_IN_MNEMONIC && k < |words|
    requires forall w | w in words :: w in dict
    ensures Join(words[..k + 1]) == (if k == 0 then "" else Join(words[..k]) + [DASH]) + words[k]
    ensures |Join(words[..k + 1])| < DEFAULT_CAPACITY - 1
  {
    PrefixFits(dict, words[..k + 1]);
    if k > 0 {
      JoinSnoc(words[..k], words[k]);
      assert words[..k + 1] == words[..k] + [words[k]];
    }
  }

  /** Appends word k of a mnemonic, after a dash unless it is the first. */
  method PushWord(result: SecureString, dict: seq<string>, ghost words: seq<string>, w: string, k: nat)
    requires IsDictionary(dict) && |words| == WORDS_IN_MNEMONIC && k < |words| && words[k] == w
    requires forall v | v in words :: v in dict
    requires result.Valid() && result.data.Length == DEFAULT_CAPACITY
    requires result.Text() == Join(words[..k])
    modifies result, result.data
    ensures result.Valid() && result.Text() == Join(words[..k + 1])
  {
    NextWord(dict, words, k);
    EmptyReads();
    hide Join, IsDictionary;
    if k > 0 {
      result.PushBack(DASH);
    }
    result.PushAll(w);
  }

  /** The bits of the word being read, after the first i bits. */
  ghost function Pending(bits: seq<bool>, i: nat): nat
    requires i <= |bits|
  {
    Val(bits[11 * (i / 11)..i])
  }

  lemma NonePending(bits: seq<bool>, i: nat)
    requires i <= |bits| && i % 11 == 0
    ensures Pending(bits, i) == 0
  {
    EmptyReads();
  }

  lemma ReadBit(bits: seq<bool>, i: nat)
    requires i < |bits|
    ensures var w := i / 11;
      Or(Shl(Pending(bits, i), 1), Digit(bits[i])) ==
      if (i + 1) % 11 == 0 then Val(bits[11 * w..i + 1]) else Pending(bits, i + 1)
  {
    hide Or, Shl, Val;
    ShiftIn(bits, 11 * (i / 11), i);
    Rows(i);
  }

  lemma Rows(i: nat)
    ensures (i + 1) % 11 == 0 ==> i + 1 == 11 * (i / 11) + 11 && (i + 1) / 11 == i / 11 + 1
    ensures (i + 1) % 11 != 0 ==> (i + 1) / 11 == i / 11
  {
  }

  /** Encoding writes the whole mnemonic: nothing is cut off by the buffer's capacity. */
  method Encode(key: seq<byte>, sum: seq<byte> -> byte, dict: seq<string>) returns (result: SecureString)
    requires IsKey(key) && IsDictionary(dict)
    ensures fresh(result) && fresh(result.data) && result.Valid()
    ensures result.Text() == Mnemonic(key, sum, dict)
  {
    hide Pack, Join, Spread, Val, Or, Shl, Shr, Pending, Sorted, DashFree;
    result := new SecureString(DEFAULT_CAPACITY);
    var buffer := key + [sum(key)];
    var wordIndex := 0;
    ghost var bits := Spread(buffer, 8);
    ghost var words := WordsAt(dict, Pack(buffer));
    EmptyReads();
    NonePending(bits, 0);
    for i := 0 to BIP_BITS
      invariant fresh(result) && fresh(result.data) && result.Valid()
      invariant result.data.Length == DEFAULT_CAPACITY
      invariant wordIndex == Pending(bits, i)
      invariant result.Text() == Join(words[..i / 11])
    {
      BitOfByte(buffer, i);
      ReadBit(bits, i);
      Rows(i);
      var bit := Shr(buffer[i / 8], 7 - i % 8) % 2 == 1;
      wordIndex := Or(Shl(wordIndex, 1), Digit(bit));
      if (i + 1) % 11 == 0 {
        PackedAt(buffer, i / 11);
        PushWord(result, dict, words, dict[wordIndex], i / 11);
        wordIndex := 0;
        NonePending(bits, i + 1);
      }
    }
    assert words[..WORDS_IN_MNEMONIC] == words;
  }

  lemma EmptyReads()
    ensures Val([]) == 0 && Join([]) == ""
  {
  }

  // ---------------------------------------------------------------- decoding

  /** Cuts a text at its dashes, giving up past the 24th piece. */
  method Cut(s: string) returns (r: Option<seq<string>>)
    ensures r == if |Split(s)| == WORDS_IN_MNEMONIC then Some(Split(s)) else None
  {
    hide Split;
    var words: seq<string> := [];
    var start := 0;
    var end := Find(s, 0);
    assert s[0..] == s;
    while end != |s|
      invariant start <= |s| && end == Find(s, start)
      invariant Split(s) == words + Split(s[start..])
      invariant |words| < WORDS_IN_MNEMONIC
      decreases |s| - start
    {
      SplitRest(s, start);
      if |words| >= WORDS_IN_MNEMONIC - 1 {
        return None;
      }
      words := words + [s[start..end]];
      start := end + 1;
      end := Find(s, start);
    }
    SplitRest(s, start);
    if |words| != WORDS_IN_MNEMONIC - 1 {
      return None;
    }
    return Some(words + [s[start..]]);
  }

  /** Byte b of the packing once the first i bits have been or-ed in. */
  function ByteAfter(bits: seq<bool>, b: nat, i: nat): nat
    requires 8 * b + 8 <= |bits| && i <= |bits|
  {
    if i <= 8 * b then 0
    else if i >= 8 * b + 8 then Val(bits[8 * b..8 * b + 8])
    else Shl(Val(bits[8 * b..i]), 8 * b + 8 - i)
  }

  lemma ByteStep(bits: seq<bool>, i: nat)
    requires |bits| == BIP_BITS && i < BIP_BITS
    ensures ByteAfter(bits, i / 8, i + 1) ==
            Or(ByteAfter(bits, i / 8, i), Shl(Digit(bits[i]), 7 - i % 8))
    ensures forall b | 0 <= b <= KEY_SIZE && b != i / 8 :: ByteAfter(bits, b, i + 1) == ByteAfter(bits, b, i)
  {
    hide Or, Val;
    var b := i / 8;
    EmptyReads();
    ValSnoc(bits, 8 * b, i);
    OrAppends(Val(bits[8 * b..i]), bits[i], 7 - i % 8);
    assert Pow2(0) == 1;
    assert Shl(0, 8) == 0;
  }

  lemma BytesDone(ns: seq<nat>, b: nat)
    requires |ns| == WORDS_IN_MNEMONIC && b <= KEY_SIZE
    ensures |Spread(ns, 11)| == BIP_BITS
    ensures Unpack(ns)[b] == ByteAfter(Spread(ns, 11), b, BIP_BITS)
  {
    GroupAt(Spread(ns, 11), 8, KEY_SIZE + 1, b, 8 * b);
  }

  lemma BitOfWord(ns: seq<nat>, i: nat)
    requires |ns| == WORDS_IN_MNEMONIC && i < BIP_BITS
    ensures |Spread(ns, 11)| == BIP_BITS
    ensures Spread(ns, 11)[i] == (Shr(ns[i / 11], 10 - i % 11) % 2 == 1)
  {
    SpreadAt(ns, 11, i / 11, i % 11, i);
    BitAt(ns[i / 11], 11, i % 11);
  }

  /** The packing loop: one bit of a word index or-ed into one byte of a zeroed array. */
  method PackBits(ns: seq<nat>) returns (entropy: array<nat>)
    requires |ns| == WORDS_IN_MNEMONIC
    ensures fresh(entropy) && entropy[..] == Unpack(ns)
  {
    hide Spread, Unpack, ByteAfter, Or, Pow2;
    entropy := new nat[KEY_SIZE + 1](_ => 0);
    ghost var bits := Spread(ns, 11);
    BitOfWord(ns, 0);
    forall b | 0 <= b <= KEY_SIZE
      ensures ByteAfter(bits, b, 0) == 0
    {
      NothingYet(bits, b);
    }
    for i := 0 to BIP_BITS
      invariant fresh(entropy) && entropy.Length == KEY_SIZE + 1
      invariant forall b | 0 <= b <= KEY_SIZE :: entropy[b] == ByteAfter(bits, b, i)
    {
      BitOfWord(ns, i);
      ByteStep(bits, i);
      var bit := Shr(ns[i / 11], 10 - i % 11) % 2 == 1;
      entropy[i / 8] := Or(entropy[i / 8], Shl(Digit(bit), 7 - i % 8));
    }
    forall b | 0 <= b <= KEY_SIZE
      ensures entropy[b] == Unpack(ns)[b]
    {
      BytesDone(ns, b);
    }
  }

  lemma NothingYet(bits: seq<bool>, b: nat)
    requires |bits| == BIP_BITS && b <= KEY_SIZE
    ensures ByteAfter(bits, b, 0) == 0
  {
  }

  /** Decoding returns the key a text stands for, and nothing for every other text. */
  method Decode(s: string, sum: seq<byte> -> byte, dict: seq<string>) returns (r: Option<seq<byte>>)
    requires IsDictionary(dict)
    ensures r == KeyOf(s, sum, dict)
  {
    hide Split, Unpack, Sorted, DashFree;
    var cut := Cut(s);
    if cut.None? {
      return None;
    }
    var words := cut.value;
    var indices: seq<nat> := [];
    for i := 0 to WORDS_IN_MNEMONIC
      invariant |indices| == i
      invariant forall k | 0 <= k < i :: indices[k] < |dict| && dict[indices[k]] == words[k]
    {
      var at := Lookup(dict, words[i]);
      if at.None? {
        assert words[i] in words && words[i] !in dict;
        return None;
      }
      indices := indices + [at.value];
    }
    assert WordsAt(dict, indices) == words;
    PlacesUnique(dict, indices);
    var entropy := PackBits(indices);
    var bytes: seq<byte> := entropy[..];
    if sum(bytes[..KEY_SIZE]) != bytes[KEY_SIZE] {
      return None;
    }
    return Some(bytes[..KEY_SIZE]);
  }
}
