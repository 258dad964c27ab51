/** Numbers as bits, most significant first, and the regrouping of a bit string into words. */
module Bits {

  function Pow2(k: nat): (r: nat)
    ensures r > 0
  {
    if k == 0 then 1 else 2 * Pow2(k - 1)
  }

  function Digit(b: bool): nat {
    if b then 1 else 0
  }

  /** The number written by a bit string. */
  function Val(bits: seq<bool>): (r: nat)
    ensures r < Pow2(|bits|)
  {
    if bits == [] then 0 else 2 * Val(bits[..|bits| - 1]) + Digit(bits[|bits| - 1])
  }

  /** The k low bits of a number. */
  function BitsOf(n: nat, k: nat): (r: seq<bool>)
    ensures |r| == k
    decreases k
  {
    if k == 0 then [] else BitsOf(n / 2, k - 1) + [n % 2 == 1]
  }

  lemma {:induction false} ValOfBits(n: nat, k: nat)
    requires n < Pow2(k)
    ensures Val(BitsOf(n, k)) == n
    decreases k
  {
    if k > 0 {
      ValOfBits(n / 2, k - 1);
      assert BitsOf(n, k)[..k - 1] == BitsOf(n / 2, k - 1);
    }
  }

  lemma {:induction false} BitsOfVal(bits: seq<bool>)
    ensures BitsOf(Val(bits), |bits|) == bits
  {
    if bits != [] {
      var front := bits[..|bits| - 1];
      BitsOfVal(front);
      assert Val(bits) / 2 == Val(front);
      assert bits == front + [bits[|bits| - 1]];
    }
  }

  lemma {:induction false} BitAt(n: nat, k: nat, j: nat)
    requires j < k
    ensures BitsOf(n, k)[j] == ((n / Pow2(k - 1 - j)) % 2 == 1)
    decreases k
  {
    if j < k - 1 {
      BitAt(n / 2, k - 1, j);
      DivTwice(n, Pow2(k - 2 - j));
    } else {
      assert Pow2(0) == 1;
    }
  }

  lemma DivTwice(n: nat, m: nat)
    requires m > 0
    ensures (n / 2) / m == n / (2 * m)
  {
    var q, r := (n / 2) / m, (n / 2) % m;
    assert n / 2 == m * q + r;
    assert n == (2 * m) * q + (2 * r + n % 2);
    DivUnique(n, 2 * m, q, 2 * r + n % 2);
  }

  lemma DivUnique(n: nat, d: nat, q: nat, r: nat)
    requires d > 0 && r < d && n == d * q + r
    ensures n / d == q
  {
    var k := n / d;
    assert k < q ==> d * (k + 1) <= d * q;
    assert q < k ==> d * (q + 1) <= d * k;
  }

  // ---------------------------------------------------------------- regrouping

  predicate Fits(ns: seq<nat>, g: nat) {
    forall i | 0 <= i < |ns| :: ns[i] < Pow2(g)
  }

  /** Numbers of g bits each, written out one after the other. */
  function Spread(ns: seq<nat>, g: nat): (r: seq<bool>)
    ensures |r| == |ns| * g
  {
    if ns == [] then [] else BitsOf(ns[0], g) + Spread(ns[1..], g)
  }

  lemma Distribute(a: nat, b: nat)
    ensures (a + 1) * b == a * b + b
  {
  }

  /** A bit string read as n numbers of g bits each. */
  function Group(bits: seq<bool>, g: nat, n: nat): (r: seq<nat>)
    requires |bits| == n * g
    ensures |r| == n && Fits(r, g)
    decreases n
  {
    if n == 0 then []
    else
      Distribute(n - 1, g);
      [Val(bits[..g])] + Group(bits[g..], g, n - 1)
  }

  lemma {:induction false} SpreadGroup(bits: seq<bool>, g: nat, n: nat)
    requires |bits| == n * g
    ensures Spread(Group(bits, g, n), g) == bits
    decreases n
  {
    if n > 0 {
      GroupCons(bits, g, n);
      hide Group, Spread, BitsOf, Val, Fits;
      SpreadGroup(bits[g..], g, n - 1);
      SpreadCons(Val(bits[..g]), Group(bits[g..], g, n - 1), g);
      BitsOfVal(bits[..g]);
      assert bits == bits[..g] + bits[g..];
    }
  }

  lemma GroupCons(bits: seq<bool>, g: nat, n: nat)
    requires n > 0 && |bits| == n * g
    ensures g <= |bits| && |bits| - g == (n - 1) * g
    ensures Group(bits, g, n) == [Val(bits[..g])] + Group(bits[g..], g, n - 1)
  {
    Distribute(n - 1, g);
  }

  lemma SpreadCons(n: nat, ns: seq<nat>, g: nat)
    ensures Spread([n] + ns, g) == BitsOf(n, g) + Spread(ns, g)
  {
    assert ([n] + ns)[1..] == ns;
  }

  lemma {:induction false} GroupSpread(ns: seq<nat>, g: nat)
    requires Fits(ns, g)
    ensures Group(Spread(ns, g), g, |ns|) == ns
  {
    if ns != [] {
      Distribute(|ns| - 1, g);
      GroupSpread(ns[1..], g);
      ValOfBits(ns[0], g);
      var bits := Spread(ns, g);
      assert bits[..g] == BitsOf(ns[0], g) && bits[g..] == Spread(ns[1..], g);
    }
  }

  /** The j-th bit of the w-th number, at its place in the bit string. */
  lemma {:induction false} SpreadAt(ns: seq<nat>, g: nat, w: nat, j: nat, place: nat)
    requires w < |ns| && j < g && place == w * g + j
    ensures place < |Spread(ns, g)| && Spread(ns, g)[place] == BitsOf(ns[w], g)[j]
    decreases w
  {
    Distribute(|ns| - 1, g);
    if w > 0 {
      Distribute(w - 1, g);
      SpreadAt(ns[1..], g, w - 1, j, place - g);
      assert Spread(ns, g)[place] == Spread(ns[1..], g)[place - g];
    }
  }

  /** The w-th number, read off its place in the bit string. */
  lemma {:induction false} GroupAt(bits: seq<bool>, g: nat, n: nat, w: nat, place: nat)
    requires |bits| == n * g && w < n && place == w * g
    ensures place + g <= |bits| && Group(bits, g, n)[w] == Val(bits[place..place + g])
    decreases w
  {
    hide Val;
    Distribute(n - 1, g);
    if w == 0 {
      assert bits[0..g] == bits[..g];
    } else {
      Distribute(w - 1, g);
      var rest := bits[g..];
      GroupAt(rest, g, n - 1, w - 1, place - g);
      assert Group(bits, g, n)[w] == Group(rest, g, n - 1)[w - 1];
      SliceOfRest(bits, g, place);
    }
  }

  lemma SliceOfRest<T>(s: seq<T>, from: nat, place: nat)
    requires from <= place && place + from <= |s|
    ensures s[from..][place - from..place] == s[place..place + from]
  {
  }

  /** The number written by digits in some base, the most significant first. */
  function Number(digits: seq<nat>, base: nat): nat {
    if digits == [] then 0 else Number(digits[..|digits| - 1], base) * base + digits[|digits| - 1]
  }

  lemma {:induction false} ValConcat(a: seq<bool>, b: seq<bool>)
    ensures Val(a + b) == Val(a) * Pow2(|b|) + Val(b)
    decreases |b|
  {
    if b == [] {
      assert a + b == a;
    } else {
      var front, last := b[..|b| - 1], b[|b| - 1];
      assert (a + b)[..|a + b| - 1] == a + front && (a + b)[|a + b| - 1] == last;
      ValConcat(a, front);
      Twice(Val(a), Pow2(|front|), Val(front), Digit(last));
    }
  }

  lemma Twice(v: nat, p: nat, f: nat, d: nat)
    ensures 2 * (v * p + f) + d == v * (2 * p) + (2 * f + d)
  {
  }

  lemma {:induction false} SpreadSnoc(ns: seq<nat>, n: nat, g: nat)
    ensures Spread(ns + [n], g) == Spread(ns, g) + BitsOf(n, g)
  {
    hide BitsOf;
    if ns == [] {
      assert ns + [n] == [n] && [n][1..] == [];
      assert Spread([n], g) == BitsOf(n, g) + [];
    } else {
      assert (ns + [n])[0] == ns[0] && (ns + [n])[1..] == ns[1..] + [n];
      SpreadSnoc(ns[1..], n, g);
    }
  }

  /** Written out in bits, digits of g bits each are their number in base 2^g. */
  lemma {:induction false} SpreadNumber(ns: seq<nat>, g: nat)
    requires Fits(ns, g)
    ensures Val(Spread(ns, g)) == Number(ns, Pow2(g))
    decreases |ns|
  {
    if ns != [] {
      var front, last := ns[..|ns| - 1], ns[|ns| - 1];
      assert ns == front + [last];
      SpreadSnoc(front, last, g);
      ValConcat(Spread(front, g), BitsOf(last, g));
      ValOfBits(last, g);
      SpreadNumber(front, g);
    }
  }

  // ---------------------------------------------------------------- machine operators

  /** Bitwise or of two non-negative numbers. */
  function Or(a: nat, b: nat): (r: nat)
    decreases a + b
  {
    if a == 0 && b == 0 then 0
    else 2 * Or(a / 2, b / 2) + Digit(a % 2 == 1 || b % 2 == 1)
  }

  function Shl(a: nat, k: nat): nat {
    a * Pow2(k)
  }

  function Shr(a: nat, k: nat): nat {
    QuotientOfNats(a, Pow2(k));
    a / Pow2(k)
  }

  lemma QuotientOfNats(a: nat, d: nat)
    requires d > 0
    ensures a / d >= 0
  {
  }

  lemma {:induction false} OrZero(a: nat)
    ensures Or(a, 0) == a
  {
    if a > 0 { OrZero(a / 2); }
  }

  /** Or-ing one bit into the zero below a shifted prefix appends that bit to the prefix. */
  lemma {:induction false} OrAppends(v: nat, bit: bool, k: nat)
    ensures Or(Shl(v, k + 1), Shl(Digit(bit), k)) == Shl(2 * v + Digit(bit), k)
    decreases k
  {
    hide Or, Pow2, Shl;
    if k == 0 {
      ShlSmall(v);
      ShlSmall(Digit(bit));
      ShlSmall(2 * v + Digit(bit));
      OrLowBit(v, bit);
    } else {
      OrAppends(v, bit, k - 1);
      Halves(v, k + 1);
      Halves(Digit(bit), k);
      OrDoubles(Shl(v, k), Shl(Digit(bit), k - 1));
      Halves(2 * v + Digit(bit), k);
    }
  }

  lemma ShlSmall(v: nat)
    ensures Shl(v, 0) == v && Shl(v, 1) == 2 * v
  {
    assert Pow2(0) == 1 && Pow2(1) == 2;
  }

  lemma OrLowBit(v: nat, bit: bool)
    ensures Or(2 * v, Digit(bit)) == 2 * v + Digit(bit)
  {
    OrZero(v);
    assert (2 * v) / 2 == v;
  }

  lemma OrDoubles(a: nat, b: nat)
    ensures Or(2 * a, 2 * b) == 2 * Or(a, b)
  {
    if a + b > 0 {
      assert (2 * a) / 2 == a && (2 * b) / 2 == b;
    }
  }

  lemma Halves(v: nat, k: nat)
    requires k > 0
    ensures Shl(v, k) == 2 * Shl(v, k - 1)
  {
    var p := Pow2(k - 1);
    assert v * (2 * p) == 2 * (v * p);
  }
}
