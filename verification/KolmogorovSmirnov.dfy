/**
  * The two-sample Kolmogorov-Smirnov statistic of the traffic benchmark: a merge of two sorted
  * samples, against its textbook definition as the largest distance between two empirical
  * distribution functions. Floating point is modelled by exact reals.
  */
module KolmogorovSmirnov {
  import opened Common
  import Sorting

  // ---------------------------------------------------------------- the definition

  /** How many sample values are at most t. */
  function CountLe(s: seq<real>, t: real): (r: nat)
    ensures r <= |s|
  {
    if s == [] then 0 else (if s[0] <= t then 1 else 0) + CountLe(s[1..], t)
  }

  function Ecdf(s: seq<real>, t: real): (r: real)
    requires s != []
    ensures 0.0 <= r <= 1.0
  {
    Fraction(CountLe(s, t), |s|);
    CountLe(s, t) as real / |s| as real
  }

  function Abs(v: real): real {
    if v < 0.0 then -v else v
  }

  function Gap(x: seq<real>, y: seq<real>, t: real): real
    requires x != [] && y != []
  {
    Abs(Ecdf(x, t) - Ecdf(y, t))
  }

  /** d is the largest gap over all real thresholds. */
  ghost predicate IsLargestGap(d: real, x: seq<real>, y: seq<real>)
    requires x != [] && y != []
  {
    && (forall t: real :: Gap(x, y, t) <= d)
    && (exists t: real :: Gap(x, y, t) == d)
  }

  lemma Fraction(a: nat, b: nat)
    requires a <= b && b > 0
    ensures 0.0 <= a as real / b as real <= 1.0
  {
    var q := a as real / b as real;
    assert q * b as real == a as real;
  }

  // ---------------------------------------------------------------- counting

  lemma {:induction false} CountConcat(a: seq<real>, b: seq<real>, t: real)
    ensures CountLe(a + b, t) == CountLe(a, t) + CountLe(b, t)
  {
    if a == [] {
      assert a + b == b;
    } else {
      CountConcat(a[1..], b, t);
      assert (a + b)[1..] == a[1..] + b;
    }
  }

  lemma {:induction false} CountAll(s: seq<real>, t: real)
    ensures (forall k | 0 <= k < |s| :: s[k] <= t) ==> CountLe(s, t) == |s|
    ensures (forall k | 0 <= k < |s| :: s[k] > t) ==> CountLe(s, t) == 0
  {
    if s != [] { CountAll(s[1..], t); }
  }

  /** In a sample whose first i values are exactly those at most t, the count is i. */
  lemma CountCut(s: seq<real>, i: nat, t: real)
    requires i <= |s|
    requires forall k | 0 <= k < i :: s[k] <= t
    requires forall k | i <= k < |s| :: s[k] > t
    ensures CountLe(s, t) == i
  {
    assert s == s[..i] + s[i..];
    CountConcat(s[..i], s[i..], t);
    CountAll(s[..i], t);
    CountAll(s[i..], t);
  }

  /** Counting does not see the order of a sample. */
  lemma {:induction false} CountBag(a: seq<real>, b: seq<real>, t: real)
    requires multiset(a) == multiset(b)
    ensures CountLe(a, t) == CountLe(b, t)
    decreases |a|
  {
    SameLength(a, b);
    if a != [] {
      hide CountLe;
      var k := PlaceIn(b, a[0]);
      TailsMatch(a, b, k);
      CountBag(a[1..], b[..k] + b[k + 1..], t);
      CountWithout(b, k, t);
      CountWithout(a, 0, t);
      assert a[..0] + a[1..] == a[1..];
    }
  }

  lemma SameLength(a: seq<real>, b: seq<real>)
    requires multiset(a) == multiset(b)
    ensures |a| == |b| && (forall v | v in a :: v in b)
  {
    assert |a| == |multiset(a)| == |b|;
    assert forall v | v in a :: v in multiset(b);
  }

  lemma PlaceIn(s: seq<real>, v: real) returns (k: nat)
    requires v in s
    ensures k < |s| && s[k] == v
  {
    k :| k < |s| && s[k] == v;
  }

  lemma TailsMatch(a: seq<real>, b: seq<real>, k: nat)
    requires multiset(a) == multiset(b) && a != [] && k < |b| && b[k] == a[0]
    ensures multiset(a[1..]) == multiset(b[..k] + b[k + 1..])
  {
    BagWithout(b, k);
    BagWithout(a, 0);
    assert a[..0] + a[1..] == a[1..];
  }

  lemma BagWithout(s: seq<real>, k: nat)
    requires k < |s|
    ensures multiset(s[..k] + s[k + 1..]) == multiset(s) - multiset{s[k]}
  {
    assert s == s[..k] + ([s[k]] + s[k + 1..]);
  }

  lemma CountWithout(s: seq<real>, k: nat, t: real)
    requires k < |s|
    ensures CountLe(s, t) == CountLe(s[..k] + s[k + 1..], t) + (if s[k] <= t then 1 else 0)
  {
    assert s == s[..k] + ([s[k]] + s[k + 1..]);
    CountConcat(s[..k], [s[k]] + s[k + 1..], t);
    CountConcat([s[k]], s[k + 1..], t);
    CountConcat(s[..k], s[k + 1..], t);
  }

  lemma EcdfEnds(s: seq<real>, t: real)
    requires s != []
    ensures (forall k | 0 <= k < |s| :: s[k] <= t) ==> Ecdf(s, t) == 1.0
    ensures (forall k | 0 <= k < |s| :: s[k] > t) ==> Ecdf(s, t) == 0.0
  {
    CountAll(s, t);
    hide CountLe;
    WholeAndNone(|s| as real);
  }

  lemma WholeAndNone(n: real)
    requires n > 0.0
    ensures n / n == 1.0 && 0.0 / n == 0.0
  {
  }

  /** Only a threshold above, or below, the whole sample makes its distribution function one, or zero. */
  lemma EcdfOnly(s: seq<real>, t: real)
    requires s != []
    ensures Ecdf(s, t) == 1.0 ==> forall k | 0 <= k < |s| :: s[k] <= t
    ensures Ecdf(s, t) == 0.0 ==> forall k | 0 <= k < |s| :: s[k] > t
  {
    var n, c := |s| as real, CountLe(s, t) as real;
    assert (c / n) * n == c;
    CountOnly(s, t);
  }

  lemma {:induction false} CountOnly(s: seq<real>, t: real)
    ensures CountLe(s, t) == |s| ==> forall k | 0 <= k < |s| :: s[k] <= t
    ensures CountLe(s, t) == 0 ==> forall k | 0 <= k < |s| :: s[k] > t
  {
    if s != [] {
      CountOnly(s[1..], t);
      assert forall k | 1 <= k < |s| :: s[k] == s[1..][k - 1];
    }
  }

  // ---------------------------------------------------------------- what the definition gives

  lemma LargestGapUnique(d: real, e: real, x: seq<real>, y: seq<real>)
    requires x != [] && y != [] && IsLargestGap(d, x, y) && IsLargestGap(e, x, y)
    ensures d == e
  {
  }

  /** Reordering either sample leaves the statistic alone. */
  lemma LargestGapReordered(d: real, x: seq<real>, y: seq<real>, p: seq<real>, q: seq<real>)
    requires x != [] && y != [] && IsLargestGap(d, x, y)
    requires multiset(p) == multiset(x) && multiset(q) == multiset(y)
    ensures p != [] && q != [] && IsLargestGap(d, p, q)
  {
    assert |p| == |multiset(p)| == |x| && |q| == |multiset(q)| == |y|;
    forall t: real
      ensures Gap(p, q, t) == Gap(x, y, t)
    {
      CountBag(p, x, t);
      CountBag(q, y, t);
    }
  }

  /** Swapping the samples leaves the statistic alone. */
  lemma LargestGapSymmetric(d: real, x: seq<real>, y: seq<real>)
    requires x != [] && y != []
    ensures IsLargestGap(d, x, y) <==> IsLargestGap(d, y, x)
  {
    assert forall t: real :: Gap(x, y, t) == Gap(y, x, t);
  }

  lemma LargestGapInUnit(d: real, x: seq<real>, y: seq<real>)
    requires x != [] && y != [] && IsLargestGap(d, x, y)
    ensures 0.0 <= d <= 1.0
  {
    var t: real :| Gap(x, y, t) == d;
  }

  /** Zero says the two distribution functions agree everywhere. */
  lemma ZeroGap(d: real, x: seq<real>, y: seq<real>)
    requires x != [] && y != [] && IsLargestGap(d, x, y)
    ensures d == 0.0 <==> forall t: real :: Ecdf(x, t) == Ecdf(y, t)
  {
    var u: real :| Gap(x, y, u) == d;
    if d == 0.0 {
      forall t: real
        ensures Ecdf(x, t) == Ecdf(y, t)
      {
        assert Gap(x, y, t) <= 0.0;
      }
    }
  }

  predicate Separates(t: real, x: seq<real>, y: seq<real>) {
    (forall k | 0 <= k < |x| :: x[k] <= t) && (forall k | 0 <= k < |y| :: y[k] > t)
  }

  /** One says some threshold separates the samples completely, in one order or the other. */
  lemma FullGap(d: real, x: seq<real>, y: seq<real>)
    requires x != [] && y != [] && IsLargestGap(d, x, y)
    ensures d == 1.0 <==> exists t: real :: Separates(t, x, y) || Separates(t, y, x)
  {
    hide Ecdf, Separates;
    forall t: real
      ensures Gap(x, y, t) == 1.0 <==> Separates(t, x, y) || Separates(t, y, x)
    {
      FullAt(x, y, t);
    }
    LargestGapInUnit(d, x, y);
    hide Gap;
    var u: real :| Gap(x, y, u) == d;
    assert d == 1.0 ==> Separates(u, x, y) || Separates(u, y, x);
  }

  lemma FullAt(x: seq<real>, y: seq<real>, t: real)
    requires x != [] && y != []
    ensures Gap(x, y, t) == 1.0 <==> Separates(t, x, y) || Separates(t, y, x)
  {
    hide Ecdf;
    EcdfEnds(x, t);
    EcdfEnds(y, t);
    EcdfOnly(x, t);
    EcdfOnly(y, t);
  }

  // ---------------------------------------------------------------- the computation

  predicate Sorted(s: seq<real>) {
    forall i, j | 0 <= i < j < |s| :: s[i] <= s[j]
  }

  function Value(v: real): real {
    v
  }

  /** The sample in ascending order. */
  function Sort(s: seq<real>): (r: seq<real>)
    ensures Sorted(r) && multiset(r) == multiset(s) && |r| == |s|
  {
    var r := Sorting.Sort(s, Value);
    assert forall i, j | 0 <= i < j < |r| :: Value(r[i]) <= Value(r[j]);
    r
  }

  /** The merge has passed exactly the values at most `last`. */
  ghost predicate CutAt(s: seq<real>, i: nat, last: real) {
    && i <= |s|
    && (forall k | 0 <= k < i :: s[k] <= last)
    && (forall k | i <= k < |s| :: s[k] > last)
  }

  ghost predicate BoundedUpTo(xs: seq<real>, ys: seq<real>, last: real, d: real)
    requires xs != [] && ys != []
  {
    forall t: real | t <= last :: Gap(xs, ys, t) <= d
  }

  /** Skips the values at most `value`. */
  method Skip(s: seq<real>, from: nat, ghost last: real, value: real) returns (i: nat)
    requires Sorted(s) && CutAt(s, from, last) && last < value
    ensures from <= i && CutAt(s, i, value)
    ensures from < |s| && s[from] <= value ==> from < i
  {
    i := from;
    while i < |s| && s[i] <= value
      invariant from <= i <= |s|
      invariant forall k | 0 <= k < i :: s[k] <= value
    {
      i := i + 1;
    }
  }

  /** No gap changes between one merged value and the next. */
  lemma BetweenValues(xs: seq<real>, ys: seq<real>, i: nat, j: nat, last: real, value: real, d: real)
    requires xs != [] && ys != [] && last < value
    requires CutAt(xs, i, last) && CutAt(ys, j, last) && BoundedUpTo(xs, ys, last, d)
    requires forall k | i <= k < |xs| :: xs[k] >= value
    requires forall k | j <= k < |ys| :: ys[k] >= value
    ensures forall t: real | t < value :: Gap(xs, ys, t) <= d
  {
    hide CountLe;
    forall t: real | last < t < value
      ensures Gap(xs, ys, t) <= d
    {
      CountCut(xs, i, t);
      CountCut(ys, j, t);
      CountCut(xs, i, last);
      CountCut(ys, j, last);
      assert Gap(xs, ys, last) <= d;
    }
  }

  lemma GapAtCut(xs: seq<real>, ys: seq<real>, i: nat, j: nat, value: real)
    requires xs != [] && ys != [] && CutAt(xs, i, value) && CutAt(ys, j, value)
    ensures Gap(xs, ys, value) == Abs(i as real / |xs| as real - j as real / |ys| as real)
  {
    CountCut(xs, i, value);
    CountCut(ys, j, value);
  }

  lemma PastTheEnd(xs: seq<real>, ys: seq<real>, last: real, d: real)
    requires xs != [] && ys != [] && CutAt(xs, |xs|, last) && CutAt(ys, |ys|, last)
    requires BoundedUpTo(xs, ys, last, d) && d >= 0.0
    ensures forall t: real :: Gap(xs, ys, t) <= d
  {
    hide Ecdf;
    forall t: real | t > last
      ensures Gap(xs, ys, t) <= d
    {
      EcdfEnds(xs, t);
      EcdfEnds(ys, t);
    }
  }

  /** Below every sample value both distribution functions are zero. */
  lemma BeforeTheStart(xs: seq<real>, ys: seq<real>, start: real)
    requires xs != [] && ys != [] && CutAt(xs, 0, start) && CutAt(ys, 0, start)
    ensures BoundedUpTo(xs, ys, start, 0.0) && Gap(xs, ys, start) == 0.0
  {
    hide Ecdf;
    forall t: real | t <= start
      ensures Gap(xs, ys, t) == 0.0
    {
      EcdfEnds(xs, t);
      EcdfEnds(ys, t);
    }
  }

  method Merge(xs: seq<real>, ys: seq<real>) returns (d: real)
    requires xs != [] && ys != [] && Sorted(xs) && Sorted(ys)
    ensures IsLargestGap(d, xs, ys)
  {
    var n, m := |xs|, |ys|;
    var i, j := 0, 0;
    d := 0.0;
    ghost var last := (if xs[0] <= ys[0] then xs[0] else ys[0]) - 1.0;
    ghost var best := last;
    BeforeTheStart(xs, ys, last);
    hide Gap, Sorted;
    while i < n || j < m
      invariant CutAt(xs, i, last) && CutAt(ys, j, last)
      invariant BoundedUpTo(xs, ys, last, d)
      invariant Gap(xs, ys, best) == d && d >= 0.0
      decreases n - i + m - j
    {
      var value;
      if j >= m || (i < n && xs[i] <= ys[j]) {
        value := xs[i];
      } else {
        value := ys[j];
      }
      LeastLeft(xs, i, value);
      LeastLeft(ys, j, value);
      BetweenValues(xs, ys, i, j, last, value, d);
      i := Skip(xs, i, last, value);
      j := Skip(ys, j, last, value);
      GapAtCut(xs, ys, i, j, value);
      var gap := Abs(i as real / n as real - j as real / m as real);
      last := value;
      if gap > d {
        d := gap;
        best := value;
      }
    }
    PastTheEnd(xs, ys, last, d);
  }

  lemma LeastLeft(s: seq<real>, i: nat, value: real)
    requires Sorted(s) && i <= |s| && (i < |s| ==> s[i] >= value)
    ensures forall k | i <= k < |s| :: s[k] >= value
  {
  }

  /** The statistic of two samples; an error on an empty one. */
  method Statistic(x: seq<real>, y: seq<real>) returns (r: Option<real>)
    ensures r.None? <==> x == [] || y == []
    ensures r.Some? ==> IsLargestGap(r.value, x, y)
  {
    if x == [] || y == [] {
      return None;
    }
    var xs, ys := Sort(x), Sort(y);
    var d := Merge(xs, ys);
    LargestGapReordered(d, xs, ys, x, y);
    return Some(d);
  }
}
