/** Sorting by a numeric key, as the standard library does it. */
module Sorting {

  predicate Ascending<T>(s: seq<T>, key: T -> real) {
    forall i, j | 0 <= i < j < |s| :: key(s[i]) <= key(s[j])
  }

  function Insert<T(==)>(v: T, s: seq<T>, key: T -> real): (r: seq<T>)
    requires Ascending(s, key)
    ensures Ascending(r, key) && multiset(r) == multiset(s) + multiset{v}
    decreases |s|
  {
    if s == [] || key(v) <= key(s[0]) then [v] + s
    else
      var r := [s[0]] + Insert(v, s[1..], key);
      InsertKeepsLeast(v, s, r, key);
      r
  }

  lemma InsertKeepsLeast<T>(v: T, s: seq<T>, r: seq<T>, key: T -> real)
    requires s != [] && Ascending(s, key) && key(s[0]) < key(v)
    requires r != [] && r[0] == s[0] && Ascending(r[1..], key)
    requires multiset(r[1..]) == multiset(s[1..]) + multiset{v}
    ensures Ascending(r, key) && multiset(r) == multiset(s) + multiset{v}
  {
    assert s == [s[0]] + s[1..] && r == [r[0]] + r[1..];
    LeastBelow(s, key);
    forall j | 0 < j < |r|
      ensures key(s[0]) <= key(r[j])
    {
      assert r[j] == r[1..][j - 1];
      assert r[j] in multiset(r[1..]);
    }
    LeastFirst(r, key);
    hide Ascending;
  }

  lemma LeastBelow<T>(s: seq<T>, key: T -> real)
    requires s != [] && Ascending(s, key)
    ensures forall x | x in multiset(s[1..]) :: key(s[0]) <= key(x)
  {
  }

  lemma LeastFirst<T>(r: seq<T>, key: T -> real)
    requires r != [] && Ascending(r[1..], key) && forall j | 0 < j < |r| :: key(r[0]) <= key(r[j])
    ensures Ascending(r, key)
  {
    forall i, j | 0 <= i < j < |r|
      ensures key(r[i]) <= key(r[j])
    {
      if i > 0 {
        assert r[1..][i - 1] == r[i] && r[1..][j - 1] == r[j];
      }
    }
  }

  /** A stable sort. */
  function Sort<T(==)>(s: seq<T>, key: T -> real): (r: seq<T>)
    ensures Ascending(r, key) && multiset(r) == multiset(s) && |r| == |s|
    decreases |s|
  {
    if s == [] then []
    else
      assert s == [s[0]] + s[1..];
      var r := Insert(s[0], Sort(s[1..], key), key);
      assert |multiset(r)| == |multiset(s)|;
      r
  }
}
