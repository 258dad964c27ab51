/** Dash-separated phrases, and words looked up in a sorted dictionary. */
module Words {
  import opened Common

  const DASH := '-'

  // ---------------------------------------------------------------- phrases

  /** The first dash at or after a position; the length of the text when there is none. */
  function Find(s: string, from: nat): (r: nat)
    requires from <= |s|
    ensures from <= r <= |s|
    ensures r < |s| ==> s[r] == DASH
    ensures forall k | from <= k < r :: s[k] != DASH
    decreases |s| - from
  {
    if from == |s| || s[from] == DASH then from else Find(s, from + 1)
  }

  /** The pieces of a text between its dashes: one more than it has dashes. */
  function Split(s: string): (r: seq<string>)
    ensures |r| > 0
    decreases |s|
  {
    var k := Find(s, 0);
    if k == |s| then [s] else [s[..k]] + Split(s[k + 1..])
  }

  function Join(words: seq<string>): string {
    if words == [] then ""
    else if |words| == 1 then words[0]
    else words[0] + [DASH] + Join(words[1..])
  }

  predicate DashFree(words: seq<string>) {
    forall i | 0 <= i < |words| :: DASH !in words[i]
  }

  lemma FindShift(s: string, from: nat)
    requires from <= |s|
    ensures Find(s, from) == from + Find(s[from..], 0)
  {
    hide Find;
    var a, b := Find(s, from), Find(s[from..], 0);
    assert b < |s| - from ==> s[from + b] == DASH;
    forall k | from <= k < from + b
      ensures s[k] != DASH
    {
      assert s[from..][k - from] == s[k];
    }
  }

  /** Splitting what is left of a text after its first pieces. */
  lemma SplitRest(s: string, from: nat)
    requires from <= |s|
    ensures var end := Find(s, from);
      Split(s[from..]) == if end == |s| then [s[from..]] else [s[from..end]] + Split(s[end + 1..])
  {
    hide Find, Split;
    var end, rest := Find(s, from), s[from..];
    FindShift(s, from);
    SplitUnfolds(rest);
    if end < |s| {
      assert rest[..end - from] == s[from..end];
      assert rest[end - from + 1..] == s[end + 1..];
    }
  }

  lemma SplitUnfolds(s: string)
    ensures var k := Find(s, 0);
      Split(s) == if k == |s| then [s] else [s[..k]] + Split(s[k + 1..])
  {
    hide Find;
  }

  /** Splitting a text that starts with a dash-free word and a dash. */
  lemma SplitFirst(w: string, rest: string)
    requires DASH !in w
    ensures Split(w + [DASH] + rest) == [w] + Split(rest)
  {
    var s := w + [DASH] + rest;
    assert s[..|w|] == w && s[|w|] == DASH && s[|w| + 1..] == rest;
    assert forall k | 0 <= k < |w| :: s[k] == w[k];
    assert Find(s, 0) == |w|;
    hide Find;
  }

  /** Splitting undoes joining, for words that hold no dash. */
  lemma {:induction false} SplitJoin(words: seq<string>)
    requires words != [] && DashFree(words)
    ensures Split(Join(words)) == words
  {
    var s := Join(words);
    var w := words[0];
    assert w in words;
    if |words| == 1 {
      assert Find(s, 0) == |s|;
    } else {
      var rest := words[1..];
      assert s == w + [DASH] + Join(rest);
      hide Join, Split;
      SplitJoin(rest);
      SplitFirst(w, Join(rest));
      assert [w] + rest == words;
    }
  }

  /** Joining undoes splitting, for every text. */
  lemma {:induction false} JoinSplit(s: string)
    ensures Join(Split(s)) == s
    decreases |s|
  {
    var k := Find(s, 0);
    if k < |s| {
      JoinSplit(s[k + 1..]);
      assert s == s[..k] + [DASH] + s[k + 1..];
      assert Split(s)[1..] == Split(s[k + 1..]);
    }
  }

  lemma {:induction false} JoinSnoc(words: seq<string>, w: string)
    requires words != []
    ensures Join(words + [w]) == Join(words) + [DASH] + w
  {
    if |words| == 1 {
      assert (words + [w])[1..] == [w];
    } else {
      JoinSnoc(words[1..], w);
      assert (words + [w])[1..] == words[1..] + [w];
    }
  }

  lemma {:induction false} JoinLength(words: seq<string>, longest: nat)
    requires forall i | 0 <= i < |words| :: |words[i]| <= longest
    ensures words != [] ==> |Join(words)| + 1 <= |words| * (longest + 1)
  {
    if |words| > 1 {
      JoinLength(words[1..], longest);
      assert |words| * (longest + 1) == (|words| - 1) * (longest + 1) + (longest + 1);
    }
  }

  // ---------------------------------------------------------------- order

  function Codes(s: string): (r: seq<int>)
    ensures |r| == |s| && forall i | 0 <= i < |s| :: r[i] == s[i] as int
  {
    seq(|s|, i requires 0 <= i < |s| => s[i] as int)
  }

  /** Words compare by their character codes. */
  predicate Less(a: string, b: string) {
    LexLess(Codes(a), Codes(b))
  }

  lemma LessTrichotomy(a: string, b: string)
    ensures a == b ==> !Less(a, b)
    ensures a != b ==> (Less(a, b) <==> !Less(b, a))
  {
    LexLessTrichotomy(Codes(a), Codes(b));
    if Codes(a) == Codes(b) {
      assert forall i | 0 <= i < |a| :: Codes(a)[i] == a[i] as int && Codes(b)[i] == b[i] as int;
      assert a == b;
    }
  }

  lemma LessTransitive(a: string, b: string, c: string)
    requires Less(a, b) && Less(b, c)
    ensures Less(a, c)
  {
    LexLessTransitive(Codes(a), Codes(b), Codes(c));
  }

  predicate Sorted(words: seq<string>) {
    forall i, j | 0 <= i < j < |words| :: Less(words[i], words[j])
  }

  lemma SortedDistinct(words: seq<string>, i: nat, j: nat)
    requires Sorted(words) && i < |words| && j < |words| && words[i] == words[j]
    ensures i == j
  {
    LessTrichotomy(words[i], words[j]);
  }

  /** The standard library's lower bound: the first word not below the one looked for. */
  method LowerBound(words: seq<string>, w: string) returns (r: nat)
    requires Sorted(words)
    ensures r <= |words|
    ensures forall i | 0 <= i < r :: Less(words[i], w)
    ensures forall i | r <= i < |words| :: !Less(words[i], w)
  {
    r := 0;
    var count := |words|;
    while count > 0
      invariant 0 <= count <= |words| - r
      invariant forall i | 0 <= i < r :: Less(words[i], w)
      invariant forall i | r + count <= i < |words| :: !Less(words[i], w)
    {
      var step := count / 2;
      var mid := r + step;
      if Less(words[mid], w) {
        BelowUpTo(words, mid, w);
        r := mid + 1;
        count := count - (step + 1);
      } else {
        NotBelowFrom(words, mid, w);
        count := step;
      }
    }
  }

  lemma BelowUpTo(words: seq<string>, mid: nat, w: string)
    requires Sorted(words) && mid < |words| && Less(words[mid], w)
    ensures forall i | 0 <= i <= mid :: Less(words[i], w)
  {
    forall i | 0 <= i < mid
      ensures Less(words[i], w)
    {
      LessTransitive(words[i], words[mid], w);
    }
  }

  lemma NotBelowFrom(words: seq<string>, mid: nat, w: string)
    requires Sorted(words) && mid < |words| && !Less(words[mid], w)
    ensures forall i | mid <= i < |words| :: !Less(words[i], w)
  {
    forall i | mid < i < |words|
      ensures !Less(words[i], w)
    {
      if Less(words[i], w) {
        LessTransitive(words[mid], words[i], w);
      }
    }
  }

  /** Binary search finds a word exactly when the dictionary holds it, at its only place. */
  method Lookup(words: seq<string>, w: string) returns (r: Option<nat>)
    requires Sorted(words)
    ensures r.None? <==> w !in words
    ensures r.Some? ==> r.value < |words| && words[r.value] == w
  {
    var at := LowerBound(words, w);
    if at == |words| || words[at] != w {
      forall i | 0 <= i < |words|
        ensures words[i] != w
      {
        LessTrichotomy(words[i], w);
        if at < i {
          LessTrichotomy(words[at], w);
          LessTrichotomy(words[at], words[i]);
        }
      }
      return None;
    }
    return Some(at);
  }
}
