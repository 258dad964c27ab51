/** Types shared by every layer: bytes, options, wire actions and frames. */
module Common {

  /** One octet. */
  type byte = b: int | 0 <= b < 256

  datatype Option<+T> = None | Some(value: T)

  /** The five action codes a frame may carry. */
  datatype Action = Push | Poll | Ack | AuthChallenge | AuthResponse

  /**
    * A frame, generic in the mailbox and payload types: the wire layer uses bytes for both,
    * the client layer uses symbolic mailbox ids and sealed payloads.
    */
  datatype Frame<M, P> = Frame(action: Action, mailbox: M, payload: P)

  /** Frames that carry mail through the relay, as opposed to poll requests and empty answers. */
  predicate IsMail<M, P>(f: Frame<M, P>) {
    f.action == Push || f.action == Ack
  }

  lemma Associates<T>(a: seq<T>, b: seq<T>, c: seq<T>)
    ensures (a + b) + c == a + (b + c)
  {
  }

  /** Lexicographic comparison, a proper prefix coming first. */
  predicate LexLess(a: seq<int>, b: seq<int>) {
    if b == [] then false
    else if a == [] then true
    else if a[0] != b[0] then a[0] < b[0]
    else LexLess(a[1..], b[1..])
  }

  /** At the first place where two strings differ the first has the smaller entry, or it ends there. */
  ghost predicate SmallerAt(a: seq<int>, b: seq<int>, k: nat) {
    && k <= |a| && k < |b|
    && (forall i | 0 <= i < k :: a[i] == b[i])
    && (k < |a| ==> a[k] < b[k])
  }

  lemma {:induction false} LexLessIff(a: seq<int>, b: seq<int>)
    ensures LexLess(a, b) <==> exists k: nat :: SmallerAt(a, b, k)
  {
    if a == [] && b != [] {
      assert SmallerAt(a, b, 0);
    } else if a != [] && b != [] && a[0] != b[0] {
      assert a[0] < b[0] ==> SmallerAt(a, b, 0);
    } else if a != [] && b != [] {
      LexLessIff(a[1..], b[1..]);
      if k: nat :| SmallerAt(a[1..], b[1..], k) {
        SmallerLater(a, b, k);
      }
      if k: nat :| SmallerAt(a, b, k) {
        assert k > 0;
        SmallerLater(a, b, k - 1);
      }
    }
  }

  lemma SmallerLater(a: seq<int>, b: seq<int>, k: nat)
    requires a != [] && b != [] && a[0] == b[0]
    ensures SmallerAt(a[1..], b[1..], k) <==> SmallerAt(a, b, k + 1)
  {
    if SmallerAt(a[1..], b[1..], k) {
      assert forall i | 0 < i < k + 1 :: a[i] == a[1..][i - 1] && b[i] == b[1..][i - 1];
    }
    if SmallerAt(a, b, k + 1) {
      assert forall i | 0 <= i < k :: a[1..][i] == a[i + 1] && b[1..][i] == b[i + 1];
    }
  }

  /** Distinct strings are ordered in exactly one direction. */
  lemma {:induction false} LexLessTrichotomy(a: seq<int>, b: seq<int>)
    ensures a == b ==> !LexLess(a, b)
    ensures a != b ==> (LexLess(a, b) <==> !LexLess(b, a))
  {
    if a != [] && b != [] && a[0] == b[0] {
      LexLessTrichotomy(a[1..], b[1..]);
      assert a == [a[0]] + a[1..] && b == [b[0]] + b[1..];
    }
  }

  lemma {:induction false} LexLessTransitive(a: seq<int>, b: seq<int>, c: seq<int>)
    requires LexLess(a, b) && LexLess(b, c)
    ensures LexLess(a, c)
  {
    if a != [] && a[0] == b[0] && b[0] == c[0] {
      LexLessTransitive(a[1..], b[1..], c[1..]);
    }
  }
}
