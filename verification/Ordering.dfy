/** Lexicographic order on sequences of integers (text as its code points). */
module Ordering {

  predicate LexLeq(a: seq<int>, b: seq<int>) {
    if a == [] then true
    else if b == [] then false
    else a[0] < b[0] || (a[0] == b[0] && LexLeq(a[1..], b[1..]))
  }

  lemma {:induction false} LexTotal(a: seq<int>, b: seq<int>)
    ensures LexLeq(a, b) || LexLeq(b, a)
    ensures LexLeq(a, b) && LexLeq(b, a) ==> a == b
  {
    if a != [] && b != [] {
      LexTotal(a[1..], b[1..]);
      assert a == [a[0]] + a[1..] && b == [b[0]] + b[1..];
    }
  }

  lemma {:induction false} LexTransitive(a: seq<int>, b: seq<int>, c: seq<int>)
    requires LexLeq(a, b) && LexLeq(b, c)
    ensures LexLeq(a, c)
  {
    if a != [] && b[0] == a[0] && c[0] == b[0] {
      LexTransitive(a[1..], b[1..], c[1..]);
    }
  }

  /** The first place where the two differ decides, and a prefix comes first. */
  lemma {:induction false} LexIsFirstDifference(a: seq<int>, b: seq<int>)
    ensures LexLeq(a, b) <==> a <= b || exists k :: 0 <= k < |a| && k < |b| && a[..k] == b[..k] && a[k] < b[k]
  {
    if a != [] && b != [] && a[0] == b[0] {
      var (restA, restB) := (a[1..], b[1..]);
      LexIsFirstDifference(restA, restB);
      assert a == [a[0]] + restA && b == [b[0]] + restB;
      forall k | 0 <= k < |restA| && k < |restB|
        ensures restA[..k] == restB[..k] <==> a[..k + 1] == b[..k + 1]
      {
        assert a[..k + 1] == [a[0]] + restA[..k] && b[..k + 1] == [b[0]] + restB[..k];
        assert restA[..k] == a[..k + 1][1..] && restB[..k] == b[..k + 1][1..];
      }
      if k :| 0 <= k < |restA| && k < |restB| && restA[..k] == restB[..k] && restA[k] < restB[k] {
        assert a[..k + 1] == b[..k + 1] && a[k + 1] < b[k + 1];
      }
      if k :| 0 <= k < |a| && k < |b| && a[..k] == b[..k] && a[k] < b[k] {
        assert k > 0 && restA[..k - 1] == restB[..k - 1] && restA[k - 1] < restB[k - 1];
      }
    } else if a != [] && b != [] && a[0] < b[0] {
      assert a[..0] == b[..0];
    }
  }
}
