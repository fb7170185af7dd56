/** What equal results are, cell by cell: rows agree under some map of the columns and, without an order, some pairing
    of the rows. */
module CompareMeaning {
  import opened Prelude
  import opened Compare

  // ---------------------------------------------------------------- cells

  /** `n` ten-thousandths is the rounded value of `x`: the nearest one, and the even one of two. */
  predicate RoundsTo(x: real, n: int) {
    var d := x * 10000.0 - n as real;
    -0.5 <= d <= 0.5 && (d == 0.5 || d == -0.5 ==> n % 2 == 0)
  }

  function NumberIn(v: Cell): Option<real> {
    match v
    case Boolean(b) => Some(if b then 1.0 else 0.0)
    case Number(x) => Some(x)
    case _ => None
  }

  ghost predicate SameRounded(x: real, y: real) {
    exists n :: RoundsTo(x, n) && RoundsTo(y, n)
  }

  /** Nulls, texts and byte strings agree if they are the same; numbers if they round to the same four decimals, and a
      truth value is the number one or zero. */
  ghost predicate Agree(a: Cell, b: Cell) {
    match a
    case Null => b.Null?
    case Text(s) => b == Text(s)
    case Bytes(s) => b == Bytes(s)
    case _ => NumberIn(b).Some? && SameRounded(NumberIn(a).value, NumberIn(b).value)
  }

  lemma RoundsExactly(x: real, n: int)
    ensures RoundHalfEven(x * 10000.0) == n <==> RoundsTo(x, n)
  {
  }

  lemma CanonIsRounded(v: Cell)
    requires NumberIn(v).Some?
    ensures CanonOf(v).CNumber? && RoundsTo(NumberIn(v).value, CanonOf(v).n)
    ensures forall n :: RoundsTo(NumberIn(v).value, n) ==> n == CanonOf(v).n
  {
    RoundsExactly(NumberIn(v).value, CanonOf(v).n);
    forall n | RoundsTo(NumberIn(v).value, n)
      ensures n == CanonOf(v).n
    {
      RoundsExactly(NumberIn(v).value, n);
    }
  }

  /** Canonical forms are equal exactly for cells that agree. */
  lemma CanonDecides(a: Cell, b: Cell)
    ensures CanonOf(a) == CanonOf(b) <==> Agree(a, b)
  {
    if NumberIn(a).Some? {
      CanonIsRounded(a);
    }
    if NumberIn(b).Some? {
      CanonIsRounded(b);
    }
  }

  // ---------------------------------------------------------------- pairing the rows of two results

  /** A list of different positions below `n`. */
  predicate Positions(p: seq<nat>, n: nat) {
    && (forall i :: 0 <= i < |p| ==> p[i] < n)
    && (forall i, j :: 0 <= i < j < |p| ==> p[i] != p[j])
  }

  predicate PairsUp<T(==)>(a: seq<T>, b: seq<T>, p: seq<nat>) {
    |a| == |b| == |p| && Positions(p, |b|) && forall i :: 0 <= i < |a| ==> a[i] == b[p[i]]
  }

  function Without<T>(s: seq<T>, k: nat): (r: seq<T>)
    requires k < |s|
    ensures |r| == |s| - 1 && forall i :: 0 <= i < |r| ==> r[i] == s[Shift(i, k)]
  {
    s[..k] + s[k + 1..]
  }

  /** Position `i` without the k-th element, with it. */
  function Shift(i: nat, k: nat): nat {
    if i < k then i else i + 1
  }

  function Unshift(i: nat, k: nat): nat
    requires i != k
  {
    if i < k then i else i - 1
  }

  function ShiftAll(p: seq<nat>, k: nat): seq<nat> {
    seq(|p|, i requires 0 <= i < |p| => Shift(p[i], k))
  }

  function UnshiftAll(p: seq<nat>, k: nat): seq<nat>
    requires k !in p
  {
    seq(|p|, i requires 0 <= i < |p| => Unshift(p[i], k))
  }

  /** A pairing of the rest is one of the whole with the first put back. */
  lemma PairingGrows<T>(a: seq<T>, b: seq<T>, k: nat, q: seq<nat>)
    requires a != [] && k < |b| && b[k] == a[0] && PairsUp(a[1..], Without(b, k), q)
    ensures PairsUp(a, b, [k] + ShiftAll(q, k))
  {
    var p := [k] + ShiftAll(q, k);
    forall i | 0 <= i < |a|
      ensures a[i] == b[p[i]]
    {
      if i > 0 {
        assert a[1..][i - 1] == Without(b, k)[q[i - 1]];
        assert p[i] == Shift(q[i - 1], k);
      }
    }
  }

  lemma PairingShrinks<T>(a: seq<T>, b: seq<T>, p: seq<nat>)
    requires a != [] && PairsUp(a, b, p)
    ensures p[0] !in p[1..] && PairsUp(a[1..], Without(b, p[0]), UnshiftAll(p[1..], p[0]))
  {
    var k, q := p[0], UnshiftAll(p[1..], p[0]);
    forall i | 0 <= i < |q|
      ensures q[i] < |b| - 1 && a[1..][i] == Without(b, k)[q[i]]
    {
      assert p[i + 1] != k && Shift(q[i], k) == p[i + 1];
    }
  }

  lemma BagWithout<T>(s: seq<T>, k: nat)
    requires k < |s|
    ensures multiset(s) == multiset(Without(s, k)) + multiset{s[k]}
  {
    RemoveAt(s, k);
  }

  lemma BagWithoutFirst<T>(s: seq<T>)
    requires s != []
    ensures multiset(s) == multiset(s[1..]) + multiset{s[0]}
  {
    assert s == [s[0]] + s[1..];
  }

  lemma {:induction false} EqualBagsPairUp<T>(a: seq<T>, b: seq<T>) returns (p: seq<nat>)
    requires multiset(a) == multiset(b)
    ensures PairsUp(a, b, p)
    decreases |a|
  {
    assert |a| == |multiset(a)| == |multiset(b)| == |b|;
    if a == [] {
      p := [];
    } else {
      assert a[0] in multiset(b);
      var k :| 0 <= k < |b| && b[k] == a[0];
      BagWithoutFirst(a);
      BagWithout(b, k);
      assert multiset(a[1..]) == multiset(a) - multiset{a[0]} == multiset(Without(b, k));
      var q := EqualBagsPairUp(a[1..], Without(b, k));
      PairingGrows(a, b, k, q);
      p := [k] + ShiftAll(q, k);
    }
  }

  lemma {:induction false} PairedUpBagsEqual<T>(a: seq<T>, b: seq<T>, p: seq<nat>)
    requires PairsUp(a, b, p)
    ensures multiset(a) == multiset(b)
    decreases |a|
  {
    if a != [] {
      PairingShrinks(a, b, p);
      PairedUpBagsEqual(a[1..], Without(b, p[0]), UnshiftAll(p[1..], p[0]));
      BagWithoutFirst(a);
      BagWithout(b, p[0]);
    }
  }

  // ---------------------------------------------------------------- results

  /** Under the column map `m` and the pairing `p` of rows, every expected cell agrees with its counterpart. */
  ghost predicate Aligned(gold: seq<Row>, gw: nat, cand: seq<Row>, cw: nat, m: seq<nat>, p: seq<nat>) {
    && |m| == gw && Positions(m, cw)
    && |p| == |gold| == |cand| && Positions(p, |cand|)
    && forall i, k :: 0 <= i < |gold| && 0 <= k < gw ==>
         k < |gold[i]| && m[k] < |cand[p[i]]| && Agree(gold[i][k], cand[p[i]][m[k]])
  }

  /** Some map of the columns and some pairing of the rows align the results; with an order, row by row. */
  ghost predicate SameResult(gold: seq<Row>, gw: nat, cand: seq<Row>, cw: nat, ordered: bool) {
    exists m, p :: Aligned(gold, gw, cand, cw, m, p) && (ordered ==> forall i :: 0 <= i < |p| ==> p[i] == i)
  }

  lemma RowsAgree(g: Row, c: Row, m: seq<nat>)
    requires |m| == |g| && InjectiveInto(m, |c|)
    ensures CanonRow(g) == ProjectRow(c, m) <==> forall k :: 0 <= k < |g| ==> Agree(g[k], c[m[k]])
  {
    forall k | 0 <= k < |g|
      ensures CanonRow(g)[k] == ProjectRow(c, m)[k] <==> Agree(g[k], c[m[k]])
    {
      CanonDecides(g[k], c[m[k]]);
    }
    if forall k :: 0 <= k < |g| ==> Agree(g[k], c[m[k]]) {
      assert forall k :: 0 <= k < |g| ==> CanonRow(g)[k] == ProjectRow(c, m)[k];
    }
  }

  function Identity(n: nat): seq<nat> {
    seq(n, i => i)
  }

  lemma PairsAreAligned(gold: seq<Row>, gw: nat, cand: seq<Row>, cw: nat, m: seq<nat>, p: seq<nat>)
    requires Rectangular(gold, gw) && Rectangular(cand, cw) && |m| == gw && InjectiveInto(m, cw)
    ensures PairsUp(CanonRows(gold), Project(cand, cw, m), p) <==> Aligned(gold, gw, cand, cw, m, p)
  {
    if |p| == |gold| == |cand| && Positions(p, |cand|) {
      forall i | 0 <= i < |gold|
        ensures CanonRows(gold)[i] == Project(cand, cw, m)[p[i]] <==>
                  forall k :: 0 <= k < gw ==> Agree(gold[i][k], cand[p[i]][m[k]])
      {
        RowsAgree(gold[i], cand[p[i]], m);
      }
    }
  }

  lemma MatchIsSame(gold: seq<Row>, gw: nat, cand: seq<Row>, cw: nat, ordered: bool, m: seq<nat>)
    requires Rectangular(gold, gw) && Rectangular(cand, cw) && Matches(gold, gw, cand, cw, ordered, m)
    ensures SameResult(gold, gw, cand, cw, ordered)
  {
    var a, b := CanonRows(gold), Project(cand, cw, m);
    var p: seq<nat>;
    if ordered {
      p := Identity(|a|);
      assert PairsUp(a, b, p);
    } else {
      p := EqualBagsPairUp(a, b);
    }
    PairsAreAligned(gold, gw, cand, cw, m, p);
  }

  lemma SameIsMatch(gold: seq<Row>, gw: nat, cand: seq<Row>, cw: nat, ordered: bool)
    requires Rectangular(gold, gw) && Rectangular(cand, cw) && SameResult(gold, gw, cand, cw, ordered)
    ensures Equivalent(gold, gw, cand, cw, ordered)
  {
    var m, p :| Aligned(gold, gw, cand, cw, m, p) && (ordered ==> forall i :: 0 <= i < |p| ==> p[i] == i);
    var a, b := CanonRows(gold), Project(cand, cw, m);
    PairsAreAligned(gold, gw, cand, cw, m, p);
    if ordered {
      assert a == b;
    } else {
      PairedUpBagsEqual(a, b, p);
    }
    assert Matches(gold, gw, cand, cw, ordered, m);
  }

  /** Equivalence by canonical rows is sameness of the results. */
  lemma EquivalentIsSame(gold: seq<Row>, gw: nat, cand: seq<Row>, cw: nat, ordered: bool)
    requires Rectangular(gold, gw) && Rectangular(cand, cw)
    ensures Equivalent(gold, gw, cand, cw, ordered) <==> SameResult(gold, gw, cand, cw, ordered)
  {
    if m :| Matches(gold, gw, cand, cw, ordered, m) {
      MatchIsSame(gold, gw, cand, cw, ordered, m);
    }
    if SameResult(gold, gw, cand, cw, ordered) {
      SameIsMatch(gold, gw, cand, cw, ordered);
    }
  }

  // ---------------------------------------------------------------- columns

  /** Under the pairing `p` of rows, the cells of the two columns agree. */
  ghost predicate ColumnsAgree(gold: seq<Row>, i: nat, cand: seq<Row>, j: nat, p: seq<nat>) {
    && |p| == |gold| == |cand| && Positions(p, |cand|)
    && forall k :: 0 <= k < |gold| ==> i < |gold[k]| && j < |cand[p[k]]| && Agree(gold[k][i], cand[p[k]][j])
  }

  lemma PairsAreAgreeing(gold: seq<Row>, i: nat, cand: seq<Row>, j: nat, p: seq<nat>)
    requires forall r :: r in gold ==> i < |r|
    requires forall r :: r in cand ==> j < |r|
    ensures PairsUp(Column(gold, i), Column(cand, j), p) <==> ColumnsAgree(gold, i, cand, j, p)
  {
    if |p| == |gold| == |cand| && Positions(p, |cand|) {
      forall k | 0 <= k < |gold|
        ensures Column(gold, i)[k] == Column(cand, j)[p[k]] <==> Agree(gold[k][i], cand[p[k]][j])
      {
        CanonDecides(gold[k][i], cand[p[k]][j]);
      }
    }
  }

  lemma SameBagExactly(gold: seq<Row>, i: nat, cand: seq<Row>, j: nat)
    requires forall r :: r in gold ==> i < |r|
    requires forall r :: r in cand ==> j < |r|
    ensures multiset(Column(gold, i)) == multiset(Column(cand, j)) <==> exists p :: ColumnsAgree(gold, i, cand, j, p)
  {
    if multiset(Column(gold, i)) == multiset(Column(cand, j)) {
      var p := EqualBagsPairUp(Column(gold, i), Column(cand, j));
      PairsAreAgreeing(gold, i, cand, j, p);
    }
    if p :| ColumnsAgree(gold, i, cand, j, p) {
      PairsAreAgreeing(gold, i, cand, j, p);
      PairedUpBagsEqual(Column(gold, i), Column(cand, j), p);
    }
  }

  /** Two columns have one signature exactly if they hold cells that agree, in any order. */
  lemma SignatureIsContent(gold: seq<Row>, i: nat, cand: seq<Row>, j: nat)
    requires forall r :: r in gold ==> i < |r|
    requires forall r :: r in cand ==> j < |r|
    ensures ColumnSignature(gold, i) == ColumnSignature(cand, j) <==> exists p :: ColumnsAgree(gold, i, cand, j, p)
  {
    SameBagExactly(gold, i, cand, j);
    SortDecides(Column(gold, i), Column(cand, j));
  }
}
