/** Result-set equivalence (evaluation/compare.py): the bounded search for a column map, and why its verdict is exact.

    Numbers are reals, so NaN and infinities are not represented; text is a sequence of code points. */
module Compare {
  import opened Prelude
  import opened Ordering

  datatype Cell = Null | Boolean(b: bool) | Number(x: real) | Text(codes: seq<int>) | Bytes(bytes: seq<int>)
  type Row = seq<Cell>

  /** The canonical form of a cell; numbers are rounded to four decimals and kept as ten-thousandths. */
  datatype Canon = CNull | CNumber(n: int) | CText(codes: seq<int>) | CBytes(bytes: seq<int>)

  const MAX_MAPPINGS: nat := 5000

  function RoundHalfEven(y: real): int {
    var f := y.Floor;
    var d := y - f as real;
    if d < 0.5 || (d == 0.5 && f % 2 == 0) then f else f + 1
  }

  function CanonOf(v: Cell): Canon {
    match v
    case Null => CNull
    case Boolean(b) => CNumber(if b then 10000 else 0)
    case Number(x) => CNumber(RoundHalfEven(x * 10000.0))
    case Text(s) => CText(s)
    case Bytes(s) => CBytes(s)
  }

  // ---------------------------------------------------------------- column signatures

  function Tag(c: Canon): nat {
    match c
    case CNull => 0
    case CNumber(_) => 1
    case CText(_) => 2
    case CBytes(_) => 3
  }

  function Content(c: Canon): seq<int> {
    match c
    case CNull => []
    case CNumber(n) => [n]
    case CText(s) => s
    case CBytes(s) => s
  }

  predicate CanonLeq(a: Canon, b: Canon) {
    Tag(a) < Tag(b) || (Tag(a) == Tag(b) && LexLeq(Content(a), Content(b)))
  }

  lemma CanonTotal(a: Canon, b: Canon)
    ensures CanonLeq(a, b) || CanonLeq(b, a)
    ensures CanonLeq(a, b) && CanonLeq(b, a) ==> a == b
  {
    LexTotal(Content(a), Content(b));
  }

  function Insert(c: Canon, s: seq<Canon>): (r: seq<Canon>)
    ensures multiset(r) == multiset(s) + multiset{c}
  {
    if s == [] then [c]
    else if CanonLeq(c, s[0]) then
      [c] + s
    else
      assert s == [s[0]] + s[1..];
      [s[0]] + Insert(c, s[1..])
  }

  function Sort(s: seq<Canon>): (r: seq<Canon>)
    ensures multiset(r) == multiset(s)
  {
    if s == [] then []
    else
      assert s == [s[0]] + s[1..];
      Insert(s[0], Sort(s[1..]))
  }

  predicate Sorted(s: seq<Canon>) {
    forall i, j :: 0 <= i < j < |s| ==> CanonLeq(s[i], s[j])
  }

  lemma {:induction false} InsertSorted(c: Canon, s: seq<Canon>)
    requires Sorted(s)
    ensures Sorted(Insert(c, s))
  {
    if s != [] {
      CanonTotal(c, s[0]);
      if CanonLeq(c, s[0]) {
        forall j | 0 <= j < |s|
          ensures CanonLeq(c, s[j])
        {
          if j > 0 && Tag(c) == Tag(s[0]) == Tag(s[j]) {
            LexTransitive(Content(c), Content(s[0]), Content(s[j]));
          }
        }
      } else {
        InsertSorted(c, s[1..]);
        var r := Insert(c, s[1..]);
        forall j | 0 <= j < |r|
          ensures CanonLeq(s[0], r[j])
        {
          assert r[j] in multiset(r);
          assert r[j] == c || r[j] in s[1..];
        }
      }
    }
  }

  lemma {:induction false} SortSorted(s: seq<Canon>)
    ensures Sorted(Sort(s))
  {
    if s != [] {
      SortSorted(s[1..]);
      InsertSorted(s[0], Sort(s[1..]));
    }
  }

  /** The head of a sorted sequence is below everything in it. */
  lemma HeadIsLeast(s: seq<Canon>, c: Canon)
    requires Sorted(s) && s != [] && c in s
    ensures CanonLeq(s[0], c)
  {
    CanonTotal(c, c);
  }

  lemma TailMultiset(s: seq<Canon>)
    requires s != []
    ensures multiset(s[1..]) == multiset(s) - multiset{s[0]}
  {
    assert s == [s[0]] + s[1..];
  }

  lemma SameHead(a: seq<Canon>, b: seq<Canon>)
    requires Sorted(a) && Sorted(b) && multiset(a) == multiset(b) && a != []
    ensures b != [] && a[0] == b[0]
  {
    assert a[0] in multiset(b);
    assert b[0] in multiset(a);
    HeadIsLeast(a, b[0]);
    HeadIsLeast(b, a[0]);
    CanonTotal(a[0], b[0]);
  }

  lemma {:induction false} SortedUnique(a: seq<Canon>, b: seq<Canon>)
    requires Sorted(a) && Sorted(b) && multiset(a) == multiset(b)
    ensures a == b
  {
    assert |a| == |multiset(a)| == |multiset(b)| == |b|;
    if a != [] {
      SameHead(a, b);
      TailMultiset(a);
      TailMultiset(b);
      SortedUnique(a[1..], b[1..]);
      assert a == [a[0]] + a[1..] && b == [b[0]] + b[1..];
    }
  }

  /** Sorting decides equality of multisets. */
  lemma SortDecides(a: seq<Canon>, b: seq<Canon>)
    ensures Sort(a) == Sort(b) <==> multiset(a) == multiset(b)
  {
    SortSorted(a);
    SortSorted(b);
    if multiset(a) == multiset(b) {
      SortedUnique(Sort(a), Sort(b));
    }
  }

  predicate Rectangular(rows: seq<Row>, width: nat) {
    forall r :: r in rows ==> |r| == width
  }

  function Column(rows: seq<Row>, idx: nat): seq<Canon>
    requires forall r :: r in rows ==> idx < |r|
  {
    seq(|rows|, i requires 0 <= i < |rows| => CanonOf(rows[i][idx]))
  }

  function ColumnSignature(rows: seq<Row>, idx: nat): seq<Canon>
    requires forall r :: r in rows ==> idx < |r|
  {
    Sort(Column(rows, idx))
  }

  function Signatures(rows: seq<Row>, width: nat): (r: seq<seq<Canon>>)
    requires Rectangular(rows, width)
    ensures |r| == width
  {
    seq(width, i requires 0 <= i < width => ColumnSignature(rows, i))
  }

  // ---------------------------------------------------------------- column maps

  type Mapping = seq<nat>
  type Sigs = seq<seq<Canon>>

  predicate InjectiveInto(m: Mapping, width: nat) {
    && (forall i :: 0 <= i < |m| ==> m[i] < width)
    && (forall i, j :: 0 <= i < j < |m| ==> m[i] != m[j])
  }

  predicate Respects(gold: Sigs, cand: Sigs, m: Mapping) {
    && |m| <= |gold|
    && InjectiveInto(m, |cand|)
    && forall i :: 0 <= i < |m| ==> cand[m[i]] == gold[i]
  }

  /** Every extension of `prefix` to a full map between columns of equal signature, in search order. */
  function AllMaps(gold: Sigs, cand: Sigs, prefix: Mapping): seq<Mapping>
    decreases |gold| - |prefix|, |cand| + 1
  {
    if |prefix| >= |gold| then [prefix] else MapsFrom(gold, cand, prefix, 0)
  }

  /** Those that send the next gold column to candidate column `j` or a later one. */
  function MapsFrom(gold: Sigs, cand: Sigs, prefix: Mapping, j: nat): seq<Mapping>
    requires |prefix| < |gold| && j <= |cand|
    decreases |gold| - |prefix|, |cand| - j
  {
    if j == |cand| then []
    else
      (if j in prefix || cand[j] != gold[|prefix|] then [] else AllMaps(gold, cand, prefix + [j]))
      + MapsFrom(gold, cand, prefix, j + 1)
  }

  /** The search produces exactly the full signature-respecting maps that extend the prefix. */
  lemma {:induction false} AllMapsExact(gold: Sigs, cand: Sigs, prefix: Mapping, m: Mapping)
    requires Respects(gold, cand, prefix)
    ensures m in AllMaps(gold, cand, prefix) <==> |m| == |gold| && prefix <= m && Respects(gold, cand, m)
    decreases |gold| - |prefix|, |cand| + 1
  {
    if |prefix| < |gold| {
      MapsFromExact(gold, cand, prefix, 0, m);
    } else if |m| == |gold| && prefix <= m {
      assert m == prefix;
    }
  }

  lemma {:induction false} MapsFromExact(gold: Sigs, cand: Sigs, prefix: Mapping, j: nat, m: Mapping)
    requires Respects(gold, cand, prefix) && |prefix| < |gold| && j <= |cand|
    ensures m in MapsFrom(gold, cand, prefix, j) <==>
              |m| == |gold| && prefix <= m && m[|prefix|] >= j && Respects(gold, cand, m)
    decreases |gold| - |prefix|, |cand| - j
  {
    if j < |cand| {
      MapsFromExact(gold, cand, prefix, j + 1, m);
      var next := prefix + [j];
      assert |m| == |gold| && prefix <= m && m[|prefix|] == j <==> |m| == |gold| && next <= m;
      if j in prefix || cand[j] != gold[|prefix|] {
      } else {
        assert Respects(gold, cand, next);
        AllMapsExact(gold, cand, next, m);
      }
    }
  }

  lemma DistinctConcat<T>(a: seq<T>, b: seq<T>)
    requires Distinct(a) && Distinct(b) && forall x, y :: x in a && y in b ==> x != y
    ensures Distinct(a + b)
  {
    forall i, j | 0 <= i < j < |a + b|
      ensures (a + b)[i] != (a + b)[j]
    {
      assert i < |a| ==> (a + b)[i] in a;
      assert j >= |a| ==> (a + b)[j] in b;
    }
  }

  /** Each map is produced once. */
  lemma {:induction false} AllMapsDistinct(gold: Sigs, cand: Sigs, prefix: Mapping)
    requires Respects(gold, cand, prefix)
    ensures Distinct(AllMaps(gold, cand, prefix))
    decreases |gold| - |prefix|, |cand| + 1
  {
    if |prefix| < |gold| {
      MapsFromDistinct(gold, cand, prefix, 0);
    }
  }

  lemma {:induction false} MapsFromDistinct(gold: Sigs, cand: Sigs, prefix: Mapping, j: nat)
    requires Respects(gold, cand, prefix) && |prefix| < |gold| && j <= |cand|
    ensures Distinct(MapsFrom(gold, cand, prefix, j))
    decreases |gold| - |prefix|, |cand| - j
  {
    if j < |cand| {
      MapsFromDistinct(gold, cand, prefix, j + 1);
      if j !in prefix && cand[j] == gold[|prefix|] {
        var next := prefix + [j];
        assert Respects(gold, cand, next);
        AllMapsDistinct(gold, cand, next);
        var here, later := AllMaps(gold, cand, next), MapsFrom(gold, cand, prefix, j + 1);
        forall a, b | a in here && b in later
          ensures a != b
        {
          AllMapsExact(gold, cand, next, a);
          MapsFromExact(gold, cand, prefix, j + 1, b);
          assert a[|prefix|] == next[|prefix|];
        }
        DistinctConcat(here, later);
      }
    }
  }

  // ---------------------------------------------------------------- what a match means

  function CanonRow(r: Row): seq<Canon> {
    seq(|r|, i requires 0 <= i < |r| => CanonOf(r[i]))
  }

  function CanonRows(rows: seq<Row>): seq<seq<Canon>> {
    seq(|rows|, i requires 0 <= i < |rows| => CanonRow(rows[i]))
  }

  function ProjectRow(r: Row, m: Mapping): seq<Canon>
    requires InjectiveInto(m, |r|)
  {
    seq(|m|, i requires 0 <= i < |m| => CanonOf(r[m[i]]))
  }

  function Project(rows: seq<Row>, width: nat, m: Mapping): seq<seq<Canon>>
    requires Rectangular(rows, width) && InjectiveInto(m, width)
  {
    seq(|rows|, i requires 0 <= i < |rows| => ProjectRow(rows[i], m))
  }

  predicate RowsEqual(a: seq<seq<Canon>>, b: seq<seq<Canon>>, ordered: bool) {
    if ordered then a == b else multiset(a) == multiset(b)
  }

  /** A gold-to-candidate column map that makes the rows equal. */
  predicate Matches(gold: seq<Row>, gw: nat, cand: seq<Row>, cw: nat, ordered: bool, m: Mapping)
    requires Rectangular(gold, gw) && Rectangular(cand, cw)
  {
    |m| == gw && InjectiveInto(m, cw) && RowsEqual(CanonRows(gold), Project(cand, cw, m), ordered)
  }

  ghost predicate Equivalent(gold: seq<Row>, gw: nat, cand: seq<Row>, cw: nat, ordered: bool)
    requires Rectangular(gold, gw) && Rectangular(cand, cw)
  {
    exists m :: Matches(gold, gw, cand, cw, ordered, m)
  }

  // ---------------------------------------------------------------- signature pruning drops no match

  function Nth(rows: seq<seq<Canon>>, i: nat): seq<Canon>
    requires WiderThan(rows, i)
  {
    seq(|rows|, k requires 0 <= k < |rows| => rows[k][i])
  }

  lemma RemoveAt<T>(s: seq<T>, k: nat)
    requires k < |s|
    ensures multiset(s[..k] + s[k + 1..]) == multiset(s) - multiset{s[k]}
    ensures multiset(s) == multiset(s[..k] + s[k + 1..]) + multiset{s[k]}
  {
    assert s == s[..k] + [s[k]] + s[k + 1..];
  }

  predicate WiderThan(rows: seq<seq<Canon>>, i: nat) {
    forall k :: 0 <= k < |rows| ==> i < |rows[k]|
  }

  lemma RemoveRow(s: seq<seq<Canon>>, k: nat, i: nat) returns (rest: seq<seq<Canon>>)
    requires WiderThan(s, i) && k < |s|
    ensures |rest| == |s| - 1 && WiderThan(rest, i)
    ensures multiset(s) == multiset(rest) + multiset{s[k]}
    ensures multiset(Nth(s, i)) == multiset(Nth(rest, i)) + multiset{s[k][i]}
  {
    rest := s[..k] + s[k + 1..];
    RemoveAt(s, k);
    var c := Nth(s, i);
    assert Nth(rest, i) == c[..k] + c[k + 1..];
    RemoveAt(c, k);
  }

  lemma {:induction false} EqualRowsEqualColumns(a: seq<seq<Canon>>, b: seq<seq<Canon>>, i: nat)
    requires WiderThan(a, i) && WiderThan(b, i) && multiset(a) == multiset(b)
    ensures multiset(Nth(a, i)) == multiset(Nth(b, i))
    decreases |a|
  {
    assert |a| == |multiset(a)| == |multiset(b)| == |b|;
    if a != [] {
      assert a[0] in multiset(b);
      var k :| 0 <= k < |b| && b[k] == a[0];
      var a' := RemoveRow(a, 0, i);
      var b' := RemoveRow(b, k, i);
      assert multiset(a') == multiset(b') by {
        assert multiset(a') == multiset(a) - multiset{a[0]};
        assert multiset(b') == multiset(b) - multiset{a[0]};
      }
      EqualRowsEqualColumns(a', b', i);
    }
  }

  lemma MatchRespectsSignatures(gold: seq<Row>, gw: nat, cand: seq<Row>, cw: nat, ordered: bool, m: Mapping)
    requires Rectangular(gold, gw) && Rectangular(cand, cw) && Matches(gold, gw, cand, cw, ordered, m)
    ensures Respects(Signatures(gold, gw), Signatures(cand, cw), m)
  {
    var a, b := CanonRows(gold), Project(cand, cw, m);
    assert multiset(a) == multiset(b);
    forall i | 0 <= i < gw
      ensures ColumnSignature(gold, i) == ColumnSignature(cand, m[i])
    {
      EqualRowsEqualColumns(a, b, i);
      assert Nth(a, i) == Column(gold, i);
      assert Nth(b, i) == Column(cand, m[i]);
      SortDecides(Column(gold, i), Column(cand, m[i]));
    }
  }

  function MapsOf(gold: seq<Row>, gw: nat, cand: seq<Row>, cw: nat): seq<Mapping>
    requires Rectangular(gold, gw) && Rectangular(cand, cw)
  {
    AllMaps(Signatures(gold, gw), Signatures(cand, cw), [])
  }

  /** Equivalence is decided by the enumerated maps, none of which is enumerated twice. */
  lemma SearchIsComplete(gold: seq<Row>, gw: nat, cand: seq<Row>, cw: nat, ordered: bool)
    requires Rectangular(gold, gw) && Rectangular(cand, cw)
    ensures Equivalent(gold, gw, cand, cw, ordered) <==>
              exists m :: m in MapsOf(gold, gw, cand, cw) && Matches(gold, gw, cand, cw, ordered, m)
    ensures Distinct(MapsOf(gold, gw, cand, cw))
    ensures forall m :: m in MapsOf(gold, gw, cand, cw) ==> |m| == gw && InjectiveInto(m, cw)
  {
    var gs, cs := Signatures(gold, gw), Signatures(cand, cw);
    AllMapsDistinct(gs, cs, []);
    forall m
      ensures m in MapsOf(gold, gw, cand, cw) <==> |m| == gw && Respects(gs, cs, m)
    {
      AllMapsExact(gs, cs, [], m);
    }
    if m :| Matches(gold, gw, cand, cw, ordered, m) {
      MatchRespectsSignatures(gold, gw, cand, cw, ordered, m);
      assert m in MapsOf(gold, gw, cand, cw);
    }
  }
}
