/** The fallback for numbers on either side of a rounding boundary (_tolerant_equal in evaluation/compare.py): rows
    compared one by one, column by column, after a stable sort by canonical form unless the order counts. */
module CompareTolerance {
  import opened Prelude
  import opened Compare
  import opened CompareMeaning

  // ---------------------------------------------------------------- close cells

  function Abs(x: real): real {
    if x < 0.0 then -x else x
  }

  /** math.isclose with a relative tolerance of 1e-9 and an absolute one of 1e-4. */
  predicate IsClose(x: real, y: real) {
    var larger := if Abs(x) < Abs(y) then Abs(y) else Abs(x);
    Abs(x - y) <= 0.0001 || Abs(x - y) * 1000000000.0 <= larger
  }

  /** Numbers that are close, or the same null, text or byte string. */
  predicate Close(a: Cell, b: Cell) {
    match a
    case Null => b.Null?
    case Text(s) => b == Text(s)
    case Bytes(s) => b == Bytes(s)
    case _ => NumberIn(b).Some? && IsClose(NumberIn(a).value, NumberIn(b).value)
  }

  // ---------------------------------------------------------------- sorting rows

  predicate KeyLeq(a: seq<Canon>, b: seq<Canon>) {
    if a == [] then true
    else if b == [] then false
    else if a[0] == b[0] then KeyLeq(a[1..], b[1..])
    else CanonLeq(a[0], b[0])
  }

  function InsertRow(r: Row, rows: seq<Row>): seq<Row> {
    if rows == [] then [r]
    else if KeyLeq(CanonRow(r), CanonRow(rows[0])) then [r] + rows
    else [rows[0]] + InsertRow(r, rows[1..])
  }

  /** sorted(rows, key=...) */
  function SortRows(rows: seq<Row>): seq<Row> {
    if rows == [] then [] else InsertRow(rows[0], SortRows(rows[1..]))
  }

  lemma {:induction false} InsertKeepsBag(r: Row, rows: seq<Row>)
    ensures multiset(InsertRow(r, rows)) == multiset(rows) + multiset{r}
  {
    if rows != [] {
      InsertKeepsBag(r, rows[1..]);
      BagWithoutFirst(rows);
    }
  }

  lemma {:induction false} SortKeepsBag(rows: seq<Row>)
    ensures multiset(SortRows(rows)) == multiset(rows)
  {
    if rows != [] {
      SortKeepsBag(rows[1..]);
      InsertKeepsBag(rows[0], SortRows(rows[1..]));
      BagWithoutFirst(rows);
    }
  }

  predicate InOrder(rows: seq<Row>) {
    forall i :: 0 < i < |rows| ==> KeyLeq(CanonRow(rows[i - 1]), CanonRow(rows[i]))
  }

  lemma {:induction false} KeyTotal(a: seq<Canon>, b: seq<Canon>)
    ensures KeyLeq(a, b) || KeyLeq(b, a)
    ensures a == b ==> KeyLeq(a, b)
  {
    if a != [] && b != [] {
      CanonTotal(a[0], b[0]);
      KeyTotal(a[1..], b[1..]);
    }
  }

  lemma {:induction false} InsertKeepsOrder(r: Row, rows: seq<Row>)
    requires InOrder(rows)
    ensures InOrder(InsertRow(r, rows))
    ensures rows != [] ==> InsertRow(r, rows)[0] in [r, rows[0]]
  {
    if rows != [] {
      KeyTotal(CanonRow(r), CanonRow(rows[0]));
      assert forall i :: 0 <= i < |rows[1..]| ==> rows[1..][i] == rows[i + 1];
      InsertKeepsOrder(r, rows[1..]);
    }
  }

  /** The rows with the given canonical form, in order. */
  function WithKey(rows: seq<Row>, key: seq<Canon>): seq<Row> {
    if rows == [] then []
    else Own(rows[0], key) + WithKey(rows[1..], key)
  }

  function Own(r: Row, key: seq<Canon>): seq<Row> {
    if CanonRow(r) == key then [r] else []
  }

  lemma {:induction false} InsertIsStable(r: Row, rows: seq<Row>, key: seq<Canon>)
    ensures WithKey(InsertRow(r, rows), key) == Own(r, key) + WithKey(rows, key)
  {
    if rows == [] || KeyLeq(CanonRow(r), CanonRow(rows[0])) {
      assert InsertRow(r, rows) == [r] + rows;
      WithKeyFirst(r, rows, key);
    } else {
      KeyTotal(CanonRow(r), CanonRow(rows[0]));
      InsertIsStable(r, rows[1..], key);
      WithKeyFirst(rows[0], InsertRow(r, rows[1..]), key);
      Swap(Own(r, key), Own(rows[0], key), WithKey(rows[1..], key));
    }
  }

  lemma Swap(a: seq<Row>, b: seq<Row>, c: seq<Row>)
    ensures a == [] || b == [] ==> b + (a + c) == a + (b + c)
  {
    assert [] + c == c;
  }

  lemma WithKeyFirst(r: Row, rest: seq<Row>, key: seq<Canon>)
    ensures WithKey([r] + rest, key) == Own(r, key) + WithKey(rest, key)
  {
    assert ([r] + rest)[1..] == rest;
  }

  /** Sorting puts the same rows in order, and leaves rows of one canonical form in the order they had. */
  lemma {:induction false} SortIsStable(rows: seq<Row>)
    ensures multiset(SortRows(rows)) == multiset(rows) && InOrder(SortRows(rows))
    ensures forall key :: WithKey(SortRows(rows), key) == WithKey(rows, key)
  {
    SortKeepsBag(rows);
    if rows != [] {
      SortIsStable(rows[1..]);
      InsertKeepsOrder(rows[0], SortRows(rows[1..]));
      forall key
        ensures WithKey(SortRows(rows), key) == WithKey(rows, key)
      {
        InsertIsStable(rows[0], SortRows(rows[1..]), key);
      }
    }
  }

  // ---------------------------------------------------------------- the fallback

  predicate RowClose(g: Row, c: Row) {
    forall k :: 0 <= k < |g| && k < |c| ==> Close(g[k], c[k])
  }

  predicate AllClose(g: seq<Row>, c: seq<Row>) {
    forall i :: 0 <= i < |g| && i < |c| ==> RowClose(g[i], c[i])
  }

  predicate Tolerant(gold: seq<Row>, cand: seq<Row>, ordered: bool) {
    if ordered then AllClose(gold, cand) else AllClose(SortRows(gold), SortRows(cand))
  }

  method CellsDiffer(a: Cell, b: Cell) returns (differ: bool)
    ensures differ <==> !Close(a, b)
    ensures NumberIn(a).None? || NumberIn(b).None? ==> (differ <==> a != b)
    ensures NumberIn(a).Some? && NumberIn(b).Some? ==>
              var (x, y) := (NumberIn(a).value, NumberIn(b).value);
              var gap := if x < y then y - x else x - y;
              differ <==> gap > 0.0001 && gap * 1000000000.0 > Abs(x) && gap * 1000000000.0 > Abs(y)
  {
    var ca, cb := CanonOf(a), CanonOf(b);
    if Tag(ca) != Tag(cb) {
      return true;
    }
    if Tag(ca) == 1 {
      return !IsClose(NumberIn(a).value, NumberIn(b).value);
    }
    return ca != cb;
  }

  method RowsDiffer(g: Row, c: Row) returns (differ: bool)
    ensures differ <==> !RowClose(g, c)
  {
    var k := 0;
    while k < |g| && k < |c|
      invariant 0 <= k <= |g| && k <= |c|
      invariant forall l :: 0 <= l < k ==> Close(g[l], c[l])
    {
      differ := CellsDiffer(g[k], c[k]);
      if differ {
        return;
      }
      k := k + 1;
    }
    return false;
  }

  method RowByRow(g: seq<Row>, c: seq<Row>) returns (close: bool)
    ensures close <==> AllClose(g, c)
  {
    var i := 0;
    while i < |g| && i < |c|
      invariant 0 <= i <= |g| && i <= |c|
      invariant forall j :: 0 <= j < i ==> RowClose(g[j], c[j])
    {
      var differ := RowsDiffer(g[i], c[i]);
      if differ {
        return false;
      }
      i := i + 1;
    }
    return true;
  }

  /** The same rows in order, those of one canonical form in the order they had. */
  ghost predicate StablySorted(rows: seq<Row>, sorted: seq<Row>) {
    multiset(sorted) == multiset(rows) && InOrder(sorted) && forall key :: WithKey(sorted, key) == WithKey(rows, key)
  }

  /** As they are, or stably sorted, the rows are close one by one. */
  method TolerantEqual(gold: seq<Row>, cand: seq<Row>, ordered: bool) returns (equal: bool)
    ensures equal <==> Tolerant(gold, cand, ordered)
    ensures ordered ==> (equal <==> AllClose(gold, cand))
    ensures !ordered ==> exists g, c :: StablySorted(gold, g) && StablySorted(cand, c) && (equal <==> AllClose(g, c))
  {
    SortIsStable(gold);
    SortIsStable(cand);
    assert StablySorted(gold, SortRows(gold)) && StablySorted(cand, SortRows(cand));
    if ordered {
      equal := RowByRow(gold, cand);
    } else {
      equal := RowByRow(SortRows(gold), SortRows(cand));
    }
  }

  /** Under the pairing `p`, rows are close column by column. */
  predicate CloseUnder(gold: seq<Row>, cand: seq<Row>, p: seq<nat>) {
    |p| == |gold| == |cand| && Positions(p, |cand|) && forall i :: 0 <= i < |gold| ==> RowClose(gold[i], cand[p[i]])
  }

  /** What the fallback accepts is close under some pairing of the rows; with an order, row by row. */
  lemma TolerantIsClose(gold: seq<Row>, cand: seq<Row>, ordered: bool) returns (p: seq<nat>)
    requires |gold| == |cand| && Tolerant(gold, cand, ordered)
    ensures CloseUnder(gold, cand, p) && (ordered ==> forall i :: 0 <= i < |p| ==> p[i] == i)
  {
    if ordered {
      p := Identity(|gold|);
    } else {
      SortKeepsBag(gold);
      SortKeepsBag(cand);
      var there := EqualBagsPairUp(gold, SortRows(gold));
      var back := EqualBagsPairUp(SortRows(cand), cand);
      p := seq(|gold|, i requires 0 <= i < |gold| => back[there[i]]);
      forall i | 0 <= i < |gold|
        ensures RowClose(gold[i], cand[p[i]])
      {
        assert RowClose(SortRows(gold)[there[i]], SortRows(cand)[there[i]]);
      }
    }
  }
}
