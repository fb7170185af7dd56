/** The greedy row key of a long-format table (modules/long_format.py). */
module LongFormat {
  type Column = nat
  type Content = int
  /** A row gives every column of the table a value; NULL is a value like any other to SELECT DISTINCT. */
  type Row = map<Column, Content>

  ghost predicate Table(rows: seq<Row>, columns: set<Column>) {
    forall i :: 0 <= i < |rows| ==> columns <= rows[i].Keys
  }

  function Projection(row: Row, cols: seq<Column>): seq<Content>
    requires forall c :: c in cols ==> c in row
  {
    seq(|cols|, i requires 0 <= i < |cols| => row[cols[i]])
  }

  predicate Covers(rows: seq<Row>, cols: seq<Column>) {
    forall i, c :: 0 <= i < |rows| && c in cols ==> c in rows[i]
  }

  /** SELECT DISTINCT over the columns. */
  function DistinctProjections(rows: seq<Row>, cols: seq<Column>): set<seq<Content>>
    requires Covers(rows, cols)
  {
    set i | 0 <= i < |rows| :: Projection(rows[i], cols)
  }

  /** _unique: as many distinct projections as rows, and at least one column. */
  predicate Unique(rows: seq<Row>, cols: seq<Column>)
    requires Covers(rows, cols)
  {
    cols != [] && |DistinctProjections(rows, cols)| == |rows|
  }

  /** The columns tell any two rows apart. */
  ghost predicate Identifies(rows: seq<Row>, cols: set<Column>)
    requires Table(rows, cols)
  {
    forall i, j :: 0 <= i < j < |rows| ==> ToldApart(rows[i], rows[j], cols)
  }

  predicate ToldApart(a: Row, b: Row, cols: set<Column>)
    requires cols <= a.Keys && cols <= b.Keys
  {
    exists c :: c in cols && a[c] != b[c]
  }

  function ColumnsOf(cols: seq<Column>): set<Column> {
    set c | c in cols
  }

  lemma DistinctLast(rows: seq<Row>, cols: seq<Column>)
    requires rows != [] && Covers(rows, cols)
    ensures Covers(rows[..|rows| - 1], cols)
    ensures DistinctProjections(rows, cols)
         == DistinctProjections(rows[..|rows| - 1], cols) + {Projection(rows[|rows| - 1], cols)}
  {
    var init := rows[..|rows| - 1];
    forall p | p in DistinctProjections(rows, cols)
      ensures p in DistinctProjections(init, cols) + {Projection(rows[|rows| - 1], cols)}
    {
      var i :| 0 <= i < |rows| && Projection(rows[i], cols) == p;
      assert i < |rows| - 1 ==> init[i] == rows[i];
    }
    assert forall i :: 0 <= i < |init| ==> init[i] == rows[i];
  }

  lemma {:induction false} DistinctAtMost(rows: seq<Row>, cols: seq<Column>)
    requires Covers(rows, cols)
    ensures |DistinctProjections(rows, cols)| <= |rows|
  {
    if rows != [] {
      DistinctLast(rows, cols);
      DistinctAtMost(rows[..|rows| - 1], cols);
    }
  }

  predicate AllDiffer(rows: seq<Row>, cols: seq<Column>)
    requires Covers(rows, cols)
  {
    forall i, j :: 0 <= i < j < |rows| ==> Projection(rows[i], cols) != Projection(rows[j], cols)
  }

  lemma AllDifferLast(rows: seq<Row>, cols: seq<Column>)
    requires rows != [] && Covers(rows, cols) && Covers(rows[..|rows| - 1], cols)
    ensures AllDiffer(rows, cols) <==>
              && AllDiffer(rows[..|rows| - 1], cols)
              && Projection(rows[|rows| - 1], cols) !in DistinctProjections(rows[..|rows| - 1], cols)
  {
    var init, last := rows[..|rows| - 1], Projection(rows[|rows| - 1], cols);
    if last in DistinctProjections(init, cols) {
      var i :| 0 <= i < |init| && Projection(init[i], cols) == last;
      assert Projection(rows[i], cols) == last;
    } else if AllDiffer(init, cols) {
      forall i, j | 0 <= i < j < |rows|
        ensures Projection(rows[i], cols) != Projection(rows[j], cols)
      {
        assert Projection(init[i], cols) in DistinctProjections(init, cols);
        assert j < |init| ==> Projection(init[j], cols) != Projection(init[i], cols);
      }
    } else {
      var i, j :| 0 <= i < j < |init| && Projection(init[i], cols) == Projection(init[j], cols);
      assert Projection(rows[i], cols) == Projection(rows[j], cols);
    }
  }

  /** Counting distinct projections decides whether all projections differ. */
  lemma {:induction false} CountDecides(rows: seq<Row>, cols: seq<Column>)
    requires Covers(rows, cols)
    ensures |DistinctProjections(rows, cols)| == |rows| <==> AllDiffer(rows, cols)
  {
    if rows != [] {
      DistinctLast(rows, cols);
      DistinctAtMost(rows[..|rows| - 1], cols);
      CountDecides(rows[..|rows| - 1], cols);
      AllDifferLast(rows, cols);
    }
  }

  lemma ProjectionsDiffer(a: Row, b: Row, cols: seq<Column>)
    requires forall c :: c in cols ==> c in a && c in b
    ensures ColumnsOf(cols) <= a.Keys && ColumnsOf(cols) <= b.Keys
    ensures Projection(a, cols) != Projection(b, cols) <==> ToldApart(a, b, ColumnsOf(cols))
  {
    if c :| c in ColumnsOf(cols) && a[c] != b[c] {
      var i :| 0 <= i < |cols| && cols[i] == c;
      assert Projection(a, cols)[i] != Projection(b, cols)[i];
    } else {
      assert forall i :: 0 <= i < |cols| ==> cols[i] in ColumnsOf(cols);
      assert Projection(a, cols) == Projection(b, cols);
    }
  }

  /** The SQL test is exact: it holds when the columns identify every row, and not for no columns. */
  lemma UniqueIsIdentifies(rows: seq<Row>, cols: seq<Column>)
    requires Table(rows, ColumnsOf(cols))
    ensures Covers(rows, cols)
    ensures Unique(rows, cols) <==> cols != [] && Identifies(rows, ColumnsOf(cols))
  {
    assert forall c :: c in cols ==> c in ColumnsOf(cols);
    CountDecides(rows, cols);
    forall i, j | 0 <= i < j < |rows|
      ensures Projection(rows[i], cols) != Projection(rows[j], cols) <==> ToldApart(rows[i], rows[j], ColumnsOf(cols))
    {
      ProjectionsDiffer(rows[i], rows[j], cols);
    }
  }

  /** Adding columns keeps rows apart. */
  lemma MoreColumnsIdentify(rows: seq<Row>, a: set<Column>, b: set<Column>)
    requires Table(rows, b) && a <= b
    ensures Identifies(rows, a) ==> Identifies(rows, b)
  {
    if Identifies(rows, a) {
      forall i, j | 0 <= i < j < |rows|
        ensures ToldApart(rows[i], rows[j], b)
      {
        assert ToldApart(rows[i], rows[j], a);
        var c :| c in a && rows[i][c] != rows[j][c];
        assert c in b;
      }
    }
  }

  function Without(key: seq<Column>, c: Column): (r: seq<Column>)
    ensures forall x :: x in r <==> x in key && x != c
    ensures ColumnsOf(r) == ColumnsOf(key) - {c}
  {
    if key == [] then []
    else
      assert key == [key[0]] + key[1..];
      var rest := Without(key[1..], c);
      var r := if key[0] == c then rest else [key[0]] + rest;
      assert forall x :: x in r <==> x in key && x != c;
      r
  }

  /** A key: it identifies every row, and the test fails for it without any one of its columns. */
  ghost predicate MinimalKey(rows: seq<Row>, key: seq<Column>)
    requires Table(rows, ColumnsOf(key))
  {
    && key != [] && Identifies(rows, ColumnsOf(key))
    && forall c :: c in key ==> Needed(rows, key, c)
  }

  ghost predicate Needed(rows: seq<Row>, key: seq<Column>, c: Column)
    requires Table(rows, ColumnsOf(key))
  {
    ColumnsOf(key) == {c} || !Identifies(rows, ColumnsOf(key) - {c})
  }

  /** The columns visited so far that are still in the key are needed. */
  ghost predicate ReducedBy(rows: seq<Row>, key: seq<Column>, visited: seq<Column>)
    requires Table(rows, ColumnsOf(key))
  {
    forall c :: c in visited && c in key ==> Needed(rows, key, c)
  }

  lemma StillNeeded(rows: seq<Row>, before: seq<Column>, key: seq<Column>, c: Column, dropped: Column)
    requires Table(rows, ColumnsOf(before)) && ColumnsOf(key) == ColumnsOf(before) - {dropped} && c in key
    requires Needed(rows, before, c) && Identifies(rows, ColumnsOf(key))
    ensures Needed(rows, key, c)
  {
    assert c in ColumnsOf(key);
    if ColumnsOf(before) != {c} {
      MoreColumnsIdentify(rows, ColumnsOf(key) - {c}, ColumnsOf(before) - {c});
    }
  }

  lemma NotDropped(rows: seq<Row>, key: seq<Column>, c: Column)
    requires Table(rows, ColumnsOf(key))
    requires Without(key, c) == [] || !Identifies(rows, ColumnsOf(Without(key, c)))
    ensures c in key ==> Needed(rows, key, c)
  {
    assert c in key ==> c in ColumnsOf(key);
    if Without(key, c) == [] {
      assert ColumnsOf(key) - {c} == {};
      assert forall x :: x in ColumnsOf(key) ==> x == c;
    }
  }

  lemma DropKeepsReduced(rows: seq<Row>, key: seq<Column>, visited: seq<Column>, c: Column)
    requires Table(rows, ColumnsOf(key)) && ReducedBy(rows, key, visited)
              && Identifies(rows, ColumnsOf(Without(key, c)))
    ensures ReducedBy(rows, Without(key, c), visited + [c])
  {
    forall x | x in visited + [c] && x in Without(key, c)
      ensures Needed(rows, Without(key, c), x)
    {
      StillNeeded(rows, key, Without(key, c), x, c);
    }
  }

  lemma AllVisited(rows: seq<Row>, key: seq<Column>, order: seq<Column>)
    requires Table(rows, ColumnsOf(key)) && ReducedBy(rows, key, order) && ColumnsOf(key) <= ColumnsOf(order)
    ensures forall c :: c in key ==> Needed(rows, key, c)
  {
    forall c | c in key
      ensures Needed(rows, key, c)
    {
      assert c in ColumnsOf(key);
    }
  }

  /** From candidate columns that identify the rows, in whatever order they are visited: a key from which nothing can
      be dropped. */
  method ReduceKey(rows: seq<Row>, candidates: seq<Column>, order: seq<Column>) returns (key: seq<Column>)
    requires Table(rows, ColumnsOf(candidates)) && Covers(rows, candidates) && Unique(rows, candidates)
    requires ColumnsOf(order) == ColumnsOf(candidates)
    ensures ColumnsOf(key) <= ColumnsOf(candidates) && MinimalKey(rows, key)
  {
    key := candidates;
    UniqueIsIdentifies(rows, key);
    for k := 0 to |order|
      invariant ColumnsOf(key) <= ColumnsOf(candidates) && key != [] && Identifies(rows, ColumnsOf(key))
      invariant ReducedBy(rows, key, order[..k])
    {
      var rest := Without(key, order[k]);
      UniqueIsIdentifies(rows, rest);
      assert order[..k + 1] == order[..k] + [order[k]];
      if Unique(rows, rest) {
        DropKeepsReduced(rows, key, order[..k], order[k]);
        key := rest;
      } else {
        NotDropped(rows, key, order[k]);
      }
    }
    assert order[..|order|] == order;
    AllVisited(rows, key, order);
  }

  /** No smaller non-empty set of columns of a minimal key identifies the rows, not only none that drops one column. */
  lemma NoSmallerKey(rows: seq<Row>, key: seq<Column>, smaller: set<Column>)
    requires Table(rows, ColumnsOf(key)) && MinimalKey(rows, key) && smaller < ColumnsOf(key) && smaller != {}
    ensures !Identifies(rows, smaller)
  {
    assert ColumnsOf(key) - smaller != {};
    var c :| c in ColumnsOf(key) - smaller;
    assert c in key;
    assert Needed(rows, key, c);
    MoreColumnsIdentify(rows, smaller, ColumnsOf(key) - {c});
  }
}
