/** The backtracking search and compare_results in the program's own form, and the invariance of its verdict. */
module CompareSearch {
  import opened Prelude
  import opened Compare
  import opened CompareMeaning
  import opened CompareTolerance

  function Take<T>(s: seq<T>, n: nat): seq<T> {
    if n < |s| then s[..n] else s
  }

  /** `found` after the given maps have been yielded in turn, as far as the bound allows. */
  function Yield(found: seq<Mapping>, maps: seq<Mapping>): seq<Mapping> {
    Take(found + maps, MAX_MAPPINGS)
  }

  lemma YieldTwice(found: seq<Mapping>, maps: seq<Mapping>, more: seq<Mapping>)
    ensures Yield(Yield(found, maps), more) == Yield(found, maps + more)
  {
    assert found + (maps + more) == (found + maps) + more;
  }

  lemma YieldNothing(found: seq<Mapping>, maps: seq<Mapping>)
    requires |found| == MAX_MAPPINGS || (maps == [] && |found| <= MAX_MAPPINGS)
    ensures Yield(found, maps) == found
  {
  }

  ghost predicate InUse(used: set<nat>, current: Mapping) {
    forall j :: j in used <==> j in current
  }

  /** State of the generator: columns in use, the partial map, and the maps yielded so far. */
  class MappingSearch {
    const gold: Sigs
    const cand: Sigs
    var used: set<nat>
    var current: Mapping
    var count: nat
    var found: seq<Mapping>

    constructor (gold: Sigs, cand: Sigs)
      ensures this.gold == gold && this.cand == cand
      ensures used == {} && current == [] && count == 0 && found == []
    {
      this.gold, this.cand := gold, cand;
      used, current, count, found := {}, [], 0, [];
    }

    /** Yields the extensions of the partial map in search order, stopping once MAX_MAPPINGS maps have been yielded,
        and leaves the partial map as it was. */
    method Rec(i: nat)
      requires i == |current| <= |gold| && InUse(used, current)
      requires count == |found| < MAX_MAPPINGS
      modifies this
      ensures used == old(used) && current == old(current)
      ensures found == Yield(old(found), AllMaps(gold, cand, current)) && count == |found|
      decreases |gold| - i, 1
    {
      if i == |gold| {
        count := count + 1;
        found := found + [current];
        return;
      }
      ghost var goal := Yield(found, AllMaps(gold, cand, current));
      var j := 0;
      while j < |cand|
        invariant j <= |cand| && current == old(current) && used == old(used)
        invariant count == |found| < MAX_MAPPINGS
        invariant goal == Yield(found, MapsFrom(gold, cand, current, j))
      {
        if j !in used && cand[j] == gold[i] {
          ghost var rest := MapsFrom(gold, cand, current, j + 1);
          YieldTwice(found, AllMaps(gold, cand, current + [j]), rest);
          Descend(i, j);
          if count >= MAX_MAPPINGS {
            YieldNothing(found, rest);
            return;
          }
        }
        j := j + 1;
      }
      YieldNothing(found, []);
    }

    /** Sends gold column `i` to candidate column `j` and searches on from there. */
    method Descend(i: nat, j: nat)
      requires i == |current| < |gold| && InUse(used, current)
      requires j < |cand| && j !in used && cand[j] == gold[i] && count == |found| < MAX_MAPPINGS
      modifies this
      ensures used == old(used) && current == old(current)
      ensures found == Yield(old(found), AllMaps(gold, cand, current + [j])) && count == |found|
      decreases |gold| - i, 0
    {
      used := used + {j};
      current := current + [j];
      Rec(i + 1);
      current := current[..|current| - 1];
      used := used - {j};
    }
  }

  method CandidateMappings(gold: Sigs, cand: Sigs) returns (mappings: seq<Mapping>)
    ensures mappings == Take(AllMaps(gold, cand, []), MAX_MAPPINGS)
    ensures |mappings| <= 5000 && mappings <= AllMaps(gold, cand, [])
    ensures |mappings| < 5000 ==> mappings == AllMaps(gold, cand, [])
  {
    var search := new MappingSearch(gold, cand);
    search.Rec(0);
    assert [] + AllMaps(gold, cand, []) == AllMaps(gold, cand, []);
    mappings := search.found;
  }

  // ---------------------------------------------------------------- compare_results

  datatype Kind = Exact | SupersetColumns
  datatype Reason = RowCountDiffers | BothEmpty | TooFewColumns | TooManyColumns | IdenticalRows | ExtraColumnsPresent
                  | DifferentOrder | RowsDoNotLineUp | WithinTolerance | NoMatchingColumn(missing: seq<nat>)
                  | ValuesDiffer
  datatype Comparison = Comparison(match_: bool, kind: Option<Kind>, reason: Reason)

  /** The comparison was decided by a column map. */
  predicate ByMapping(c: Comparison) {
    c.match_ && c.reason in {IdenticalRows, ExtraColumnsPresent}
  }

  function Width(rows: seq<Row>): nat {
    if rows == [] then 0 else |rows[0]|
  }

  /** One of the given maps makes the rows equal. */
  predicate SomeMatch(gold: seq<Row>, gw: nat, cand: seq<Row>, cw: nat, mappings: seq<Mapping>, ordered: bool)
    requires Rectangular(gold, gw) && Rectangular(cand, cw)
  {
    exists k :: 0 <= k < |mappings| && Matches(gold, gw, cand, cw, ordered, mappings[k])
  }

  lemma OneMoreMapping(gold: seq<Row>, gw: nat, cand: seq<Row>, cw: nat, mappings: seq<Mapping>, ordered: bool, k: nat)
    requires Rectangular(gold, gw) && Rectangular(cand, cw) && k < |mappings|
    ensures SomeMatch(gold, gw, cand, cw, mappings[..k + 1], ordered) <==>
              SomeMatch(gold, gw, cand, cw, mappings[..k], ordered) || Matches(gold, gw, cand, cw, ordered, mappings[k])
  {
    var shorter, longer := mappings[..k], mappings[..k + 1];
    assert longer[k] == mappings[k];
    if i :| 0 <= i < |shorter| && Matches(gold, gw, cand, cw, ordered, shorter[i]) {
      assert longer[i] == shorter[i];
    }
    if i :| 0 <= i < |longer| && Matches(gold, gw, cand, cw, ordered, longer[i]) {
      assert i < k ==> shorter[i] == longer[i];
    }
  }

  method FindMatch(gold: seq<Row>, gw: nat, cand: seq<Row>, cw: nat, mappings: seq<Mapping>, ordered: bool)
    returns (hit: bool)
    requires Rectangular(gold, gw) && Rectangular(cand, cw)
    requires forall k :: 0 <= k < |mappings| ==> |mappings[k]| == gw && InjectiveInto(mappings[k], cw)
    ensures hit <==> SomeMatch(gold, gw, cand, cw, mappings, ordered)
  {
    var goldCanon := CanonRows(gold);
    for k := 0 to |mappings|
      invariant !SomeMatch(gold, gw, cand, cw, mappings[..k], ordered)
    {
      OneMoreMapping(gold, gw, cand, cw, mappings, ordered, k);
      var projected := Project(cand, cw, mappings[k]);
      if RowsEqual(goldCanon, projected, ordered) {
        assert Matches(gold, gw, cand, cw, ordered, mappings[k]);
        return true;
      }
    }
    assert mappings[..|mappings|] == mappings;
    return false;
  }

  /** The search was cut off after MAX_MAPPINGS maps. */
  predicate CutOff(gold: seq<Row>, gw: nat, cand: seq<Row>, cw: nat)
    requires Rectangular(gold, gw) && Rectangular(cand, cw)
  {
    |MapsOf(gold, gw, cand, cw)| > MAX_MAPPINGS
  }

  function Searched(gold: seq<Row>, gw: nat, cand: seq<Row>, cw: nat): seq<Mapping>
    requires Rectangular(gold, gw) && Rectangular(cand, cw)
  {
    Take(MapsOf(gold, gw, cand, cw), MAX_MAPPINGS)
  }

  predicate SearchFinds(gold: seq<Row>, gw: nat, cand: seq<Row>, cw: nat, ordered: bool)
    requires Rectangular(gold, gw) && Rectangular(cand, cw)
  {
    SomeMatch(gold, gw, cand, cw, Searched(gold, gw, cand, cw), ordered)
  }

  /** What the maps searched say about equivalence: a match is always right, and unless the search was cut off a
      failure is right too. */
  lemma SearchedVerdict(gold: seq<Row>, gw: nat, cand: seq<Row>, cw: nat, ordered: bool)
    requires Rectangular(gold, gw) && Rectangular(cand, cw)
    ensures forall k :: 0 <= k < |Searched(gold, gw, cand, cw)| ==>
              |Searched(gold, gw, cand, cw)[k]| == gw && InjectiveInto(Searched(gold, gw, cand, cw)[k], cw)
    ensures SearchFinds(gold, gw, cand, cw, ordered) ==> Equivalent(gold, gw, cand, cw, ordered)
    ensures !CutOff(gold, gw, cand, cw) && Equivalent(gold, gw, cand, cw, ordered) ==>
              SearchFinds(gold, gw, cand, cw, ordered)
  {
    SearchIsComplete(gold, gw, cand, cw, ordered);
    var maps := Searched(gold, gw, cand, cw);
    assert forall k :: 0 <= k < |maps| ==> maps[k] in MapsOf(gold, gw, cand, cw);
  }

  /** `missing` are the columns of `gold` whose content no column of `cand` has. */
  ghost predicate Missing(gold: Sigs, cand: Sigs, missing: seq<nat>) {
    forall i :: i in missing <==> 0 <= i < |gold| && gold[i] !in cand
  }

  method MissingColumns(gold: Sigs, cand: Sigs) returns (missing: seq<nat>)
    ensures Missing(gold, cand, missing)
  {
    missing := [];
    for i := 0 to |gold|
      invariant forall k :: k in missing <==> 0 <= k < i && gold[k] !in cand
    {
      if gold[i] !in cand {
        missing := missing + [i];
      }
    }
  }

  /** Why results that no column map relates differ: the columns without counterpart, if there are any. */
  method ExplainMismatch(gold: Sigs, cand: Sigs) returns (c: Comparison)
    ensures !c.match_ && c.kind == None && (c.reason == ValuesDiffer || c.reason.NoMatchingColumn?)
    ensures c.reason == ValuesDiffer <==> forall i :: 0 <= i < |gold| ==> gold[i] in cand
    ensures c.reason.NoMatchingColumn? ==> c.reason.missing != [] && Missing(gold, cand, c.reason.missing)
  {
    var missing := MissingColumns(gold, cand);
    if missing != [] {
      assert missing[0] in missing;
      return Comparison(false, None, NoMatchingColumn(missing));
    }
    return Comparison(false, None, ValuesDiffer);
  }

  /** Results of equal row count whose widths may be compared: by map if one of those searched makes the rows equal,
      otherwise by the floating-point fallback, and that only when no column map exists at all. */
  method CompareColumns(gold: seq<Row>, gw: nat, cand: seq<Row>, cw: nat, ordered: bool) returns (c: Comparison)
    requires Rectangular(gold, gw) && Rectangular(cand, cw)
    ensures ByMapping(c) <==> SearchFinds(gold, gw, cand, cw, ordered)
    ensures ByMapping(c) ==> c.kind == Some(if cw == gw then Exact else SupersetColumns)
    ensures c.match_ <==> ByMapping(c) || c.reason == WithinTolerance
    ensures c.reason == WithinTolerance <==>
              gw == cw && MapsOf(gold, gw, cand, cw) == [] && Tolerant(gold, cand, ordered)
    ensures c.reason == WithinTolerance ==> c.kind == Some(Exact)
    ensures !c.match_ ==> c.kind == None
    ensures c.reason == DifferentOrder <==>
              ordered && !ByMapping(c) && SearchFinds(gold, gw, cand, cw, false)
    ensures c.reason == RowsDoNotLineUp <==>
              !ByMapping(c) && c.reason != DifferentOrder && MapsOf(gold, gw, cand, cw) != []
    ensures c.reason.NoMatchingColumn? ==>
              c.reason.missing != [] && Missing(Signatures(gold, gw), Signatures(cand, cw), c.reason.missing)
    ensures c.reason == ValuesDiffer ==> Missing(Signatures(gold, gw), Signatures(cand, cw), [])
  {
    var goldSigs, candSigs := Signatures(gold, gw), Signatures(cand, cw);
    var mappings := CandidateMappings(goldSigs, candSigs);
    SearchedVerdict(gold, gw, cand, cw, ordered);
    assert mappings == Searched(gold, gw, cand, cw);
    var hit := FindMatch(gold, gw, cand, cw, mappings, ordered);
    if hit {
      return if cw == gw then Comparison(true, Some(Exact), IdenticalRows)
             else Comparison(true, Some(SupersetColumns), ExtraColumnsPresent);
    }
    if mappings != [] {
      if ordered {
        hit := FindMatch(gold, gw, cand, cw, mappings, false);
        if hit {
          return Comparison(false, None, DifferentOrder);
        }
      }
      return Comparison(false, None, RowsDoNotLineUp);
    }
    if cw == gw {
      var tolerant := TolerantEqual(gold, cand, ordered);
      if tolerant {
        return Comparison(true, Some(Exact), WithinTolerance);
      }
    }
    c := ExplainMismatch(goldSigs, candSigs);
  }

  /** The whole comparison. A match by column map says that the cells agree under some map of the columns and, unless
      the order counts, some pairing of the rows, and is found whenever there is one unless the search was cut off; a
      match within tolerance says that they are close column by column under such a pairing. */
  method CompareResults(gold: seq<Row>, cand: seq<Row>, ordered: bool, allowExtra: bool) returns (c: Comparison)
    requires Rectangular(gold, Width(gold)) && Rectangular(cand, Width(cand))
    ensures |gold| != |cand| ==> c == Comparison(false, None, RowCountDiffers)
    ensures |gold| == |cand| == 0 ==> c == Comparison(true, Some(Exact), BothEmpty)
    ensures |gold| == |cand| > 0 && Width(cand) < Width(gold) ==> c == Comparison(false, None, TooFewColumns)
    ensures |gold| == |cand| > 0 && Width(cand) > Width(gold) && !allowExtra ==>
              c == Comparison(false, None, TooManyColumns)
    ensures ByMapping(c) ==> SameResult(gold, Width(gold), cand, Width(cand), ordered)
    ensures ByMapping(c) ==> c.kind == Some(if Width(cand) == Width(gold) then Exact else SupersetColumns)
    ensures c.match_ ==> ByMapping(c) || c.reason in {WithinTolerance, BothEmpty}
    ensures c.reason == WithinTolerance ==>
              exists p :: CloseUnder(gold, cand, p) && (ordered ==> forall i :: 0 <= i < |p| ==> p[i] == i)
    ensures c.reason == DifferentOrder ==> ordered && SameResult(gold, Width(gold), cand, Width(cand), false)
    ensures |gold| == |cand| > 0 && Comparable(gold, cand, allowExtra) ==>
              && (ByMapping(c) <==> SearchFinds(gold, Width(gold), cand, Width(cand), ordered))
              && (c.match_ <==> ByMapping(c) || c.reason == WithinTolerance)
              && (c.reason == WithinTolerance <==>
                    && Width(gold) == Width(cand) && MapsOf(gold, Width(gold), cand, Width(cand)) == []
                    && Tolerant(gold, cand, ordered))
              && (c.reason == DifferentOrder <==>
                    ordered && !ByMapping(c) && SearchFinds(gold, Width(gold), cand, Width(cand), false))
    ensures |gold| == |cand| > 0 && Comparable(gold, cand, allowExtra)
            && !CutOff(gold, Width(gold), cand, Width(cand)) ==>
              (ByMapping(c) <==> SameResult(gold, Width(gold), cand, Width(cand), ordered))
  {
    if |gold| != |cand| {
      return Comparison(false, None, RowCountDiffers);
    }
    if |gold| == 0 {
      return Comparison(true, Some(Exact), BothEmpty);
    }
    var gw, cw := |gold[0]|, |cand[0]|;
    if cw < gw {
      return Comparison(false, None, TooFewColumns);
    }
    if cw > gw && !allowExtra {
      return Comparison(false, None, TooManyColumns);
    }
    c := CompareColumns(gold, gw, cand, cw, ordered);
    SearchedVerdict(gold, gw, cand, cw, ordered);
    SearchedVerdict(gold, gw, cand, cw, false);
    EquivalentIsSame(gold, gw, cand, cw, ordered);
    EquivalentIsSame(gold, gw, cand, cw, false);
    if c.reason == WithinTolerance {
      var p := TolerantIsClose(gold, cand, ordered);
    }
  }

  predicate Comparable(gold: seq<Row>, cand: seq<Row>, allowExtra: bool) {
    Width(cand) == Width(gold) || (Width(cand) > Width(gold) && allowExtra)
  }

  // ---------------------------------------------------------------- column and row order of the candidate

  /** `q` undoes the permutation `p` of `w` columns. */
  predicate Inverse(p: Mapping, q: Mapping, w: nat) {
    && |p| == |q| == w
    && InjectiveInto(p, w) && InjectiveInto(q, w)
    && (forall k :: 0 <= k < w ==> p[q[k]] == k && q[p[k]] == k)
  }

  function Permute(r: Row, p: Mapping): Row
    requires InjectiveInto(p, |r|)
  {
    seq(|p|, k requires 0 <= k < |p| => r[p[k]])
  }

  /** The candidate with its columns rearranged: new column k is old column p[k]. */
  function PermuteColumns(rows: seq<Row>, w: nat, p: Mapping): (r: seq<Row>)
    requires Rectangular(rows, w) && |p| == w && InjectiveInto(p, w)
    ensures Rectangular(r, w) && |r| == |rows|
  {
    seq(|rows|, i requires 0 <= i < |rows| => Permute(rows[i], p))
  }

  function Compose(p: Mapping, m: Mapping): Mapping
    requires forall i :: 0 <= i < |m| ==> m[i] < |p|
  {
    seq(|m|, i requires 0 <= i < |m| => p[m[i]])
  }

  lemma ProjectCarriesOver(r: Row, p: Mapping, m: Mapping)
    requires |p| == |r| && InjectiveInto(p, |r|) && InjectiveInto(m, |r|)
    ensures InjectiveInto(Compose(p, m), |r|) && ProjectRow(Permute(r, p), m) == ProjectRow(r, Compose(p, m))
  {
  }

  lemma MatchCarriesOver(gold: seq<Row>, gw: nat, cand: seq<Row>, w: nat, p: Mapping, ordered: bool, m: Mapping)
    requires Rectangular(gold, gw) && Rectangular(cand, w) && |p| == w && InjectiveInto(p, w)
    requires |m| == gw && InjectiveInto(m, w)
    ensures InjectiveInto(Compose(p, m), w)
    ensures Matches(gold, gw, PermuteColumns(cand, w, p), w, ordered, m) <==>
              Matches(gold, gw, cand, w, ordered, Compose(p, m))
  {
    var moved := PermuteColumns(cand, w, p);
    forall i | 0 <= i < |cand|
      ensures ProjectRow(moved[i], m) == ProjectRow(cand[i], Compose(p, m))
    {
      ProjectCarriesOver(cand[i], p, m);
    }
    assert Project(moved, w, m) == Project(cand, w, Compose(p, m));
  }

  lemma SignatureCarriesOver(cand: seq<Row>, w: nat, p: Mapping, k: nat)
    requires Rectangular(cand, w) && |p| == w && InjectiveInto(p, w) && k < w
    ensures ColumnSignature(PermuteColumns(cand, w, p), k) == ColumnSignature(cand, p[k])
  {
    assert Column(PermuteColumns(cand, w, p), k) == Column(cand, p[k]);
  }

  /** Rearranging the candidate's columns changes neither equivalence nor the number of maps to search, so it does not
      change the verdict. */
  lemma ColumnOrderIrrelevant(gold: seq<Row>, gw: nat, cand: seq<Row>, w: nat, p: Mapping, q: Mapping, ordered: bool)
    requires Rectangular(gold, gw) && Rectangular(cand, w) && Inverse(p, q, w)
    ensures Equivalent(gold, gw, cand, w, ordered) <==> Equivalent(gold, gw, PermuteColumns(cand, w, p), w, ordered)
    ensures |MapsOf(gold, gw, cand, w)| == |MapsOf(gold, gw, PermuteColumns(cand, w, p), w)|
  {
    var moved := PermuteColumns(cand, w, p);
    assert PermuteColumns(moved, w, q) == cand by {
      assert forall i :: 0 <= i < |cand| ==> PermuteColumns(moved, w, q)[i] == cand[i];
    }
    EquivalentCarriesOver(gold, gw, cand, w, p, ordered);
    EquivalentCarriesOver(gold, gw, moved, w, q, ordered);
    NoMoreMaps(gold, gw, cand, w, p);
    NoMoreMaps(gold, gw, moved, w, q);
  }

  /** Two comparisons of one gold result, with a candidate and with the same candidate with its columns rearranged,
      agree on whether a column map decides, unless the search was cut off; and on the match, unless the fallback
      decides one of them. */
  method CompareRearranged(gold: seq<Row>, cand: seq<Row>, p: Mapping, q: Mapping, ordered: bool, allowExtra: bool)
    returns (first: Comparison, second: Comparison)
    requires Rectangular(gold, Width(gold)) && Rectangular(cand, Width(cand)) && Inverse(p, q, Width(cand))
    ensures !CutOff(gold, Width(gold), cand, Width(cand)) ==> ByMapping(first) == ByMapping(second)
    ensures !CutOff(gold, Width(gold), cand, Width(cand)) && first.match_ != second.match_ ==>
              first.reason == WithinTolerance || second.reason == WithinTolerance
  {
    var w := Width(cand);
    var moved := PermuteColumns(cand, w, p);
    ColumnOrderIrrelevant(gold, Width(gold), cand, w, p, q, ordered);
    assert Width(moved) == w;
    EquivalentIsSame(gold, Width(gold), cand, w, ordered);
    EquivalentIsSame(gold, Width(gold), moved, w, ordered);
    first := CompareResults(gold, cand, ordered, allowExtra);
    second := CompareResults(gold, moved, ordered, allowExtra);
  }

  lemma EquivalentCarriesOver(gold: seq<Row>, gw: nat, cand: seq<Row>, w: nat, p: Mapping, ordered: bool)
    requires Rectangular(gold, gw) && Rectangular(cand, w) && |p| == w && InjectiveInto(p, w)
    ensures Equivalent(gold, gw, PermuteColumns(cand, w, p), w, ordered) ==> Equivalent(gold, gw, cand, w, ordered)
  {
    if m :| Matches(gold, gw, PermuteColumns(cand, w, p), w, ordered, m) {
      MatchCarriesOver(gold, gw, cand, w, p, ordered, m);
    }
  }

  lemma NoMoreMaps(gold: seq<Row>, gw: nat, cand: seq<Row>, w: nat, p: Mapping)
    requires Rectangular(gold, gw) && Rectangular(cand, w) && |p| == w && InjectiveInto(p, w)
    ensures |MapsOf(gold, gw, PermuteColumns(cand, w, p), w)| <= |MapsOf(gold, gw, cand, w)|
  {
    var moved := PermuteColumns(cand, w, p);
    AllMapsDistinct(Signatures(gold, gw), Signatures(moved, w), []);
    forall m | m in MapsOf(gold, gw, moved, w)
      ensures InjectiveInto(m, w) && Compose(p, m) in MapsOf(gold, gw, cand, w)
    {
      MapCarriesOver(gold, gw, cand, w, p, m);
    }
    EmbeddedSequence(MapsOf(gold, gw, moved, w), MapsOf(gold, gw, cand, w), p);
  }

  lemma MapCarriesOver(gold: seq<Row>, gw: nat, cand: seq<Row>, w: nat, p: Mapping, m: Mapping)
    requires Rectangular(gold, gw) && Rectangular(cand, w) && |p| == w && InjectiveInto(p, w)
    requires m in MapsOf(gold, gw, PermuteColumns(cand, w, p), w)
    ensures InjectiveInto(m, w) && Compose(p, m) in MapsOf(gold, gw, cand, w)
  {
    var gs, cs, ms := Signatures(gold, gw), Signatures(cand, w), Signatures(PermuteColumns(cand, w, p), w);
    AllMapsExact(gs, ms, [], m);
    forall k | 0 <= k < w
      ensures ms[k] == cs[p[k]]
    {
      SignatureCarriesOver(cand, w, p, k);
    }
    RespectsCarriesOver(gs, cs, ms, p, m);
    AllMapsExact(gs, cs, [], Compose(p, m));
  }

  lemma RespectsCarriesOver(gs: Sigs, cs: Sigs, ms: Sigs, p: Mapping, m: Mapping)
    requires |p| == |cs| == |ms| && InjectiveInto(p, |p|) && forall k :: 0 <= k < |p| ==> ms[k] == cs[p[k]]
    requires Respects(gs, ms, m)
    ensures Respects(gs, cs, Compose(p, m)) && |Compose(p, m)| == |m|
  {
  }

  /** Composition with `p` embeds one duplicate-free list of maps into another, so the first is no longer. */
  lemma EmbeddedSequence(a: seq<Mapping>, b: seq<Mapping>, p: Mapping)
    requires Distinct(a) && InjectiveInto(p, |p|)
    requires forall m :: m in a ==> InjectiveInto(m, |p|) && Compose(p, m) in b
    ensures |a| <= |b|
  {
    if a != [] {
      var last := a[|a| - 1];
      assert last in a;
      var k :| 0 <= k < |b| && b[k] == Compose(p, last);
      var a', b' := a[..|a| - 1], b[..k] + b[k + 1..];
      forall m | m in a'
        ensures InjectiveInto(m, |p|) && Compose(p, m) in b'
      {
        assert m in a && m != last;
        if Compose(p, m) == Compose(p, last) {
          ComposeInjective(p, m, last);
        }
        var i :| 0 <= i < |b| && b[i] == Compose(p, m);
        assert i != k;
        assert b'[if i < k then i else i - 1] == b[i];
      }
      EmbeddedSequence(a', b', p);
    }
  }

  lemma ComposeInjective(p: Mapping, m: Mapping, n: Mapping)
    requires InjectiveInto(p, |p|) && InjectiveInto(m, |p|) && InjectiveInto(n, |p|)
    requires Compose(p, m) == Compose(p, n)
    ensures m == n
  {
    assert |m| == |Compose(p, m)| == |n|;
    forall i | 0 <= i < |m|
      ensures m[i] == n[i]
    {
      assert Compose(p, m)[i] == p[m[i]] && Compose(p, n)[i] == p[n[i]];
    }
  }

  /** Unordered comparison ignores the order of the candidate's rows, cut off or not. */
  lemma RowOrderIrrelevant(gold: seq<Row>, gw: nat, cand: seq<Row>, other: seq<Row>, w: nat)
    requires Rectangular(gold, gw) && Rectangular(cand, w) && Rectangular(other, w)
    requires multiset(cand) == multiset(other)
    ensures Equivalent(gold, gw, cand, w, false) <==> Equivalent(gold, gw, other, w, false)
    ensures MapsOf(gold, gw, cand, w) == MapsOf(gold, gw, other, w)
    ensures SearchFinds(gold, gw, cand, w, false) <==> SearchFinds(gold, gw, other, w, false)
  {
    forall m | |m| == gw && InjectiveInto(m, w)
      ensures Matches(gold, gw, cand, w, false, m) <==> Matches(gold, gw, other, w, false, m)
    {
      ProjectRearranged(cand, other, w, m);
    }
    forall k | 0 <= k < w
      ensures ColumnSignature(cand, k) == ColumnSignature(other, k)
    {
      ProjectRearranged(cand, other, w, [k]);
      var a, b := Project(cand, w, [k]), Project(other, w, [k]);
      EqualRowsEqualColumns(a, b, 0);
      assert Nth(a, 0) == Column(cand, k) && Nth(b, 0) == Column(other, k);
      SortDecides(Column(cand, k), Column(other, k));
    }
    assert Signatures(cand, w) == Signatures(other, w);
    SearchedVerdict(gold, gw, cand, w, false);
  }

  /** Two unordered comparisons of one gold result, with a candidate and with the same rows in another order, agree on
      whether a column map decides; and on the match, unless the fallback decides one of them. */
  method CompareReordered(gold: seq<Row>, cand: seq<Row>, other: seq<Row>, allowExtra: bool)
    returns (first: Comparison, second: Comparison)
    requires Rectangular(gold, Width(gold)) && Rectangular(cand, Width(cand)) && Rectangular(other, Width(other))
    requires multiset(cand) == multiset(other)
    ensures ByMapping(first) == ByMapping(second)
    ensures first.match_ != second.match_ ==> first.reason == WithinTolerance || second.reason == WithinTolerance
  {
    assert |cand| == |multiset(cand)| == |other|;
    if cand != [] {
      assert other[0] in multiset(cand);
    }
    RowOrderIrrelevant(gold, Width(gold), cand, other, Width(cand));
    first := CompareResults(gold, cand, false, allowExtra);
    second := CompareResults(gold, other, false, allowExtra);
  }

  lemma {:induction false} ProjectRearranged(a: seq<Row>, b: seq<Row>, w: nat, m: Mapping)
    requires Rectangular(a, w) && Rectangular(b, w) && InjectiveInto(m, w) && multiset(a) == multiset(b)
    ensures multiset(Project(a, w, m)) == multiset(Project(b, w, m))
    decreases |a|
  {
    assert |a| == |multiset(a)| == |multiset(b)| == |b|;
    if a != [] {
      assert a[0] in multiset(b);
      var k :| 0 <= k < |b| && b[k] == a[0];
      var a' := ProjectWithout(a, 0, w, m);
      var b' := ProjectWithout(b, k, w, m);
      assert multiset(a') == multiset(a) - multiset{a[0]} && multiset(b') == multiset(b) - multiset{a[0]};
      ProjectRearranged(a', b', w, m);
    }
  }

  lemma ProjectRemoved(s: seq<Row>, k: nat, w: nat, m: Mapping)
    requires Rectangular(s, w) && InjectiveInto(m, w) && k < |s|
    ensures Rectangular(s[..k] + s[k + 1..], w)
    ensures Project(s[..k] + s[k + 1..], w, m) == Project(s, w, m)[..k] + Project(s, w, m)[k + 1..]
  {
  }

  lemma ProjectWithout(s: seq<Row>, k: nat, w: nat, m: Mapping) returns (rest: seq<Row>)
    requires Rectangular(s, w) && InjectiveInto(m, w) && k < |s|
    ensures |rest| == |s| - 1 && Rectangular(rest, w)
    ensures multiset(s) == multiset(rest) + multiset{s[k]}
    ensures multiset(Project(s, w, m)) == multiset(Project(rest, w, m)) + multiset{ProjectRow(s[k], m)}
  {
    rest := s[..k] + s[k + 1..];
    RemoveAt(s, k);
    ProjectRemoved(s, k, w, m);
    RemoveAt(Project(s, w, m), k);
  }
}
