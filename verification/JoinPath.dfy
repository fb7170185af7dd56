/** The relationship graph and the bounded breadth-first join path (modules/retrieval_engine.py). */
module JoinPath {
  import opened Ordering

  /** A table name as its code points; the empty name stands for a missing one. */
  type Name = seq<int>
  type Graph = map<Name, set<Name>>

  function Neighbours(g: Graph, a: Name): set<Name> {
    if a in g then g[a] else {}
  }

  // ---------------------------------------------------------------- the graph

  predicate Related(pairs: seq<(Name, Name)>, a: Name, b: Name) {
    a != [] && b != [] && a != b && ((a, b) in pairs || (b, a) in pairs)
  }

  /** The graph has exactly the related pairs as edges, in both directions. */
  method RelationshipGraph(pairs: seq<(Name, Name)>) returns (g: Graph)
    ensures forall a, b :: b in Neighbours(g, a) <==> Related(pairs, a, b)
  {
    g := map[];
    for i := 0 to |pairs|
      invariant forall a, b :: b in Neighbours(g, a) <==> Related(pairs[..i], a, b)
    {
      var (a, b) := pairs[i];
      ghost var before := g;
      if a != [] && b != [] && a != b {
        g := g[a := Neighbours(g, a) + {b}];
        g := g[b := Neighbours(g, b) + {a}];
      }
      assert pairs[..i + 1] == pairs[..i] + [(a, b)];
      forall x, y
        ensures y in Neighbours(g, x) <==> Related(pairs[..i + 1], x, y)
      {
        assert y in Neighbours(before, x) <==> Related(pairs[..i], x, y);
      }
    }
    assert pairs[..|pairs|] == pairs;
  }

  // ---------------------------------------------------------------- sorted neighbours

  predicate IsLeast(m: Name, s: set<Name>) {
    m in s && forall x :: x in s ==> LexLeq(m, x)
  }

  lemma LeastExists(s: set<Name>)
    requires s != {}
    ensures exists m :: IsLeast(m, s)
  {
    var m :| m in s;
    LexTotal(m, m);
    if s == {m} {
      assert IsLeast(m, s);
    } else {
      LeastExists(s - {m});
      var r :| IsLeast(r, s - {m});
      LexTotal(m, r);
      if LexLeq(m, r) {
        forall x | x in s
          ensures LexLeq(m, x)
        {
          if x != m {
            LexTransitive(m, r, x);
          }
        }
        assert IsLeast(m, s);
      } else {
        assert IsLeast(r, s);
      }
    }
  }

  lemma LeastUnique(s: set<Name>, a: Name, b: Name)
    requires IsLeast(a, s) && IsLeast(b, s)
    ensures a == b
  {
    LexTotal(a, b);
  }

  function Least(s: set<Name>): (m: Name)
    requires s != {}
    ensures IsLeast(m, s)
  {
    LeastExists(s);
    assert forall a, b {:trigger IsLeast(a, s), IsLeast(b, s)} :: IsLeast(a, s) && IsLeast(b, s) ==> a == b by {
      forall a, b | IsLeast(a, s) && IsLeast(b, s)
        ensures a == b
      {
        LeastUnique(s, a, b);
      }
    }
    var m :| m in s && IsLeast(m, s);
    m
  }

  /** sorted(s) */
  function SortedNames(s: set<Name>): (r: seq<Name>)
    ensures forall x :: x in r <==> x in s
    ensures forall i, j :: 0 <= i < j < |r| ==> r[i] != r[j] && LexLeq(r[i], r[j])
  {
    if s == {} then []
    else
      var m := Least(s);
      var rest := SortedNames(s - {m});
      assert forall i :: 0 <= i < |rest| ==> rest[i] in rest;
      [m] + rest
  }

  // ---------------------------------------------------------------- walks, and the order the search finds them in

  predicate Walk(g: Graph, w: seq<Name>) {
    w != [] && forall i :: 0 <= i < |w| - 1 ==> w[i + 1] in Neighbours(g, w[i])
  }

  predicate WalkFromTo(g: Graph, w: seq<Name>, start: Name, goal: Name) {
    Walk(g, w) && w[0] == start && w[|w| - 1] == goal
  }

  function Last(p: seq<Name>): Name
    requires p != []
  {
    p[|p| - 1]
  }

  function Front(p: seq<Name>): seq<Name>
    requires p != []
  {
    p[..|p| - 1]
  }

  /** Fewer tables first; among walks through equally many, the first difference decides by name. */
  predicate WalkLeq(a: seq<Name>, b: seq<Name>) {
    || |a| < |b|
    || (|a| == |b| &&
        (a == [] || if Front(a) == Front(b) then LexLeq(Last(a), Last(b)) else WalkLeq(Front(a), Front(b))))
  }

  predicate Earlier(a: seq<Name>, b: seq<Name>) {
    WalkLeq(a, b) && a != b
  }

  /** Among walks through equally many tables the first difference decides, by name. */
  lemma {:induction false} WalkIsFirstDifference(a: seq<Name>, b: seq<Name>)
    requires |a| == |b|
    ensures WalkLeq(a, b) <==>
            a == b || exists k :: 0 <= k < |a| && a[..k] == b[..k] && a[k] != b[k] && LexLeq(a[k], b[k])
  {
    if a != [] {
      var (frontA, frontB, last) := (Front(a), Front(b), |a| - 1);
      WalkIsFirstDifference(frontA, frontB);
      LexTotal(Last(a), Last(b));
      assert a == frontA + [Last(a)] && b == frontB + [Last(b)];
      forall k | 0 <= k < last
        ensures frontA[..k] == a[..k] && frontB[..k] == b[..k] && frontA[k] == a[k] && frontB[k] == b[k]
      {
      }
      if frontA == frontB && Last(a) != Last(b) {
        assert a[..last] == b[..last];
      }
      if k :| 0 <= k < |a| && a[..k] == b[..k] && a[k] != b[k] && LexLeq(a[k], b[k]) {
        assert k < last ==> frontA[k] != frontB[k];
        assert k == last ==> frontA == frontB;
      }
      if k :| 0 <= k < last && frontA[..k] == frontB[..k] && frontA[k] != frontB[k] && LexLeq(frontA[k], frontB[k]) {
        assert a[..k] == b[..k];
      }
    }
  }

  lemma {:induction false} WalkReflexive(a: seq<Name>)
    ensures WalkLeq(a, a)
  {
    if a != [] {
      LexTotal(Last(a), Last(a));
    }
  }

  lemma {:induction false} WalkAntisymmetric(a: seq<Name>, b: seq<Name>)
    requires WalkLeq(a, b) && WalkLeq(b, a)
    ensures a == b
  {
    if a != [] {
      if Front(a) == Front(b) {
        LexTotal(Last(a), Last(b));
      } else {
        WalkAntisymmetric(Front(a), Front(b));
      }
      assert a == Front(a) + [Last(a)] && b == Front(b) + [Last(b)];
    }
  }

  lemma {:induction false} WalkTransitive(a: seq<Name>, b: seq<Name>, c: seq<Name>)
    requires WalkLeq(a, b) && WalkLeq(b, c)
    ensures WalkLeq(a, c)
  {
    if |a| == |b| == |c| && a != [] {
      if Front(a) == Front(b) && Front(b) == Front(c) {
        LexTransitive(Last(a), Last(b), Last(c));
      } else if Front(a) != Front(b) && Front(b) != Front(c) {
        WalkTransitive(Front(a), Front(b), Front(c));
        if Front(a) == Front(c) {
          WalkAntisymmetric(Front(a), Front(b));
        }
      }
    }
  }

  lemma EarlierTransitive(a: seq<Name>, b: seq<Name>, c: seq<Name>)
    requires (Earlier(a, b) && WalkLeq(b, c)) || (WalkLeq(a, b) && Earlier(b, c))
    ensures Earlier(a, c)
  {
    WalkTransitive(a, b, c);
    if a == c {
      WalkAntisymmetric(a, b);
    }
  }

  lemma WalkStep(a: seq<Name>, b: seq<Name>, x: Name, y: Name)
    ensures Earlier(a, b) && |a| == |b| ==> Earlier(a + [x], b + [y])
    ensures WalkLeq(a, b) ==> WalkLeq(a + [x], b + [x])
    ensures LexLeq(x, y) && x != y ==> Earlier(a + [x], a + [y])
  {
    assert Front(a + [x]) == a && Front(b + [y]) == b && Front(b + [x]) == b && Front(a + [y]) == a;
    LexTotal(x, x);
  }

  // ---------------------------------------------------------------- breadth-first search

  datatype Problem = Problem(g: Graph, start: Name, goal: Name, hops: nat)

  /** The queue of walks, the tables seen, those dealt with, and the walk recorded for each table seen. */
  datatype Progress = Progress(frontier: seq<seq<Name>>, seen: set<Name>, done: set<Name>, best: map<Name, seq<Name>>)

  ghost predicate Open(frontier: seq<seq<Name>>, v: Name) {
    exists k :: 0 <= k < |frontier| && frontier[k] != [] && Last(frontier[k]) == v
  }

  ghost predicate Recorded(p: Problem, s: Progress) {
    && s.best.Keys == s.seen && p.start in s.seen && s.best[p.start] == [p.start]
    && forall v :: v in s.seen ==> WalkFromTo(p.g, s.best[v], p.start, v)
  }

  /** The queue holds recorded walks. */
  ghost predicate QueueRecorded(p: Problem, s: Progress) {
    forall k :: 0 <= k < |s.frontier| ==>
      && s.frontier[k] != [] && Last(s.frontier[k]) in s.best && s.best[Last(s.frontier[k])] == s.frontier[k]
      && |s.frontier[k]| <= p.hops + 1
  }

  ghost predicate QueueSorted(frontier: seq<seq<Name>>) {
    forall k, l :: 0 <= k < l < |frontier| ==> Earlier(frontier[k], frontier[l])
  }

  /** A walk in the queue is as long as the walk at its head, or extends a walk found before it. */
  predicate Behind(head: seq<Name>, q: seq<Name>) {
    |q| == |head| || (|q| == |head| + 1 && Earlier(Front(q), head))
  }

  /** While `path` is extended by its neighbours in turn: as before, or `path` itself and one of those visited. */
  predicate BehindOrExtends(path: seq<Name>, q: seq<Name>, visited: seq<Name>) {
    || (|q| == |path| && Earlier(path, q))
    || (|q| == |path| + 1 && (Earlier(Front(q), path) || (Front(q) == path && Last(q) in visited)))
  }

  /** The walk recorded for each neighbour is no later than the one through `v`. */
  ghost predicate NeighboursRecorded(p: Problem, s: Progress, v: Name)
    requires v in s.best
  {
    forall n :: n in Neighbours(p.g, v) ==> n in s.best && WalkLeq(s.best[n], s.best[v] + [n])
  }

  /** Tables dealt with are not the goal, and their neighbours are recorded unless they are as deep as allowed. */
  ghost predicate DealtWith(p: Problem, s: Progress) {
    && s.done <= s.best.Keys && p.goal !in s.done
    && forall v :: v in s.done && |s.best[v]| <= p.hops ==> NeighboursRecorded(p, s, v)
  }

  ghost predicate DoneBefore(s: Progress, path: seq<Name>) {
    forall v :: v in s.done && v in s.best ==> Earlier(s.best[v], path)
  }

  ghost predicate Sound(p: Problem, s: Progress) {
    Recorded(p, s) && QueueRecorded(p, s) && QueueSorted(s.frontier) && DealtWith(p, s)
  }

  /** Between two tables: every table seen is dealt with or in the queue. */
  ghost predicate Between(p: Problem, s: Progress) {
    && Sound(p, s)
    && (s.frontier != [] ==> DoneBefore(s, s.frontier[0]))
    && (forall k :: 0 <= k < |s.frontier| ==> Behind(s.frontier[0], s.frontier[k]))
    && forall v :: v in s.seen ==> v in s.done || Open(s.frontier, v)
  }

  /** While the table that `path` leads to is expanded. */
  ghost predicate Expanding(p: Problem, s: Progress, path: seq<Name>, visited: seq<Name>) {
    && path != [] && Last(path) != p.goal && Last(path) in s.best && s.best[Last(path)] == path
    && Sound(p, s) && DoneBefore(s, path)
    && (forall k :: 0 <= k < |s.frontier| ==> BehindOrExtends(path, s.frontier[k], visited))
    && forall v :: v in s.seen ==> v in s.done || v == Last(path) || Open(s.frontier, v)
  }

  /** Past a table that is dealt with, the walk recorded is still no later. */
  lemma NextOnWalk(p: Problem, s: Progress, w: seq<Name>, i: nat)
    requires DealtWith(p, s) && Walk(p.g, w) && 0 < i < |w| && i <= p.hops
    requires w[i - 1] in s.done && WalkLeq(s.best[w[i - 1]], w[..i])
    ensures w[i] in s.best && WalkLeq(s.best[w[i]], w[..i + 1])
  {
    assert NeighboursRecorded(p, s, w[i - 1]);
    assert w[i - 1 + 1] in Neighbours(p.g, w[i - 1]);
    assert w[..i + 1] == w[..i] + [w[i]];
    WalkStep(s.best[w[i - 1]], w[..i], w[i], w[i]);
    WalkTransitive(s.best[w[i]], s.best[w[i - 1]] + [w[i]], w[..i + 1]);
  }

  ghost predicate MeetsQueue(s: Progress, w: seq<Name>, i: nat)
    requires i < |w|
  {
    exists j :: 0 <= j <= i && w[j] in s.best && Open(s.frontier, w[j]) && WalkLeq(s.best[w[j]], w[..j + 1])
  }

  /** Every walk from the start is dealt with table by table, or meets the queue no later than its own part. */
  lemma {:induction false} WalkMeetsQueue(p: Problem, s: Progress, w: seq<Name>, i: nat)
    requires Between(p, s) && Walk(p.g, w) && w[0] == p.start && i < |w| && i <= p.hops
    ensures (w[i] in s.done && WalkLeq(s.best[w[i]], w[..i + 1])) || MeetsQueue(s, w, i)
  {
    if i == 0 {
      assert w[..1] == [p.start];
      WalkReflexive([p.start]);
    } else {
      WalkMeetsQueue(p, s, w, i - 1);
      if !MeetsQueue(s, w, i - 1) {
        NextOnWalk(p, s, w, i);
      }
    }
  }

  lemma PrefixLeq(w: seq<Name>, j: nat)
    requires j <= |w|
    ensures WalkLeq(w[..j], w)
  {
    if j == |w| {
      assert w[..j] == w;
      WalkReflexive(w);
    }
  }

  lemma HeadIsLeast(frontier: seq<seq<Name>>, k: nat)
    requires QueueSorted(frontier) && k < |frontier|
    ensures WalkLeq(frontier[0], frontier[k])
  {
    WalkReflexive(frontier[0]);
    assert k > 0 ==> Earlier(frontier[0], frontier[k]);
  }

  /** If a walk meets the queue, the head comes no later than the walk. */
  lemma HeadBeforeMeeting(p: Problem, s: Progress, w: seq<Name>, i: nat)
    requires QueueRecorded(p, s) && QueueSorted(s.frontier) && i < |w| && MeetsQueue(s, w, i)
    ensures s.frontier != [] && WalkLeq(s.frontier[0], w)
  {
    var j :| 0 <= j <= i && w[j] in s.best && Open(s.frontier, w[j]) && WalkLeq(s.best[w[j]], w[..j + 1]);
    var k :| 0 <= k < |s.frontier| && s.frontier[k] != [] && Last(s.frontier[k]) == w[j];
    HeadIsLeast(s.frontier, k);
    PrefixLeq(w, j + 1);
    WalkTransitive(s.frontier[0], s.frontier[k], w[..j + 1]);
    WalkTransitive(s.frontier[0], w[..j + 1], w);
  }

  /** No walk to the goal within the hops comes before the head of the queue; with an empty queue there is none. */
  lemma HeadComesFirst(p: Problem, s: Progress, w: seq<Name>)
    requires Between(p, s) && WalkFromTo(p.g, w, p.start, p.goal) && |w| <= p.hops + 1
    ensures s.frontier != [] && WalkLeq(s.frontier[0], w)
  {
    WalkMeetsQueue(p, s, w, |w| - 1);
    HeadBeforeMeeting(p, s, w, |w| - 1);
  }

  lemma OpenRest(frontier: seq<seq<Name>>, v: Name)
    requires Open(frontier, v)
    ensures (frontier[0] != [] && v == Last(frontier[0])) || Open(frontier[1..], v)
  {
    var k :| 0 <= k < |frontier| && frontier[k] != [] && Last(frontier[k]) == v;
    assert k > 0 ==> frontier[1..][k - 1] == frontier[k];
  }

  lemma DequeueKeepsSound(p: Problem, s: Progress)
    requires Sound(p, s) && s.frontier != []
    ensures Sound(p, s.(frontier := s.frontier[1..]))
  {
    var s' := s.(frontier := s.frontier[1..]);
    assert forall k :: 0 <= k < |s'.frontier| ==> s'.frontier[k] == s.frontier[k + 1];
    forall v | v in s.done && |s.best[v]| <= p.hops
      ensures NeighboursRecorded(p, s', v)
    {
      assert NeighboursRecorded(p, s, v);
    }
  }

  lemma Dequeue(p: Problem, s: Progress)
    requires Between(p, s) && s.frontier != [] && Last(s.frontier[0]) != p.goal
    ensures Expanding(p, s.(frontier := s.frontier[1..]), s.frontier[0], [])
  {
    var path, rest := s.frontier[0], s.frontier[1..];
    DequeueKeepsSound(p, s);
    forall v | v in s.seen
      ensures v in s.done || v == Last(path) || Open(rest, v)
    {
      if v !in s.done {
        OpenRest(s.frontier, v);
      }
    }
    forall k | 0 <= k < |rest|
      ensures BehindOrExtends(path, rest[k], [])
    {
      assert rest[k] == s.frontier[k + 1] && Behind(path, s.frontier[k + 1]) && Earlier(path, s.frontier[k + 1]);
    }
  }

  function Enqueued(s: Progress, path: seq<Name>, v: Name): Progress {
    Progress(s.frontier + [path + [v]], s.seen + {v}, s.done, s.best[v := path + [v]])
  }

  lemma EnqueueKeepsWalks(p: Problem, s: Progress, path: seq<Name>, v: Name)
    requires Recorded(p, s) && QueueRecorded(p, s) && path != [] && Last(path) in s.seen && s.best[Last(path)] == path
    requires |path| <= p.hops && v in Neighbours(p.g, Last(path)) && v !in s.seen
    ensures Recorded(p, Enqueued(s, path, v)) && QueueRecorded(p, Enqueued(s, path, v))
  {
    assert Last(path + [v]) == v;
    assert WalkFromTo(p.g, path + [v], p.start, v);
  }

  lemma EnqueueKeepsDealtWith(p: Problem, s: Progress, path: seq<Name>, v: Name)
    requires DealtWith(p, s) && s.best.Keys == s.seen && v !in s.seen
    ensures DealtWith(p, Enqueued(s, path, v))
  {
    forall x | x in s.done && |s.best[x]| <= p.hops
      ensures NeighboursRecorded(p, Enqueued(s, path, v), x)
    {
      assert NeighboursRecorded(p, s, x);
    }
  }

  lemma EnqueueKeepsOpen(frontier: seq<seq<Name>>, walk: seq<Name>)
    requires walk != []
    ensures Open(frontier + [walk], Last(walk))
    ensures forall x :: Open(frontier, x) ==> Open(frontier + [walk], x)
  {
    var longer := frontier + [walk];
    assert longer[|frontier|] == walk;
    forall x | Open(frontier, x)
      ensures Open(longer, x)
    {
      var k :| 0 <= k < |frontier| && frontier[k] != [] && Last(frontier[k]) == x;
      assert longer[k] == frontier[k];
    }
  }

  /** The names visited before `n` come before it. */
  predicate After(visited: seq<Name>, n: Name) {
    forall m :: m in visited ==> LexLeq(m, n) && m != n
  }

  lemma EnqueueKeepsOrder(path: seq<Name>, q: seq<Name>, visited: seq<Name>, n: Name)
    requires BehindOrExtends(path, q, visited) && After(visited, n)
    ensures Earlier(q, path + [n])
    ensures BehindOrExtends(path, q, visited + [n])
  {
    if |q| == |path| + 1 {
      assert q == Front(q) + [Last(q)];
      WalkStep(Front(q), path, Last(q), n);
    }
  }

  lemma Enqueue(p: Problem, s: Progress, path: seq<Name>, visited: seq<Name>, v: Name)
    requires Expanding(p, s, path, visited) && |path| <= p.hops && v in Neighbours(p.g, Last(path)) && v !in s.seen
    requires After(visited, v)
    ensures Expanding(p, Enqueued(s, path, v), path, visited + [v])
  {
    EnqueueKeepsWalks(p, s, path, v);
    EnqueueKeepsDealtWith(p, s, path, v);
    EnqueueKeepsOpen(s.frontier, path + [v]);
    forall k | 0 <= k < |s.frontier|
      ensures Earlier(s.frontier[k], path + [v]) && BehindOrExtends(path, s.frontier[k], visited + [v])
    {
      EnqueueKeepsOrder(path, s.frontier[k], visited, v);
    }
    assert Front(path + [v]) == path;
  }

  lemma Skip(p: Problem, s: Progress, path: seq<Name>, visited: seq<Name>, v: Name)
    requires Expanding(p, s, path, visited)
    ensures Expanding(p, s, path, visited + [v])
  {
    assert forall q :: BehindOrExtends(path, q, visited) ==> BehindOrExtends(path, q, visited + [v]);
  }

  /** The walk recorded for a table seen is no later than `path` extended to it. */
  lemma SeenIsEarlier(p: Problem, s: Progress, path: seq<Name>, visited: seq<Name>, v: Name)
    requires Expanding(p, s, path, visited) && v in s.seen
    ensures WalkLeq(s.best[v], path + [v])
  {
    if v !in s.done && v != Last(path) {
      var k :| 0 <= k < |s.frontier| && s.frontier[k] != [] && Last(s.frontier[k]) == v;
      var q := s.frontier[k];
      assert BehindOrExtends(path, q, visited) && s.best[v] == q;
      if |q| == |path| + 1 {
        assert q == Front(q) + [v];
        WalkStep(Front(q), path, v, v);
        WalkReflexive(path);
      }
    }
  }

  lemma AllSeen(p: Problem, s: Progress, path: seq<Name>, visited: seq<Name>)
    requires Expanding(p, s, path, visited) && Neighbours(p.g, Last(path)) <= s.seen
    ensures NeighboursRecorded(p, s, Last(path))
  {
    forall n | n in Neighbours(p.g, Last(path))
      ensures n in s.best && WalkLeq(s.best[n], s.best[Last(path)] + [n])
    {
      SeenIsEarlier(p, s, path, visited, n);
    }
  }

  lemma FinishKeepsSound(p: Problem, s: Progress, v: Name)
    requires Sound(p, s) && v in s.best && v != p.goal && (|s.best[v]| <= p.hops ==> NeighboursRecorded(p, s, v))
    ensures Sound(p, s.(done := s.done + {v}))
  {
    var s' := s.(done := s.done + {v});
    forall x | x in s'.done && |s.best[x]| <= p.hops
      ensures NeighboursRecorded(p, s', x)
    {
      assert NeighboursRecorded(p, s, x);
    }
  }

  lemma FinishKeepsQueue(path: seq<Name>, head: seq<Name>, q: seq<Name>, visited: seq<Name>)
    requires BehindOrExtends(path, head, visited) && BehindOrExtends(path, q, visited) && WalkLeq(head, q)
    ensures Behind(head, q) && Earlier(path, head)
  {
    if |q| == |head| + 1 {
      WalkReflexive(path);
      EarlierTransitive(Front(q), path, head);
    }
  }

  lemma FinishTable(p: Problem, s: Progress, path: seq<Name>, visited: seq<Name>)
    requires Expanding(p, s, path, visited) && (|path| <= p.hops ==> NeighboursRecorded(p, s, Last(path)))
    ensures Between(p, s.(done := s.done + {Last(path)}))
  {
    FinishKeepsSound(p, s, Last(path));
    if s.frontier != [] {
      var head := s.frontier[0];
      forall k | 0 <= k < |s.frontier|
        ensures Behind(head, s.frontier[k]) && Earlier(path, head)
      {
        WalkReflexive(head);
        FinishKeepsQueue(path, head, s.frontier[k], visited);
      }
      forall v | v in s.done
        ensures Earlier(s.best[v], head)
      {
        EarlierTransitive(s.best[v], path, head);
      }
    }
  }

  ghost function AllNames(g: Graph, start: Name): set<Name> {
    {start} + g.Keys + set a, n | a in g && n in g[a] :: n
  }

  function Visited(s: Progress, path: seq<Name>, v: Name): Progress {
    if v in s.seen then s else Enqueued(s, path, v)
  }

  /** The neighbours not seen yet are queued in the order given. */
  function VisitedAll(s: Progress, path: seq<Name>, names: seq<Name>): Progress {
    if names == [] then s else Visited(VisitedAll(s, path, Front(names)), path, Last(names))
  }

  predicate InOrder(names: seq<Name>) {
    forall i, j :: 0 <= i < j < |names| ==> names[i] != names[j] && LexLeq(names[i], names[j])
  }

  lemma VisitOne(p: Problem, s: Progress, path: seq<Name>, names: seq<Name>)
    requires names != [] && InOrder(names) && Expanding(p, s, path, Front(names)) && |path| <= p.hops
    requires Last(names) in Neighbours(p.g, Last(path))
    ensures Expanding(p, Visited(s, path, Last(names)), path, names)
  {
    assert names == Front(names) + [Last(names)];
    if Last(names) in s.seen {
      Skip(p, s, path, Front(names), Last(names));
    } else {
      Enqueue(p, s, path, Front(names), Last(names));
    }
  }

  lemma {:induction false} VisitAll(p: Problem, s: Progress, path: seq<Name>, names: seq<Name>)
    requires InOrder(names) && Expanding(p, s, path, []) && |path| <= p.hops
    requires forall n :: n in names ==> n in Neighbours(p.g, Last(path))
    ensures Expanding(p, VisitedAll(s, path, names), path, names)
  {
    if names != [] {
      VisitAll(p, s, path, Front(names));
      VisitOne(p, VisitedAll(s, path, Front(names)), path, names);
    }
  }

  lemma {:induction false} VisitedSeen(s: Progress, path: seq<Name>, names: seq<Name>)
    ensures VisitedAll(s, path, names).seen == s.seen + set n | n in names
    ensures VisitedAll(s, path, names).done == s.done
    ensures VisitedAll(s, path, names).seen == s.seen ==> VisitedAll(s, path, names).frontier == s.frontier
  {
    if names != [] {
      VisitedSeen(s, path, Front(names));
      assert names == Front(names) + [Last(names)];
    }
  }

  /** One turn of the search on a table that is not the goal. */
  function Advance(p: Problem, s: Progress): Progress
    requires s.frontier != [] && s.frontier[0] != []
  {
    var path, rest := s.frontier[0], s.(frontier := s.frontier[1..]);
    var s' := if |path| <= p.hops then VisitedAll(rest, path, SortedNames(Neighbours(p.g, Last(path)))) else rest;
    s'.(done := s'.done + {Last(path)})
  }

  lemma AdvanceKeepsBetween(p: Problem, s: Progress)
    requires Between(p, s) && s.frontier != [] && Last(s.frontier[0]) != p.goal
    ensures Between(p, Advance(p, s))
  {
    var path, rest := s.frontier[0], s.(frontier := s.frontier[1..]);
    var names := SortedNames(Neighbours(p.g, Last(path)));
    Dequeue(p, s);
    if |path| <= p.hops {
      VisitAll(p, rest, path, names);
      VisitedSeen(rest, path, names);
      AllSeen(p, VisitedAll(rest, path, names), path, names);
      FinishTable(p, VisitedAll(rest, path, names), path, names);
    } else {
      FinishTable(p, rest, path, []);
    }
  }

  /** Queue every neighbour not seen yet, in sorted order. */
  method Expand(ghost s: Progress, g: Graph, path: seq<Name>, frontier0: seq<seq<Name>>, seen0: set<Name>)
    returns (frontier: seq<seq<Name>>, seen: set<Name>)
    requires path != [] && s.frontier == frontier0 && s.seen == seen0
    ensures var s' := VisitedAll(s, path, SortedNames(Neighbours(g, Last(path))));
            frontier == s'.frontier && seen == s'.seen
  {
    frontier, seen := frontier0, seen0;
    var names := SortedNames(Neighbours(g, path[|path| - 1]));
    for k := 0 to |names|
      invariant var s' := VisitedAll(s, path, names[..k]); frontier == s'.frontier && seen == s'.seen
    {
      assert Front(names[..k + 1]) == names[..k];
      if names[k] !in seen {
        seen := seen + {names[k]};
        frontier := frontier + [path + [names[k]]];
      }
    }
    assert names[..|names|] == names;
  }

  function Hops(maxHops: int): nat {
    if maxHops < 0 then 0 else maxHops
  }

  function Starting(start: Name): Progress {
    Progress([[start]], {start}, {}, map[start := [start]])
  }

  lemma StartingBetween(p: Problem)
    ensures Between(p, Starting(p.start))
  {
    assert Last([p.start]) == p.start;
    assert Open([[p.start]], p.start) by { assert [[p.start]][0] == [p.start]; }
  }

  /** The first walk to the goal in the order above, so one with the fewest edges, within the hops allowed. */
  ghost predicate IsFirst(p: Problem, path: seq<Name>) {
    && WalkFromTo(p.g, path, p.start, p.goal) && |path| - 1 <= p.hops
    && forall w :: WalkFromTo(p.g, w, p.start, p.goal) ==> WalkLeq(path, w)
  }

  ghost predicate OutOfReach(p: Problem) {
    forall w :: WalkFromTo(p.g, w, p.start, p.goal) ==> |w| - 1 > p.hops
  }

  lemma HeadIsFirst(p: Problem, s: Progress)
    requires Between(p, s) && s.frontier != [] && Last(s.frontier[0]) == p.goal
    ensures IsFirst(p, s.frontier[0]) && !OutOfReach(p)
  {
    var path := s.frontier[0];
    assert WalkFromTo(p.g, path, p.start, p.goal);
    forall w | WalkFromTo(p.g, w, p.start, p.goal)
      ensures WalkLeq(path, w)
    {
      if |w| <= p.hops + 1 {
        HeadComesFirst(p, s, w);
      }
    }
  }

  lemma EmptyQueueIsOutOfReach(p: Problem, s: Progress)
    requires Between(p, s) && s.frontier == []
    ensures OutOfReach(p)
  {
    forall w | WalkFromTo(p.g, w, p.start, p.goal)
      ensures |w| - 1 > p.hops
    {
      if |w| <= p.hops + 1 {
        HeadComesFirst(p, s, w);
      }
    }
  }

  predicate Searching(p: Problem, s: Progress) {
    s.frontier != [] && s.frontier[0] != [] && Last(s.frontier[0]) != p.goal
  }

  /** The search after n turns. */
  ghost function Turns(p: Problem, n: nat): Progress {
    if n == 0 then Starting(p.start)
    else
      var s := Turns(p, n - 1);
      if Searching(p, s) then Advance(p, s) else s
  }

  lemma {:induction false} TurnsBetween(p: Problem, n: nat)
    ensures Between(p, Turns(p, n)) && Turns(p, n).seen <= AllNames(p.g, p.start)
  {
    StartingBetween(p);
    if n > 0 {
      TurnsBetween(p, n - 1);
      if Searching(p, Turns(p, n - 1)) {
        AdvanceKeepsBetween(p, Turns(p, n - 1));
        AdvanceProgresses(p, Turns(p, n - 1));
      }
    }
  }

  /** A turn shortens the queue or sees a table it had not seen. */
  lemma AdvanceProgresses(p: Problem, s: Progress)
    requires s.frontier != [] && s.frontier[0] != [] && s.seen <= AllNames(p.g, p.start)
    ensures s.seen <= Advance(p, s).seen <= AllNames(p.g, p.start)
    ensures Advance(p, s).seen == s.seen ==> |Advance(p, s).frontier| < |s.frontier|
  {
    var path := s.frontier[0];
    VisitedSeen(s.(frontier := s.frontier[1..]), path, SortedNames(Neighbours(p.g, Last(path))));
  }

  /** What the search may do next, after n turns. */
  lemma NextTurn(p: Problem, n: nat)
    ensures var s := Turns(p, n);
            if s.frontier == [] then OutOfReach(p)
            else if s.frontier[0] != [] && Last(s.frontier[0]) == p.goal then
              IsFirst(p, s.frontier[0]) && !OutOfReach(p)
            else
              && Searching(p, s) && Turns(p, n + 1) == Advance(p, s)
              && s.seen <= Turns(p, n + 1).seen <= AllNames(p.g, p.start)
              && (Turns(p, n + 1).seen == s.seen ==> |Turns(p, n + 1).frontier| < |s.frontier|)
  {
    var s := Turns(p, n);
    TurnsBetween(p, n);
    if s.frontier == [] {
      EmptyQueueIsOutOfReach(p, s);
    } else if Last(s.frontier[0]) == p.goal {
      HeadIsFirst(p, s);
    } else {
      AdvanceProgresses(p, s);
    }
  }

  /** The alphabetically first among the walks from start to goal with the fewest edges; nothing exactly when every
      walk has more than maxHops edges. */
  method FindPath(g: Graph, start: Name, goal: Name, maxHops: int) returns (path: seq<Name>)
    ensures path != [] ==> IsFirst(Problem(g, start, goal, Hops(maxHops)), path)
    ensures path == [] <==> OutOfReach(Problem(g, start, goal, Hops(maxHops)))
    ensures path != [] ==> WalkFromTo(g, path, start, goal) && (|path| == 1 || |path| - 1 <= maxHops)
    ensures path != [] ==> forall w :: WalkFromTo(g, w, start, goal) ==> |path| <= |w|
    ensures path == [] ==> forall w :: WalkFromTo(g, w, start, goal) ==> |w| > 1 && |w| - 1 > maxHops
  {
    ghost var p, n := Problem(g, start, goal, Hops(maxHops)), 0;
    var frontier, seen := [[start]], {start};
    while frontier != []
      invariant Turns(p, n).frontier == frontier && Turns(p, n).seen == seen
      decreases AllNames(g, start) - seen, |frontier|
    {
      NextTurn(p, n);
      path := frontier[0];
      if path[|path| - 1] == goal {
        return path;
      }
      ghost var rest := Turns(p, n).(frontier := frontier[1..]);
      frontier := frontier[1..];
      if |path| <= maxHops {
        frontier, seen := Expand(rest, g, path, frontier, seen);
      }
      n := n + 1;
    }
    NextTurn(p, n);
    return [];
  }

  // ---------------------------------------------------------------- direction does not matter

  predicate Symmetric(g: Graph) {
    forall a, b :: a in g && b in g[a] ==> a in Neighbours(g, b)
  }

  function Reversed(w: seq<Name>): seq<Name> {
    seq(|w|, i requires 0 <= i < |w| => w[|w| - 1 - i])
  }

  lemma ReversedWalk(g: Graph, w: seq<Name>, start: Name, goal: Name)
    requires Symmetric(g) && WalkFromTo(g, w, start, goal)
    ensures WalkFromTo(g, Reversed(w), goal, start)
  {
    forall i | 0 <= i < |w| - 1
      ensures Reversed(w)[i + 1] in Neighbours(g, Reversed(w)[i])
    {
      var k := |w| - 2 - i;
      assert w[k + 1] in Neighbours(g, w[k]);
    }
  }

  /** On the graph the program builds, connecting a and b is as far, and as possible, as connecting b and a. */
  lemma ReachIsSymmetric(g: Graph, a: Name, b: Name, hops: nat, there: seq<Name>, back: seq<Name>)
    requires Symmetric(g)
    ensures OutOfReach(Problem(g, a, b, hops)) <==> OutOfReach(Problem(g, b, a, hops))
    ensures IsFirst(Problem(g, a, b, hops), there) && IsFirst(Problem(g, b, a, hops), back) ==> |there| == |back|
  {
    forall w, x, y | WalkFromTo(g, w, x, y)
      ensures WalkFromTo(g, Reversed(w), y, x) && |Reversed(w)| == |w|
    {
      ReversedWalk(g, w, x, y);
    }
    if IsFirst(Problem(g, a, b, hops), there) && IsFirst(Problem(g, b, a, hops), back) {
      assert WalkLeq(there, Reversed(back)) && WalkLeq(back, Reversed(there));
    }
  }
}
