/** The immediate-propagation subgraph formed by compiled edges: paths,
    cycles and rankings, shared by cycle detection and topological sorting
    (src/graph/compiler.cpp). */
module Graphs {
  import opened Types

  /** The part of a compiled edge that ordering looks at. */
  datatype Edge = Edge(source: SignalId, target: SignalId, isDelay: bool)

  /** Some non-delay edge goes from `u` to `v`. */
  ghost predicate Step(edges: seq<Edge>, u: SignalId, v: SignalId) {
    exists i :: 0 <= i < |edges| && edges[i] == Edge(u, v, false)
  }

  /** A closed walk of at least one step along non-delay edges. */
  ghost predicate IsCycle(edges: seq<Edge>, p: seq<SignalId>) {
    && |p| >= 2
    && p[0] == p[|p| - 1]
    && forall i :: 0 <= i < |p| - 1 ==> Step(edges, p[i], p[i + 1])
  }

  ghost predicate HasCycle(edges: seq<Edge>) {
    exists p :: IsCycle(edges, p)
  }

  /** A rank that strictly drops along every non-delay edge; it exists exactly
      for acyclic subgraphs. */
  ghost predicate IsRanking(edges: seq<Edge>, rank: map<SignalId, nat>) {
    forall i :: 0 <= i < |edges| && !edges[i].isDelay ==>
      && edges[i].source in rank && edges[i].target in rank
      && rank[edges[i].target] < rank[edges[i].source]
  }

  /** Along a walk of non-delay edges the rank strictly drops. */
  lemma {:induction false} RankDropsAlongWalk(edges: seq<Edge>, rank: map<SignalId, nat>, p: seq<SignalId>)
    requires IsRanking(edges, rank)
    requires |p| >= 2
    requires forall i :: 0 <= i < |p| - 1 ==> Step(edges, p[i], p[i + 1])
    ensures p[0] in rank && p[|p| - 1] in rank && rank[p[|p| - 1]] < rank[p[0]]
    decreases |p|
  {
    assert Step(edges, p[0], p[1]);
    var i :| 0 <= i < |edges| && edges[i] == Edge(p[0], p[1], false);
    if |p| > 2 {
      RankDropsAlongWalk(edges, rank, p[1..]);
    }
  }

  /** A ranking rules out every cycle. */
  lemma RankingExcludesCycle(edges: seq<Edge>, rank: map<SignalId, nat>)
    requires IsRanking(edges, rank)
    ensures !HasCycle(edges)
  {
    if HasCycle(edges) {
      var p :| IsCycle(edges, p);
      RankDropsAlongWalk(edges, rank, p);
    }
  }

  // ---------------------------------------------------------------------------
  // Ordered-set helpers

  /** A least element of a non-empty set of naturals. */
  lemma {:induction false} LeastWitness(s: set<nat>) returns (m: nat)
    requires s != {}
    ensures m in s && forall x :: x in s ==> m <= x
    decreases |s|
  {
    var y :| y in s;
    if s == {y} {
      m := y;
    } else {
      var rest := LeastWitness(s - {y});
      m := if y < rest then y else rest;
      forall x | x in s ensures m <= x {
        if x != y {
          assert x in s - {y};
        }
      }
    }
  }

  lemma LeastExists(s: set<nat>)
    requires s != {}
    ensures exists m :: m in s && forall x :: x in s ==> m <= x
  {
    var m := LeastWitness(s);
  }

  /** The least element of a non-empty set. */
  ghost function Least(s: set<nat>): (m: nat)
    requires s != {}
    ensures m in s && forall x :: x in s ==> m <= x
  {
    LeastExists(s);
    var m :| m in s && forall x :: x in s ==> m <= x; m
  }

  /** `*s.begin()` of a `std::set`: the least element. */
  method MinOf(s: set<nat>) returns (m: nat)
    requires s != {}
    ensures m in s && forall x :: x in s ==> m <= x
    ensures m == Least(s)
  {
    var rest := s;
    m :| m in rest;
    rest := rest - {m};
    while rest != {}
      invariant rest <= s && m in s
      invariant forall x :: x in s && x !in rest ==> m <= x
      decreases |rest|
    {
      var y :| y in rest;
      if y < m {
        m := y;
      }
      rest := rest - {y};
    }
  }

  lemma SubsetCardinality<T>(a: set<T>, b: set<T>)
    requires a <= b
    ensures |a| <= |b|
    ensures |a| == |b| ==> a == b
  {
    assert b == a + (b - a);
  }

  lemma RemoveOneCardinality<T>(s: set<T>, x: T)
    requires x in s
    ensures |s - {x}| == |s| - 1
  {
    assert s == (s - {x}) + {x};
  }

  /** The indices 0 .. n-1 as a set. */
  function Range(n: nat): (s: set<nat>)
    ensures |s| == n
    ensures forall i: nat :: i in s <==> i < n
  {
    if n == 0 then {} else
      var s := Range(n - 1);
      assert n - 1 !in s;
      s + {n - 1}
  }

  predicate Distinct<T(==)>(s: seq<T>) {
    forall i, j :: 0 <= i < j < |s| ==> s[i] != s[j]
  }

  function Elements<T>(s: seq<T>): set<T> {
    set x | x in s
  }

  lemma {:induction false} DistinctCardinality<T>(s: seq<T>)
    requires Distinct(s)
    ensures |Elements(s)| == |s|
  {
    if s != [] {
      var init := s[..|s| - 1];
      DistinctCardinality(init);
      assert Elements(s) == Elements(init) + {s[|s| - 1]};
      assert s[|s| - 1] !in Elements(init);
    }
  }

  /** A sequence of n distinct indices below n lists every index below n. */
  lemma DistinctIndicesCoverRange(s: seq<nat>, n: nat)
    requires |s| == n && Distinct(s)
    requires forall i :: 0 <= i < |s| ==> s[i] < n
    ensures forall i :: 0 <= i < n ==> i in s
  {
    DistinctCardinality(s);
    assert Elements(s) <= Range(n);
    SubsetCardinality(Elements(s), Range(n));
    forall i | 0 <= i < n ensures i in s {
      assert i in Range(n);
      assert i in Elements(s);
    }
  }
}
