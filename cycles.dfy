/** The state of the depth-first search and the invariant it keeps. */
module DepthFirst {
  import opened Types
  import opened Graphs

  type Adjacency = map<SignalId, seq<SignalId>>

  /** `u` is the source or target of some non-delay edge. */
  ghost predicate Endpoint(edges: seq<Edge>, u: SignalId) {
    exists i :: 0 <= i < |edges| && !edges[i].isDelay && (edges[i].source == u || edges[i].target == u)
  }

  /** The adjacency lists of the non-delay subgraph: every endpoint is a key
      and each list holds exactly the targets of its key's non-delay edges. */
  ghost predicate IsAdjacencyOf(adj: Adjacency, edges: seq<Edge>) {
    && (forall u, v :: (u in adj && v in adj[u]) <==> Step(edges, u, v))
    && (forall u :: u in adj <==> Endpoint(edges, u))
  }

  /** Every listed neighbour has a list of its own. */
  ghost predicate Closed(adj: Adjacency) {
    forall u, j :: u in adj && 0 <= j < |adj[u]| ==> adj[u][j] in adj
  }

  lemma StepSnoc(edges: seq<Edge>, e: Edge, u: SignalId, v: SignalId)
    ensures Step(edges + [e], u, v) <==> Step(edges, u, v) || e == Edge(u, v, false)
  {
    var all := edges + [e];
    if Step(all, u, v) && !Step(edges, u, v) {
      var i :| 0 <= i < |all| && all[i] == Edge(u, v, false);
      assert i == |edges|;
    }
    if Step(edges, u, v) {
      var i :| 0 <= i < |edges| && edges[i] == Edge(u, v, false);
      assert all[i] == edges[i];
    }
    if e == Edge(u, v, false) {
      assert all[|edges|] == e;
    }
  }

  lemma EndpointSnoc(edges: seq<Edge>, e: Edge, u: SignalId)
    ensures Endpoint(edges + [e], u) <==> Endpoint(edges, u) || (!e.isDelay && (e.source == u || e.target == u))
  {
    var all := edges + [e];
    if Endpoint(all, u) && !Endpoint(edges, u) {
      var i :| 0 <= i < |all| && !all[i].isDelay && (all[i].source == u || all[i].target == u);
      assert i == |edges|;
    }
    if Endpoint(edges, u) {
      var i :| 0 <= i < |edges| && !edges[i].isDelay && (edges[i].source == u || edges[i].target == u);
      assert all[i] == edges[i];
    }
    if !e.isDelay && (e.source == u || e.target == u) {
      assert all[|edges|] == e;
    }
  }

  /** Colours 1 ("visiting") and 2 ("done"); an absent key is colour 0. */
  datatype Color = Visiting | Done

  ghost predicate IsAdjCycle(adj: Adjacency, p: seq<SignalId>) {
    && |p| >= 2
    && p[0] == p[|p| - 1]
    && forall i :: 0 <= i < |p| - 1 ==> p[i] in adj && p[i + 1] in adj[p[i]]
  }

  ghost predicate IsAdjPath(adj: Adjacency, p: seq<SignalId>) {
    forall i :: 0 <= i < |p| - 1 ==> p[i] in adj && p[i + 1] in adj[p[i]]
  }

  /** The colours the search must have given: visiting for the nodes on the
      stack, done for the finished ones, none for the rest. */
  ghost function Colors(stack: seq<SignalId>, finish: map<SignalId, nat>): map<SignalId, Color> {
    map v | v in Elements(stack) + finish.Keys :: if v in stack then Visiting else Done
  }

  /** The search invariant while no cycle is found: the colours follow the
      stack and the finish times, the stack is a path of unfinished nodes, and
      every edge out of a finished node leads to a node finished earlier. */
  ghost predicate Searching(adj: Adjacency, state: map<SignalId, Color>, stack: seq<SignalId>,
                            finish: map<SignalId, nat>, clock: nat) {
    && state == Colors(stack, finish)
    && (forall i :: 0 <= i < |stack| ==> stack[i] !in finish)
    && IsAdjPath(adj, stack)
    && (forall v :: v in finish ==> finish[v] < clock)
    && (forall u, j :: u in finish && u in adj && 0 <= j < |adj[u]| ==>
          adj[u][j] in finish && finish[adj[u][j]] < finish[u])
  }

  lemma ColorsPush(stack: seq<SignalId>, finish: map<SignalId, nat>, node: SignalId)
    requires node !in finish
    ensures Colors(stack, finish)[node := Visiting] == Colors(stack + [node], finish)
  {
    assert Elements(stack + [node]) == Elements(stack) + {node};
  }

  lemma ColorsPop(stack: seq<SignalId>, finish: map<SignalId, nat>, node: SignalId, t: nat)
    requires node !in stack
    ensures Colors(stack + [node], finish)[node := Done] == Colors(stack, finish[node := t])
  {
    assert Elements(stack + [node]) == Elements(stack) + {node};
  }

  /** Entering a node: it turns visiting and goes on the stack. */
  lemma EnterKeepsSearching(adj: Adjacency, state: map<SignalId, Color>, stack: seq<SignalId>,
                            finish: map<SignalId, nat>, clock: nat, node: SignalId)
    requires Searching(adj, state, stack, finish, clock)
    requires node !in state
    requires stack == [] || (stack[|stack| - 1] in adj && node in adj[stack[|stack| - 1]])
    ensures Searching(adj, state[node := Visiting], stack + [node], finish, clock)
  {
    var stack' := stack + [node];
    ColorsPush(stack, finish, node);
    assert forall i :: 0 <= i < |stack| ==> stack'[i] == stack[i];
    assert IsAdjPath(adj, stack');
  }

  /** Leaving a node whose neighbours are all finished: it turns done, leaves
      the stack and takes the current clock as its finish time. */
  lemma LeaveKeepsSearching(adj: Adjacency, state: map<SignalId, Color>, stack: seq<SignalId>,
                            finish: map<SignalId, nat>, clock: nat, node: SignalId)
    requires Searching(adj, state, stack, finish, clock)
    requires stack != [] && stack[|stack| - 1] == node && node !in stack[..|stack| - 1]
    requires node in adj && forall j :: 0 <= j < |adj[node]| ==> adj[node][j] in finish
    ensures Searching(adj, state[node := Done], stack[..|stack| - 1], finish[node := clock], clock + 1)
  {
    var stack' := stack[..|stack| - 1];
    assert stack == stack' + [node];
    ColorsPop(stack', finish, node, clock);
    assert forall i :: 0 <= i < |stack'| ==> stack'[i] == stack[i];
    assert IsAdjPath(adj, stack');
  }

  /** A back edge from the top of the stack to a visiting node closes a cycle. */
  lemma BackEdgeCloses(adj: Adjacency, stack: seq<SignalId>, neighbor: SignalId, k: nat)
    requires IsAdjPath(adj, stack)
    requires k < |stack| && stack[k] == neighbor
    requires stack[|stack| - 1] in adj && neighbor in adj[stack[|stack| - 1]]
    ensures IsAdjCycle(adj, stack[k..] + [neighbor])
  {
    var p := stack[k..] + [neighbor];
    forall i | 0 <= i < |p| - 1 ensures p[i] in adj && p[i + 1] in adj[p[i]] {
      if i < |p| - 2 {
        assert p[i] == stack[k + i] && p[i + 1] == stack[k + i + 1];
      }
    }
  }

  /** The locals the recursive `dfs` lambda captures by reference: the colour
      map, the stack, the reported path and the found flag. */
  datatype Search = Search(state: map<SignalId, Color>, stack: seq<SignalId>, cyclePath: seq<SignalId>, foundCycle: bool)

  const INITIAL_SEARCH := Search(map[], [], [], false)

  /** The search invariant; `finish` and `clock` are ghost bookkeeping that
      record the order in which nodes were completed. Once a cycle is found
      the reported path is a cycle of the adjacency lists. */
  ghost predicate SearchInv(adj: Adjacency, s: Search, finish: map<SignalId, nat>, clock: nat) {
    && s.state.Keys <= adj.Keys
    && (s.foundCycle ==> IsAdjCycle(adj, s.cyclePath))
    && (!s.foundCycle ==> Searching(adj, s.state, s.stack, finish, clock))
  }
}

/** `GraphCompiler::detect_cycles`: a depth-first search over the non-delay
    edges that reports the first back edge it meets (src/graph/compiler.cpp). */
module CycleDetection {
  import opened Types
  import opened GraphSpecs
  import opened Graphs
  import opened DepthFirst

  /** Builds `graph`: each non-delay edge appends its target to its source's
      list, and its target gets an (empty) list if it has none. */
  method BuildAdjacency(edges: seq<Edge>) returns (adj: Adjacency)
    ensures IsAdjacencyOf(adj, edges)
    ensures Closed(adj)
  {
    adj := map[];
    var k := 0;
    while k < |edges|
      invariant 0 <= k <= |edges|
      invariant IsAdjacencyOf(adj, edges[..k])
    {
      var e := edges[k];
      var before := adj;
      if !e.isDelay {
        var out := if e.source in adj then adj[e.source] else [];
        adj := adj[e.source := out + [e.target]];
        if e.target !in adj {
          adj := adj[e.target := []];
        }
      }
      assert edges[..k + 1] == edges[..k] + [e];
      forall u, v ensures (u in adj && v in adj[u]) <==> Step(edges[..k + 1], u, v) {
        StepSnoc(edges[..k], e, u, v);
      }
      forall u ensures u in adj <==> Endpoint(edges[..k + 1], u) {
        EndpointSnoc(edges[..k], e, u);
      }
      k := k + 1;
    }
    assert edges[..k] == edges;
    forall u, j | u in adj && 0 <= j < |adj[u]| ensures adj[u][j] in adj {
      assert adj[u][j] in adj[u];
      var i :| 0 <= i < |edges| && edges[i] == Edge(u, adj[u][j], false);
    }
  }

  /** The first position of `x` in `s`, as `std::find`. */
  method IndexOf(s: seq<SignalId>, x: SignalId) returns (k: nat)
    requires x in s
    ensures k < |s| && s[k] == x
    ensures forall j :: 0 <= j < k ==> s[j] != x
  {
    k := 0;
    while s[k] != x
      invariant k < |s| && x in s[k..]
      invariant forall j :: 0 <= j < k ==> s[j] != x
      decreases |s| - k
    {
      k := k + 1;
    }
  }

  /** The recursive `dfs` lambda: mark the node visiting, push it, explore
      its neighbours, then (without a cycle) pop it and mark it done. */
  method Dfs(adj: Adjacency, node: SignalId, s: Search, ghost finish: map<SignalId, nat>, ghost clock: nat)
      returns (r: Search, ghost finish': map<SignalId, nat>, ghost clock': nat)
    requires Closed(adj) && SearchInv(adj, s, finish, clock) && !s.foundCycle
    requires node in adj && node !in s.state
    requires s.stack == [] || (s.stack[|s.stack| - 1] in adj && node in adj[s.stack[|s.stack| - 1]])
    ensures SearchInv(adj, r, finish', clock')
    ensures s.state.Keys <= r.state.Keys
    ensures !r.foundCycle ==> r.stack == s.stack && node in finish' && finish.Keys <= finish'.Keys
    decreases |adj| - |s.state|, 2
  {
    EnterKeepsSearching(adj, s.state, s.stack, finish, clock, node);
    SubsetCardinality(s.state.Keys, adj.Keys);
    var entered := s.(state := s.state[node := Visiting], stack := s.stack + [node]);
    r, finish', clock' := ExploreNeighbors(adj, node, entered, finish, clock);
    if r.foundCycle {
      return;
    }
    assert r.stack[..|r.stack| - 1] == s.stack;
    LeaveKeepsSearching(adj, r.state, r.stack, finish', clock', node);
    r := r.(stack := r.stack[..|r.stack| - 1], state := r.state[node := Done]);
    finish', clock' := finish'[node := clock'], clock' + 1;
  }

  /** The search only adds colours, and only to nodes of the graph. */
  lemma StatesGrow(adj: Adjacency, before: map<SignalId, Color>, after: map<SignalId, Color>)
    requires before.Keys <= after.Keys <= adj.Keys
    ensures |before| <= |after| <= |adj|
  {
    SubsetCardinality(before.Keys, after.Keys);
    SubsetCardinality(after.Keys, adj.Keys);
  }

  /** The loop of `dfs` over the neighbours of the node on top of the stack. */
  method ExploreNeighbors(adj: Adjacency, node: SignalId, s: Search, ghost finish: map<SignalId, nat>, ghost clock: nat)
      returns (r: Search, ghost finish': map<SignalId, nat>, ghost clock': nat)
    requires Closed(adj) && SearchInv(adj, s, finish, clock) && !s.foundCycle
    requires node in adj && s.stack != [] && s.stack[|s.stack| - 1] == node
    ensures SearchInv(adj, r, finish', clock')
    ensures s.state.Keys <= r.state.Keys
    ensures !r.foundCycle ==> r.stack == s.stack && finish.Keys <= finish'.Keys
    ensures !r.foundCycle ==> forall j :: 0 <= j < |adj[node]| ==> adj[node][j] in finish'
    decreases |adj| - |s.state| + 1, 1
  {
    r, finish', clock' := s, finish, clock;
    var neighbors := adj[node];
    var i := 0;
    while i < |neighbors|
      invariant 0 <= i <= |neighbors|
      invariant SearchInv(adj, r, finish', clock') && !r.foundCycle
      invariant s.state.Keys <= r.state.Keys
      invariant r.stack == s.stack
      invariant forall j :: 0 <= j < i ==> neighbors[j] in finish'
      invariant finish.Keys <= finish'.Keys
    {
      StatesGrow(adj, s.state, r.state);
      r, finish', clock' := VisitNeighbor(adj, node, neighbors[i], r, finish', clock');
      if r.foundCycle {
        return;
      }
      i := i + 1;
    }
  }

  /** One turn of that loop: an unvisited neighbour is searched, a visiting
      one closes a cycle, a done one is skipped. */
  method VisitNeighbor(adj: Adjacency, node: SignalId, neighbor: SignalId, s: Search,
                       ghost finish: map<SignalId, nat>, ghost clock: nat)
      returns (r: Search, ghost finish': map<SignalId, nat>, ghost clock': nat)
    requires Closed(adj) && SearchInv(adj, s, finish, clock) && !s.foundCycle
    requires node in adj && neighbor in adj[node] && s.stack != [] && s.stack[|s.stack| - 1] == node
    ensures SearchInv(adj, r, finish', clock')
    ensures s.state.Keys <= r.state.Keys
    ensures !r.foundCycle ==> r.stack == s.stack && finish.Keys <= finish'.Keys && neighbor in finish'
    decreases |adj| - |s.state| + 1, 0
  {
    if neighbor !in s.state {
      SubsetCardinality(s.state.Keys, adj.Keys);
      r, finish', clock' := Dfs(adj, neighbor, s, finish, clock);
    } else if s.state[neighbor] == Visiting {
      var k := IndexOf(s.stack, neighbor);
      BackEdgeCloses(adj, s.stack, neighbor, k);
      r, finish', clock' := s.(cyclePath := s.stack[k..] + [neighbor], foundCycle := true), finish, clock;
    } else {
      r, finish', clock' := s, finish, clock;
    }
  }

  /** A cycle in the adjacency lists is a cycle of non-delay edges. */
  lemma AdjCycleIsCycle(adj: Adjacency, edges: seq<Edge>, p: seq<SignalId>)
    requires IsAdjacencyOf(adj, edges) && IsAdjCycle(adj, p)
    ensures IsCycle(edges, p)
  {
    forall i | 0 <= i < |p| - 1 ensures Step(edges, p[i], p[i + 1]) {
      assert p[i] in adj && p[i + 1] in adj[p[i]];
    }
  }

  /** Once every node is finished without a cycle, the finish times rank the
      non-delay subgraph. */
  lemma FinishTimesRank(adj: Adjacency, edges: seq<Edge>, state: map<SignalId, Color>,
                        finish: map<SignalId, nat>, clock: nat)
    requires IsAdjacencyOf(adj, edges) && Searching(adj, state, [], finish, clock)
    requires forall v :: v in adj ==> v in finish
    ensures IsRanking(edges, finish)
  {
    forall i | 0 <= i < |edges| && !edges[i].isDelay
      ensures edges[i].source in finish && edges[i].target in finish
      ensures finish[edges[i].target] < finish[edges[i].source]
    {
      assert Step(edges, edges[i].source, edges[i].target);
    }
  }

  /** Runs the search from every node in ascending id order and fails with the
      reported path when a back edge is found. On success the finish times
      rank the subgraph, so it has no cycle. */
  method DetectCycles(edges: seq<Edge>) returns (outcome: Outcome<CompileError>, ghost rank: map<SignalId, nat>)
    ensures outcome.Fail? ==> outcome.error.CycleDetected? && IsCycle(edges, outcome.error.cycle)
    ensures outcome.Pass? ==> IsRanking(edges, rank)
    ensures outcome.Pass? <==> !HasCycle(edges)
  {
    var adj := BuildAdjacency(edges);
    var search := INITIAL_SEARCH;
    ghost var finish: map<SignalId, nat> := map[];
    ghost var clock: nat := 0;
    var remaining := adj.Keys;
    while remaining != {}
      invariant SearchInv(adj, search, finish, clock) && !search.foundCycle
      invariant remaining <= adj.Keys
      invariant search.stack == []
      invariant forall v :: v in adj && v !in remaining ==> v in finish
      decreases |remaining|
    {
      var node := MinOf(remaining);
      remaining := remaining - {node};
      if node !in search.state {
        search, finish, clock := Dfs(adj, node, search, finish, clock);
      }
      if search.foundCycle {
        break;
      }
    }
    if search.foundCycle {
      AdjCycleIsCycle(adj, edges, search.cyclePath);
      return Fail(CycleDetected(search.cyclePath)), map[];
    }
    FinishTimesRank(adj, edges, search.state, finish, clock);
    RankingExcludesCycle(edges, finish);
    outcome, rank := Pass, finish;
  }
}
