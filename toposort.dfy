/** `GraphCompiler::topological_sort`: delay edges first in spec order, then
    the non-delay edges in the order Kahn's algorithm releases them, taking
    the smallest ready signal id first (src/graph/compiler.cpp). */
module TopologicalOrder {
  import opened Types
  import opened GraphSpecs
  import opened Graphs

  // ---------------------------------------------------------------------------
  // Splitting the edge list

  predicate Increasing(s: seq<nat>) {
    forall i, j :: 0 <= i < j < |s| ==> s[i] < s[j]
  }

  /** The indices below `n` of the edges whose delay flag is `delay`, in
      ascending order. */
  function IndicesWhere(edges: seq<Edge>, delay: bool, n: nat): (r: seq<nat>)
    requires n <= |edges|
    ensures |r| <= n
  {
    if n == 0 then []
    else
      var r := IndicesWhere(edges, delay, n - 1);
      if edges[n - 1].isDelay == delay then r + [n - 1] else r
  }

  function DelayIndices(edges: seq<Edge>): seq<nat> {
    IndicesWhere(edges, true, |edges|)
  }

  function ImmediateIndices(edges: seq<Edge>): seq<nat> {
    IndicesWhere(edges, false, |edges|)
  }

  /** The selected indices are exactly those of the edges with the flag, each
      once and in ascending order. */
  lemma {:induction false} IndicesWhereSelects(edges: seq<Edge>, delay: bool, n: nat)
    requires n <= |edges|
    ensures var r := IndicesWhere(edges, delay, n);
      && (forall k :: 0 <= k < |r| ==> r[k] < n && edges[r[k]].isDelay == delay)
      && (forall i :: 0 <= i < n && edges[i].isDelay == delay ==> i in r)
      && Increasing(r)
  {
    if n > 0 {
      IndicesWhereSelects(edges, delay, n - 1);
      var p := IndicesWhere(edges, delay, n - 1);
      if edges[n - 1].isDelay == delay {
        var r := p + [n - 1];
        assert forall k :: 0 <= k < |p| ==> r[k] == p[k];
        assert r[|p|] == n - 1;
        assert forall i :: 0 <= i < n - 1 && edges[i].isDelay == delay ==> i in p;
      }
    }
  }

  /** Every edge is either delayed or immediate. */
  lemma {:induction false} PartitionSize(edges: seq<Edge>, n: nat)
    requires n <= |edges|
    ensures |IndicesWhere(edges, true, n)| + |IndicesWhere(edges, false, n)| == n
  {
    if n > 0 {
      PartitionSize(edges, n - 1);
    }
  }

  lemma IncreasingIsDistinct(s: seq<nat>)
    requires Increasing(s)
    ensures Distinct(s)
  {
  }

  /** The first loop of `topological_sort`: split the indices by delay flag. */
  method Partition(edges: seq<Edge>) returns (delay: seq<nat>, immediate: seq<nat>)
    ensures delay == DelayIndices(edges) && immediate == ImmediateIndices(edges)
    ensures |delay| + |immediate| == |edges|
  {
    delay, immediate := [], [];
    var i := 0;
    while i < |edges|
      invariant 0 <= i <= |edges|
      invariant delay == IndicesWhere(edges, true, i)
      invariant immediate == IndicesWhere(edges, false, i)
    {
      if edges[i].isDelay {
        delay := delay + [i];
      } else {
        immediate := immediate + [i];
      }
      i := i + 1;
    }
    PartitionSize(edges, |edges|);
  }

  // ---------------------------------------------------------------------------
  // Vocabulary of the proof

  /** The non-delay edges, by index. */
  ghost function ImmSet(edges: seq<Edge>): set<nat> {
    set i | 0 <= i < |edges| && !edges[i].isDelay
  }

  /** The edges of `pending` that write `v`. */
  ghost function Into(edges: seq<Edge>, pending: set<nat>, v: SignalId): set<nat> {
    set p | p in pending && p < |edges| && edges[p].target == v
  }

  /** The sources and targets of the edges of `s`. */
  ghost function Endpoints(edges: seq<Edge>, s: set<nat>): set<SignalId> {
    (set p | p in s && p < |edges| :: edges[p].source) + (set p | p in s && p < |edges| :: edges[p].target)
  }

  /** `all_signals`: every endpoint of a non-delay edge. */
  ghost function SignalsOf(edges: seq<Edge>): set<SignalId> {
    Endpoints(edges, ImmSet(edges))
  }

  /** `in_degree[v]` reads 0 for a signal that has no entry yet. */
  function Get(m: map<SignalId, int>, v: SignalId): int {
    if v in m then m[v] else 0
  }

  /** `outgoing`: each non-delay edge is listed under its source, and only there. */
  ghost predicate IsOutgoing(edges: seq<Edge>, outgoing: map<SignalId, seq<nat>>) {
    && (forall s, j :: s in outgoing && 0 <= j < |outgoing[s]| ==>
          outgoing[s][j] < |edges| && !edges[outgoing[s][j]].isDelay && edges[outgoing[s][j]].source == s)
    && (forall p :: 0 <= p < |edges| && !edges[p].isDelay ==>
          edges[p].source in outgoing && p in outgoing[edges[p].source])
  }

  /** Among the listed edges, an edge that writes a signal comes before every
      edge that reads it. */
  ghost predicate WritersFirst(edges: seq<Edge>, sorted: seq<nat>) {
    forall x, y ::
      (0 <= x < |sorted| && 0 <= y < |sorted| && sorted[x] < |edges| && sorted[y] < |edges| &&
       edges[sorted[x]].target == edges[sorted[y]].source) ==> x < y
  }

  lemma IntoInsert(edges: seq<Edge>, s: set<nat>, x: nat, v: SignalId)
    requires x < |edges| && x !in s
    ensures |Into(edges, s + {x}, v)| == |Into(edges, s, v)| + (if edges[x].target == v then 1 else 0)
  {
    if edges[x].target == v {
      assert Into(edges, s + {x}, v) == Into(edges, s, v) + {x};
    } else {
      assert Into(edges, s + {x}, v) == Into(edges, s, v);
    }
  }

  lemma IntoRemove(edges: seq<Edge>, s: set<nat>, x: nat, v: SignalId)
    requires x < |edges| && x in s
    ensures Into(edges, s - {x}, v) <= Into(edges, s, v)
    ensures |Into(edges, s - {x}, v)| == |Into(edges, s, v)| - (if edges[x].target == v then 1 else 0)
  {
    if edges[x].target == v {
      assert Into(edges, s - {x}, v) == Into(edges, s, v) - {x};
      RemoveOneCardinality(Into(edges, s, v), x);
    } else {
      assert Into(edges, s - {x}, v) == Into(edges, s, v);
    }
  }

  // ---------------------------------------------------------------------------
  // Building the adjacency, the in-degrees and the signal set

  /** Every listed index is a non-delay edge. */
  ghost predicate ImmediateOnly(edges: seq<Edge>, immediate: seq<nat>) {
    forall j :: 0 <= j < |immediate| ==> immediate[j] < |edges| && !edges[immediate[j]].isDelay
  }

  lemma ImmediateIndicesFacts(edges: seq<Edge>)
    ensures ImmediateOnly(edges, ImmediateIndices(edges))
    ensures Distinct(ImmediateIndices(edges))
    ensures Elements(ImmediateIndices(edges)) == ImmSet(edges)
  {
    IndicesWhereSelects(edges, false, |edges|);
    IncreasingIsDistinct(ImmediateIndices(edges));
  }

  /** `outgoing` after the first `k` non-delay edges: it lists only non-delay
      edges under their sources, and each of the first `k` is listed. */
  ghost predicate OutgoingUpTo(edges: seq<Edge>, immediate: seq<nat>, k: nat, outgoing: map<SignalId, seq<nat>>) {
    && (forall s, j :: s in outgoing && 0 <= j < |outgoing[s]| ==>
          outgoing[s][j] < |edges| && !edges[outgoing[s][j]].isDelay && edges[outgoing[s][j]].source == s)
    && (forall j :: 0 <= j < k && j < |immediate| && immediate[j] < |edges| ==>
          edges[immediate[j]].source in outgoing && immediate[j] in outgoing[edges[immediate[j]].source])
  }

  lemma OutgoingStep(edges: seq<Edge>, immediate: seq<nat>, k: nat, outgoing: map<SignalId, seq<nat>>)
    requires ImmediateOnly(edges, immediate) && k < |immediate|
    requires OutgoingUpTo(edges, immediate, k, outgoing)
    ensures var e := edges[immediate[k]];
      var out := if e.source in outgoing then outgoing[e.source] else [];
      OutgoingUpTo(edges, immediate, k + 1, outgoing[e.source := out + [immediate[k]]])
  {
    var e := edges[immediate[k]];
    var out := if e.source in outgoing then outgoing[e.source] else [];
    var outgoing' := outgoing[e.source := out + [immediate[k]]];
    forall j | 0 <= j < k + 1 && j < |immediate| && immediate[j] < |edges|
      ensures edges[immediate[j]].source in outgoing' && immediate[j] in outgoing'[edges[immediate[j]].source]
    {
      if j < k && edges[immediate[j]].source == e.source {
        assert immediate[j] in out;
      }
    }
  }

  /** The value of `outgoing[s]`, empty when `s` has no entry. */
  function Lookup(m: map<SignalId, seq<nat>>, s: SignalId): seq<nat> {
    if s in m then m[s] else []
  }

  /** `outgoing[src].push_back(idx)`. */
  function Push(edges: seq<Edge>, m: map<SignalId, seq<nat>>, idx: nat): map<SignalId, seq<nat>> {
    if idx < |edges| then m[edges[idx].source := Lookup(m, edges[idx].source) + [idx]] else m
  }

  /** `m` after pushing each edge of `list` under its source, in order. */
  function Extend(edges: seq<Edge>, m: map<SignalId, seq<nat>>, list: seq<nat>): map<SignalId, seq<nat>>
    decreases |list|
  {
    if list == [] then m else Extend(edges, Push(edges, m, list[0]), list[1..])
  }

  /** Pushing appends, under each signal, the edges of `list` leaving it, in
      list order. */
  lemma {:induction false} ExtendLists(edges: seq<Edge>, m: map<SignalId, seq<nat>>, list: seq<nat>, s: SignalId)
    ensures Lookup(Extend(edges, m, list), s) == Lookup(m, s) + Listed(edges, s, list)
    decreases |list|
  {
    if list != [] {
      var head := if list[0] < |edges| && edges[list[0]].source == s then [list[0]] else [];
      ExtendLists(edges, Push(edges, m, list[0]), list[1..], s);
      assert Lookup(Push(edges, m, list[0]), s) == Lookup(m, s) + head;
      assert Listed(edges, s, list) == head + Listed(edges, s, list[1..]);
      assert Lookup(m, s) + head + Listed(edges, s, list[1..]) == Lookup(m, s) + (head + Listed(edges, s, list[1..]));
    }
  }

  lemma OutgoingDone(edges: seq<Edge>, outgoing: map<SignalId, seq<nat>>)
    requires OutgoingUpTo(edges, ImmediateIndices(edges), |ImmediateIndices(edges)|, outgoing)
    ensures IsOutgoing(edges, outgoing)
  {
    var immediate := ImmediateIndices(edges);
    ImmediateIndicesFacts(edges);
    forall p | 0 <= p < |edges| && !edges[p].isDelay
      ensures edges[p].source in outgoing && p in outgoing[edges[p].source]
    {
      assert p in Elements(immediate);
      var j :| 0 <= j < |immediate| && immediate[j] == p;
    }
  }

  /** `in_degree` after the first `k` non-delay edges counts their targets. */
  ghost predicate DegreesUpTo(edges: seq<Edge>, immediate: seq<nat>, k: nat, inDegree: map<SignalId, int>)
    requires k <= |immediate|
  {
    forall v :: Get(inDegree, v) == |Into(edges, Elements(immediate[..k]), v)|
  }

  lemma DegreesStep(edges: seq<Edge>, immediate: seq<nat>, k: nat, inDegree: map<SignalId, int>)
    requires ImmediateOnly(edges, immediate) && Distinct(immediate) && k < |immediate|
    requires DegreesUpTo(edges, immediate, k, inDegree)
    ensures var t := edges[immediate[k]].target;
      DegreesUpTo(edges, immediate, k + 1, inDegree[t := Get(inDegree, t) + 1])
  {
    var idx := immediate[k];
    var t := edges[idx].target;
    assert immediate[..k + 1] == immediate[..k] + [idx];
    assert Elements(immediate[..k + 1]) == Elements(immediate[..k]) + {idx};
    var inDegree' := inDegree[t := Get(inDegree, t) + 1];
    forall v ensures Get(inDegree', v) == |Into(edges, Elements(immediate[..k + 1]), v)| {
      IntoInsert(edges, Elements(immediate[..k]), idx, v);
    }
  }

  lemma SignalsStep(edges: seq<Edge>, immediate: seq<nat>, k: nat, allSignals: set<SignalId>)
    requires ImmediateOnly(edges, immediate) && k < |immediate|
    requires allSignals == Endpoints(edges, Elements(immediate[..k]))
    ensures var e := edges[immediate[k]];
      allSignals + {e.source, e.target} == Endpoints(edges, Elements(immediate[..k + 1]))
  {
    var idx := immediate[k];
    assert immediate[..k + 1] == immediate[..k] + [idx];
    assert Elements(immediate[..k + 1]) == Elements(immediate[..k]) + {idx};
  }

  /** The second loop: `outgoing[src].push_back(idx)`, `in_degree[tgt]++` and
      both endpoints into `all_signals`, for each non-delay edge. */
  method BuildMaps(edges: seq<Edge>, immediate: seq<nat>)
      returns (outgoing: map<SignalId, seq<nat>>, inDegree: map<SignalId, int>, allSignals: set<SignalId>)
    requires immediate == ImmediateIndices(edges)
    ensures IsOutgoing(edges, outgoing)
    ensures forall v :: Get(inDegree, v) == |Into(edges, ImmSet(edges), v)|
    ensures allSignals == SignalsOf(edges)
    ensures forall s :: Lookup(outgoing, s) == Leaving(edges, s)
  {
    ImmediateIndicesFacts(edges);
    outgoing, inDegree, allSignals := map[], map[], {};
    var k := 0;
    while k < |immediate|
      invariant 0 <= k <= |immediate|
      invariant OutgoingUpTo(edges, immediate, k, outgoing)
      invariant Extend(edges, outgoing, immediate[k..]) == Extend(edges, map[], immediate)
      invariant DegreesUpTo(edges, immediate, k, inDegree)
      invariant allSignals == Endpoints(edges, Elements(immediate[..k]))
    {
      assert immediate[k..][1..] == immediate[k + 1..];
      outgoing, inDegree, allSignals := AddImmediate(edges, immediate, k, outgoing, inDegree, allSignals);
      k := k + 1;
    }
    assert immediate[..k] == immediate;
    OutgoingDone(edges, outgoing);
    forall s ensures Lookup(outgoing, s) == Leaving(edges, s) {
      ExtendLists(edges, map[], immediate, s);
    }
  }

  /** One pass of the second loop, for the `k`-th non-delay edge. */
  method AddImmediate(edges: seq<Edge>, immediate: seq<nat>, k: nat, outgoing: map<SignalId, seq<nat>>,
                      inDegree: map<SignalId, int>, allSignals: set<SignalId>)
      returns (outgoing': map<SignalId, seq<nat>>, inDegree': map<SignalId, int>, allSignals': set<SignalId>)
    requires ImmediateOnly(edges, immediate) && Distinct(immediate) && k < |immediate|
    requires OutgoingUpTo(edges, immediate, k, outgoing)
    requires DegreesUpTo(edges, immediate, k, inDegree)
    requires allSignals == Endpoints(edges, Elements(immediate[..k]))
    ensures OutgoingUpTo(edges, immediate, k + 1, outgoing') && outgoing' == Push(edges, outgoing, immediate[k])
    ensures DegreesUpTo(edges, immediate, k + 1, inDegree')
    ensures allSignals' == Endpoints(edges, Elements(immediate[..k + 1]))
  {
    OutgoingStep(edges, immediate, k, outgoing);
    DegreesStep(edges, immediate, k, inDegree);
    SignalsStep(edges, immediate, k, allSignals);
    var idx := immediate[k];
    var e := edges[idx];
    var out := if e.source in outgoing then outgoing[e.source] else [];
    outgoing' := outgoing[e.source := out + [idx]];
    inDegree' := inDegree[e.target := Get(inDegree, e.target) + 1];
    allSignals' := allSignals + {e.source, e.target};
  }

  /** The third loop: the signals with in-degree 0 start out ready. */
  method InitialReady(allSignals: set<SignalId>, inDegree: map<SignalId, int>) returns (ready: set<SignalId>)
    ensures ready == set s | s in allSignals && Get(inDegree, s) == 0
  {
    ready := {};
    var rest := allSignals;
    while rest != {}
      invariant rest <= allSignals
      invariant ready == set s | s in allSignals - rest && Get(inDegree, s) == 0
      decreases |rest|
    {
      var sig := MinOf(rest);
      if Get(inDegree, sig) == 0 {
        ready := ready + {sig};
      }
      rest := rest - {sig};
    }
  }

  // ---------------------------------------------------------------------------
  // The main loop

  /** The variables of the main loop. */
  datatype Kahn = Kahn(inDegree: map<SignalId, int>, ready: set<SignalId>, processed: set<nat>, sorted: seq<nat>)

  /** The non-delay edges not yet processed. */
  ghost function Pending(edges: seq<Edge>, k: Kahn): set<nat> {
    ImmSet(edges) - k.processed
  }

  /** Each in-degree counts the pending writers of its signal. */
  ghost predicate DegreesInv(edges: seq<Edge>, k: Kahn) {
    forall v :: Get(k.inDegree, v) == |Into(edges, Pending(edges, k), v)|
  }

  /** `done` holds the signals already taken from `ready`: ready and taken
      signals have no pending writer, and a signal whose in-degree is 0 is
      ready or taken. */
  ghost predicate ReadyInv(edges: seq<Edge>, allSignals: set<SignalId>, k: Kahn, done: set<SignalId>) {
    && k.ready <= allSignals && done <= allSignals && k.ready !! done
    && (forall s :: s in k.ready ==> Into(edges, Pending(edges, k), s) == {})
    && (forall s :: s in done ==> Into(edges, Pending(edges, k), s) == {})
    && (forall v :: v in allSignals && Get(k.inDegree, v) == 0 ==> v in k.ready || v in done)
  }

  /** The processed edges are exactly the sorted ones, each once; each left a
      taken signal; writers come before readers. */
  ghost predicate SortedInv(edges: seq<Edge>, k: Kahn, done: set<SignalId>) {
    && k.processed == Elements(k.sorted) && Distinct(k.sorted) && k.processed <= ImmSet(edges)
    && (forall i :: 0 <= i < |k.sorted| ==> k.sorted[i] < |edges| && edges[k.sorted[i]].source in done)
    && WritersFirst(edges, k.sorted)
  }

  /** The invariant of the main loop. */
  ghost predicate KahnInv(edges: seq<Edge>, allSignals: set<SignalId>, k: Kahn, done: set<SignalId>) {
    DegreesInv(edges, k) && ReadyInv(edges, allSignals, k, done) && SortedInv(edges, k, done)
  }

  /** Every non-delay edge leaving a signal of `from` is processed. */
  ghost predicate LeavingProcessed(edges: seq<Edge>, from: set<SignalId>, processed: set<nat>) {
    forall p :: 0 <= p < |edges| && !edges[p].isDelay && edges[p].source in from ==> p in processed
  }

  /** The state after processing edge `idx`: `--in_degree[target]`, and the
      target becomes ready when that reaches 0. */
  function Take(edges: seq<Edge>, k: Kahn, idx: nat): Kahn
    requires idx < |edges|
  {
    var t := edges[idx].target;
    var d := Get(k.inDegree, t) - 1;
    Kahn(k.inDegree[t := d], if d == 0 then k.ready + {t} else k.ready, k.processed + {idx}, k.sorted + [idx])
  }

  lemma TakePending(edges: seq<Edge>, k: Kahn, idx: nat)
    requires idx < |edges| && !edges[idx].isDelay && idx !in k.processed
    ensures Pending(edges, Take(edges, k, idx)) == Pending(edges, k) - {idx}
    ensures idx in Into(edges, Pending(edges, k), edges[idx].target)
  {
  }

  lemma TakeKeepsDegrees(edges: seq<Edge>, k: Kahn, idx: nat)
    requires DegreesInv(edges, k)
    requires idx < |edges| && !edges[idx].isDelay && idx !in k.processed
    ensures DegreesInv(edges, Take(edges, k, idx))
  {
    var k' := Take(edges, k, idx);
    TakePending(edges, k, idx);
    forall v ensures Get(k'.inDegree, v) == |Into(edges, Pending(edges, k'), v)| {
      IntoRemove(edges, Pending(edges, k), idx, v);
    }
  }

  lemma TakeKeepsReady(edges: seq<Edge>, allSignals: set<SignalId>, k: Kahn, done: set<SignalId>, idx: nat)
    requires DegreesInv(edges, k) && ReadyInv(edges, allSignals, k, done) && allSignals == SignalsOf(edges)
    requires idx < |edges| && !edges[idx].isDelay && idx !in k.processed
    ensures ReadyInv(edges, allSignals, Take(edges, k, idx), done)
  {
    var k' := Take(edges, k, idx);
    var t := edges[idx].target;
    TakePending(edges, k, idx);
    assert t !in done && t !in k.ready;
    assert idx in ImmSet(edges);
    assert t in allSignals;
    forall s | s in k'.ready ensures Into(edges, Pending(edges, k'), s) == {} {
      IntoRemove(edges, Pending(edges, k), idx, s);
    }
    forall s | s in done ensures Into(edges, Pending(edges, k'), s) == {} {
      IntoRemove(edges, Pending(edges, k), idx, s);
    }
  }

  lemma TakeKeepsSorted(edges: seq<Edge>, allSignals: set<SignalId>, k: Kahn, done: set<SignalId>, idx: nat)
    requires ReadyInv(edges, allSignals, k, done) && SortedInv(edges, k, done)
    requires idx < |edges| && !edges[idx].isDelay && idx !in k.processed && edges[idx].source in done
    ensures SortedInv(edges, Take(edges, k, idx), done)
  {
    var k' := Take(edges, k, idx);
    TakePending(edges, k, idx);
    assert Elements(k'.sorted) == Elements(k.sorted) + {idx};
    var n := |k.sorted|;
    forall x, y | 0 <= x < |k'.sorted| && 0 <= y < |k'.sorted| &&
                  edges[k'.sorted[x]].target == edges[k'.sorted[y]].source
      ensures x < y
    {
      if x == n {
        assert false;
      }
    }
  }

  /** Processing one unprocessed non-delay edge out of a taken signal. */
  method TakeEdge(edges: seq<Edge>, allSignals: set<SignalId>, k: Kahn, ghost done: set<SignalId>, idx: nat)
      returns (k': Kahn)
    requires KahnInv(edges, allSignals, k, done) && allSignals == SignalsOf(edges)
    requires idx < |edges| && !edges[idx].isDelay && idx !in k.processed && edges[idx].source in done
    ensures KahnInv(edges, allSignals, k', done)
    ensures k'.processed == k.processed + {idx}
    ensures StageOf(k') == Release(edges, StageOf(k), idx)
  {
    TakeKeepsDegrees(edges, k, idx);
    TakePending(edges, k, idx);
    TakeKeepsReady(edges, allSignals, k, done, idx);
    TakeKeepsSorted(edges, allSignals, k, done, idx);
    var t := edges[idx].target;
    var d := Get(k.inDegree, t) - 1;
    var ready := if d == 0 then k.ready + {t} else k.ready;
    k' := Kahn(k.inDegree[t := d], ready, k.processed + {idx}, k.sorted + [idx]);
    assert k' == Take(edges, k, idx);
    assert Get(k'.inDegree, t) == d == |Into(edges, ImmSet(edges) - k'.processed, t)|;
    if d == 0 {
      forall p | 0 <= p < |edges| && !edges[p].isDelay && edges[p].target == t ensures p in k'.processed {
        assert p !in Into(edges, ImmSet(edges) - k'.processed, t);
      }
    } else {
      ghost var p :| p in Into(edges, ImmSet(edges) - k'.processed, t);
    }
  }

  /** `for (size_t idx : outgoing[sig])`: each unprocessed edge leaving the
      taken signal is appended and its target's in-degree drops. */
  method ProcessOutgoing(edges: seq<Edge>, outgoing: map<SignalId, seq<nat>>, allSignals: set<SignalId>,
                         sig: SignalId, k: Kahn, ghost done: set<SignalId>) returns (k': Kahn)
    requires IsOutgoing(edges, outgoing) && allSignals == SignalsOf(edges)
    requires sig in outgoing && sig in done
    requires KahnInv(edges, allSignals, k, done)
    requires LeavingProcessed(edges, done - {sig}, k.processed)
    ensures KahnInv(edges, allSignals, k', done)
    ensures LeavingProcessed(edges, done, k'.processed)
    ensures StageOf(k') == ReleaseAll(edges, StageOf(k), outgoing[sig])
  {
    k' := k;
    var list := outgoing[sig];
    var j := 0;
    while j < |list|
      invariant 0 <= j <= |list|
      invariant KahnInv(edges, allSignals, k', done)
      invariant k.processed <= k'.processed
      invariant forall i :: 0 <= i < j ==> list[i] in k'.processed
      invariant ReleaseAll(edges, StageOf(k'), list[j..]) == ReleaseAll(edges, StageOf(k), list)
    {
      assert list[j..][1..] == list[j + 1..];
      var idx := list[j];
      if idx !in k'.processed {
        k' := TakeEdge(edges, allSignals, k', done, idx);
      }
      j := j + 1;
    }
    ListProcessed(edges, outgoing, sig, done, k.processed, k'.processed);
  }

  /** Once every edge listed under `sig` is processed, every edge leaving a
      signal of `done` is. */
  lemma ListProcessed(edges: seq<Edge>, outgoing: map<SignalId, seq<nat>>, sig: SignalId, done: set<SignalId>,
                      before: set<nat>, after: set<nat>)
    requires IsOutgoing(edges, outgoing) && sig in outgoing
    requires LeavingProcessed(edges, done - {sig}, before) && before <= after
    requires forall i :: 0 <= i < |outgoing[sig]| ==> outgoing[sig][i] in after
    ensures LeavingProcessed(edges, done, after)
  {
    forall p | 0 <= p < |edges| && !edges[p].isDelay && edges[p].source in done
      ensures p in after
    {
      if edges[p].source == sig {
        var i :| 0 <= i < |outgoing[sig]| && outgoing[sig][i] == p;
      }
    }
  }

  /** `while (!ready.empty())`: take the smallest ready signal and process
      the edges leaving it. */
  method DrainReady(edges: seq<Edge>, outgoing: map<SignalId, seq<nat>>, allSignals: set<SignalId>, start: Kahn)
      returns (k: Kahn, ghost done: set<SignalId>)
    requires IsOutgoing(edges, outgoing) && allSignals == SignalsOf(edges)
    requires forall s :: Lookup(outgoing, s) == Leaving(edges, s)
    requires KahnInv(edges, allSignals, start, {}) && start.processed == {}
    ensures KahnInv(edges, allSignals, k, done) && k.ready == {}
    ensures LeavingProcessed(edges, done, k.processed)
    ensures StageOf(k) == Drain(edges, StageOf(start), |allSignals|)
  {
    k, done := start, {};
    while k.ready != {}
      invariant KahnInv(edges, allSignals, k, done)
      invariant LeavingProcessed(edges, done, k.processed)
      invariant |done| <= |allSignals|
      invariant Drain(edges, StageOf(k), |allSignals| - |done|) == Drain(edges, StageOf(start), |allSignals|)
      decreases allSignals - done
    {
      ghost var before, fuel := StageOf(k), |allSignals| - |done|;
      ghost var sig;
      k, done, sig := TakeLeast(edges, outgoing, allSignals, k, done);
      SubsetCardinality(done, allSignals);
      DrainRound(edges, before, fuel, sig);
    }
  }

  /** One pass of the main loop: take the least ready signal and process the
      edges leaving it. */
  method TakeLeast(edges: seq<Edge>, outgoing: map<SignalId, seq<nat>>, allSignals: set<SignalId>, k: Kahn,
                   ghost done: set<SignalId>)
      returns (k': Kahn, ghost done': set<SignalId>, ghost sig: SignalId)
    requires IsOutgoing(edges, outgoing) && allSignals == SignalsOf(edges)
    requires forall s :: Lookup(outgoing, s) == Leaving(edges, s)
    requires KahnInv(edges, allSignals, k, done) && LeavingProcessed(edges, done, k.processed)
    requires k.ready != {}
    ensures KahnInv(edges, allSignals, k', done') && LeavingProcessed(edges, done', k'.processed)
    ensures sig in k.ready && sig !in done && done' == done + {sig} && done' <= allSignals
    ensures sig == Least(k.ready)
    ensures StageOf(k') == ReleaseAll(edges, StageOf(k).(ready := k.ready - {sig}), Leaving(edges, sig))
  {
    var least := MinOf(k.ready);
    sig := least;
    k', done' := k.(ready := k.ready - {least}), done + {least};
    if least in outgoing {
      k' := ProcessOutgoing(edges, outgoing, allSignals, least, k', done');
    } else {
      assert Lookup(outgoing, least) == [];
    }
  }

  // ---------------------------------------------------------------------------
  // The order as a function

  /** The main loop's state without the in-degree map: the reference run of
      Kahn's algorithm below reads a signal's in-degree off the pending edges
      that write it. */
  datatype Stage = Stage(ready: set<SignalId>, processed: set<nat>, sorted: seq<nat>)

  function StageOf(k: Kahn): Stage {
    Stage(k.ready, k.processed, k.sorted)
  }

  /** The indices of `list` whose edge leaves `sig`, in list order. */
  function Listed(edges: seq<Edge>, sig: SignalId, list: seq<nat>): seq<nat>
    decreases |list|
  {
    if list == [] then []
    else (if list[0] < |edges| && edges[list[0]].source == sig then [list[0]] else []) + Listed(edges, sig, list[1..])
  }

  /** The non-delay edges leaving `sig`, in index order. */
  function Leaving(edges: seq<Edge>, sig: SignalId): seq<nat> {
    Listed(edges, sig, ImmediateIndices(edges))
  }

  /** Releasing edge `idx` appends it to the order, and its target becomes
      ready once no pending edge writes it; an edge already released is
      skipped. */
  ghost function Release(edges: seq<Edge>, st: Stage, idx: nat): Stage {
    if idx in st.processed || idx >= |edges| then st
    else
      var processed := st.processed + {idx};
      var t := edges[idx].target;
      Stage(if Unwritten(edges, processed, t) then st.ready + {t} else st.ready,
            processed, st.sorted + [idx])
  }

  /** Every non-delay edge that writes `t` is in `processed`. */
  ghost predicate Unwritten(edges: seq<Edge>, processed: set<nat>, t: SignalId) {
    forall p :: 0 <= p < |edges| && !edges[p].isDelay && edges[p].target == t ==> p in processed
  }

  ghost function ReleaseAll(edges: seq<Edge>, st: Stage, list: seq<nat>): Stage
    decreases |list|
  {
    if list == [] then st
    else ReleaseAll(edges, Release(edges, st, list[0]), list[1..])
  }

  /** At most `fuel` rounds of: take the least ready signal and release the
      edges leaving it. */
  ghost function Drain(edges: seq<Edge>, st: Stage, fuel: nat): Stage
    decreases fuel
  {
    if fuel == 0 || st.ready == {} then st
    else
      var sig := Least(st.ready);
      Drain(edges, ReleaseAll(edges, st.(ready := st.ready - {sig}), Leaving(edges, sig)), fuel - 1)
  }

  /** A round of the reference run takes the least ready signal. */
  lemma DrainRound(edges: seq<Edge>, st: Stage, fuel: nat, sig: SignalId)
    requires fuel > 0 && st.ready != {} && sig == Least(st.ready)
    ensures Drain(edges, st, fuel)
         == Drain(edges, ReleaseAll(edges, st.(ready := st.ready - {sig}), Leaving(edges, sig)), fuel - 1)
  {
  }

  /** Nothing released yet; the signals no non-delay edge writes are ready. */
  ghost function StartStage(edges: seq<Edge>): Stage {
    Stage(set s | s in SignalsOf(edges) && Into(edges, ImmSet(edges), s) == {}, {}, [])
  }

  /** The order in which Kahn's algorithm, taking the least ready signal
      first, releases the non-delay edges: one round per signal. */
  ghost function KahnOrder(edges: seq<Edge>): seq<nat> {
    Drain(edges, StartStage(edges), |SignalsOf(edges)|).sorted
  }

  // ---------------------------------------------------------------------------
  // Failure means a cycle

  /** Some edge of a non-empty set has the largest source rank. */
  lemma MaxSourceRank(edges: seq<Edge>, s: set<nat>, rank: map<SignalId, nat>) returns (p: nat)
    requires s != {}
    requires forall q :: q in s ==> q < |edges| && edges[q].source in rank
    ensures p in s
    ensures forall q :: q in s ==> rank[edges[q].source] <= rank[edges[p].source]
    decreases |s|
  {
    var x :| x in s;
    if s == {x} {
      p := x;
    } else {
      var rest := MaxSourceRank(edges, s - {x}, rank);
      p := if rank[edges[x].source] <= rank[edges[rest].source] then rest else x;
    }
  }

  /** When every pending edge's source still has a pending writer, the
      subgraph has no ranking: the pending edge with the highest source rank
      would have a writer ranked higher still. */
  lemma StuckExcludesRanking(edges: seq<Edge>, pending: set<nat>, rank: map<SignalId, nat>)
    requires pending != {} && pending <= ImmSet(edges)
    requires forall q :: q in pending ==> q < |edges| && Into(edges, pending, edges[q].source) != {}
    ensures !IsRanking(edges, rank)
  {
    if IsRanking(edges, rank) {
      var p := MaxSourceRank(edges, pending, rank);
      assert false;
    }
  }

  // ---------------------------------------------------------------------------
  // The whole sort

  predicate IsPermutation(order: seq<nat>, n: nat) {
    |order| == n && Distinct(order) && forall k :: 0 <= k < |order| ==> order[k] < n
  }

  /** `edges` rearranged by `order`: the edge list `topological_sort` leaves. */
  function Reorder<T>(xs: seq<T>, order: seq<nat>): (r: seq<T>)
    requires forall k :: 0 <= k < |order| ==> order[k] < |xs|
    ensures |r| == |order| && forall k :: 0 <= k < |order| ==> r[k] == xs[order[k]]
  {
    seq(|order|, k requires 0 <= k < |order| => xs[order[k]])
  }

  /** Every delay edge precedes every non-delay edge. */
  ghost predicate DelayFirst(es: seq<Edge>) {
    forall x, y :: 0 <= x < |es| && 0 <= y < |es| && es[x].isDelay && !es[y].isDelay ==> x < y
  }

  /** A non-delay edge comes after every non-delay edge writing its source. */
  ghost predicate ImmediateWritersFirst(es: seq<Edge>) {
    forall x, y ::
      (0 <= x < |es| && 0 <= y < |es| && !es[x].isDelay && !es[y].isDelay &&
       es[x].target == es[y].source) ==> x < y
  }

  /** The starting state: in-degrees of the whole subgraph, the signals
      without writers ready, nothing processed. */
  lemma StartInv(edges: seq<Edge>, allSignals: set<SignalId>, inDegree: map<SignalId, int>, ready: set<SignalId>)
    requires allSignals == SignalsOf(edges)
    requires forall v :: Get(inDegree, v) == |Into(edges, ImmSet(edges), v)|
    requires ready == set s | s in allSignals && Get(inDegree, s) == 0
    ensures KahnInv(edges, allSignals, Kahn(inDegree, ready, {}, []), {})
  {
    var k := Kahn(inDegree, ready, {}, []);
    assert Pending(edges, k) == ImmSet(edges);
    forall s | s in ready ensures Into(edges, Pending(edges, k), s) == {} {
      assert |Into(edges, ImmSet(edges), s)| == 0;
    }
    assert Elements(k.sorted) == {};
  }

  /** A sorted list shorter than the non-delay edges leaves every pending
      edge with a pending writer of its source, so no ranking exists. */
  lemma IncompleteExcludesRanking(edges: seq<Edge>, allSignals: set<SignalId>, k: Kahn, done: set<SignalId>)
    requires allSignals == SignalsOf(edges)
    requires KahnInv(edges, allSignals, k, done) && k.ready == {}
    requires LeavingProcessed(edges, done, k.processed)
    requires |k.sorted| != |ImmediateIndices(edges)|
    ensures forall rank :: !IsRanking(edges, rank)
  {
    ImmediateIndicesFacts(edges);
    DistinctCardinality(ImmediateIndices(edges));
    DistinctCardinality(k.sorted);
    SubsetCardinality(k.processed, ImmSet(edges));
    var pending := Pending(edges, k);
    assert pending != {};
    forall q | q in pending ensures q < |edges| && Into(edges, pending, edges[q].source) != {} {
      assert edges[q].source in allSignals;
    }
    forall rank ensures !IsRanking(edges, rank) {
      StuckExcludesRanking(edges, pending, rank);
    }
  }

  /** A complete sort processed every non-delay edge. */
  lemma CompleteSortsAll(edges: seq<Edge>, allSignals: set<SignalId>, k: Kahn, done: set<SignalId>)
    requires KahnInv(edges, allSignals, k, done)
    requires |k.sorted| == |ImmediateIndices(edges)|
    ensures Elements(k.sorted) == ImmSet(edges)
  {
    ImmediateIndicesFacts(edges);
    DistinctCardinality(ImmediateIndices(edges));
    DistinctCardinality(k.sorted);
    SubsetCardinality(k.processed, ImmSet(edges));
  }

  /** The delay indices followed by a complete sort order every edge as the
      engine needs. */
  lemma CompleteOrder(edges: seq<Edge>, allSignals: set<SignalId>, k: Kahn, done: set<SignalId>)
    requires KahnInv(edges, allSignals, k, done)
    requires |k.sorted| == |ImmediateIndices(edges)|
    ensures var order := DelayIndices(edges) + k.sorted;
      && IsPermutation(order, |edges|)
      && DelayFirst(Reorder(edges, order))
      && ImmediateWritersFirst(Reorder(edges, order))
  {
    CompleteSortsAll(edges, allSignals, k, done);
    assert Distinct(k.sorted) && WritersFirst(edges, k.sorted);
    OrderIsPermutation(edges, k.sorted);
    OrderDelayFirst(edges, k.sorted);
    OrderWritersFirst(edges, k.sorted);
  }

  /** The delay indices followed by a repeat-free list of the non-delay
      indices name every edge once. */
  lemma OrderIsPermutation(edges: seq<Edge>, sorted: seq<nat>)
    requires Distinct(sorted) && Elements(sorted) == ImmSet(edges)
    requires |sorted| == |ImmediateIndices(edges)|
    ensures IsPermutation(DelayIndices(edges) + sorted, |edges|)
  {
    var delay := DelayIndices(edges);
    var order := delay + sorted;
    IndicesWhereSelects(edges, true, |edges|);
    IncreasingIsDistinct(delay);
    PartitionSize(edges, |edges|);
    assert forall i :: 0 <= i < |sorted| ==> sorted[i] in ImmSet(edges);
    forall i, j | 0 <= i < j < |order| ensures order[i] != order[j] {
      if i < |delay| && j >= |delay| {
        assert order[j] in ImmSet(edges);
      }
    }
  }

  lemma OrderDelayFirst(edges: seq<Edge>, sorted: seq<nat>)
    requires Elements(sorted) == ImmSet(edges)
    ensures forall k :: 0 <= k < |DelayIndices(edges) + sorted| ==> (DelayIndices(edges) + sorted)[k] < |edges|
    ensures DelayFirst(Reorder(edges, DelayIndices(edges) + sorted))
  {
    var delay := DelayIndices(edges);
    var order := delay + sorted;
    IndicesWhereSelects(edges, true, |edges|);
    assert forall i :: 0 <= i < |sorted| ==> sorted[i] in ImmSet(edges);
    var es := Reorder(edges, order);
    forall x, y | 0 <= x < |es| && 0 <= y < |es| && es[x].isDelay && !es[y].isDelay
      ensures x < y
    {
      if x >= |delay| {
        assert false;
      }
    }
  }

  lemma OrderWritersFirst(edges: seq<Edge>, sorted: seq<nat>)
    requires Elements(sorted) == ImmSet(edges) && WritersFirst(edges, sorted)
    requires forall k :: 0 <= k < |DelayIndices(edges) + sorted| ==> (DelayIndices(edges) + sorted)[k] < |edges|
    ensures ImmediateWritersFirst(Reorder(edges, DelayIndices(edges) + sorted))
  {
    var delay := DelayIndices(edges);
    var order := delay + sorted;
    IndicesWhereSelects(edges, true, |edges|);
    var es := Reorder(edges, order);
    forall x, y | 0 <= x < |es| && 0 <= y < |es| && !es[x].isDelay && !es[y].isDelay && es[x].target == es[y].source
      ensures x < y
    {
      assert x >= |delay| && y >= |delay|;
      assert order[x] == sorted[x - |delay|] && order[y] == sorted[y - |delay|];
    }
  }

  /** Reorders the edges: on success the result is a permutation of the
      indices that lists the delay edges first in their original order and
      puts every non-delay writer of a signal before its non-delay readers;
      the sort fails only when no ranking of the non-delay subgraph exists,
      that is, when it has a cycle. */
  method TopologicalSort(edges: seq<Edge>) returns (r: Result<seq<nat>, CompileError>)
    ensures r.Ok? <==> |KahnOrder(edges)| == |ImmediateIndices(edges)|
    ensures r.Ok? ==> r.value == DelayIndices(edges) + KahnOrder(edges)
    ensures r.Ok? ==> IsPermutation(r.value, |edges|)
    ensures r.Ok? ==> DelayFirst(Reorder(edges, r.value)) && ImmediateWritersFirst(Reorder(edges, r.value))
    ensures r.Err? ==> r.error == TopologicalSortFailed && forall rank :: !IsRanking(edges, rank)
  {
    var delay, immediate := Partition(edges);
    var outgoing, inDegree, allSignals := BuildMaps(edges, immediate);
    var ready := InitialReady(allSignals, inDegree);
    StartInv(edges, allSignals, inDegree, ready);
    assert StageOf(Kahn(inDegree, ready, {}, [])) == StartStage(edges);
    var k;
    ghost var done;
    k, done := DrainReady(edges, outgoing, allSignals, Kahn(inDegree, ready, {}, []));
    if |k.sorted| != |immediate| {
      IncompleteExcludesRanking(edges, allSignals, k, done);
      return Err(TopologicalSortFailed);
    }
    CompleteOrder(edges, allSignals, k, done);
    r := Ok(delay + k.sorted);
  }
}
