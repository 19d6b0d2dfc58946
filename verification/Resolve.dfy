/** Resolving manifests into a start-ordered graph, and collecting the modules
    to stop when a dependency fails (internal/supervisor/graph.go). */
module Resolve {
  import opened Wrappers
  import opened Sorting
  import opened StartOrders
  import opened Graph
  import opened CycleSearch

  // ---- naming a cycle ----

  lemma OrderedHasNoCycle(rel: Relation, remaining: set<Id>, f: seq<Id>, c: seq<Id>)
    requires Topological(Restrict(rel, remaining), remaining, f)
    ensures !Cycle(rel, remaining, c)
  {
    TopologicalExcludesCycle(Restrict(rel, remaining), remaining, f, c);
    if Cycle(rel, remaining, c) {
      forall i | 0 <= i < |c| - 1 ensures c[i+1] in DepsOf(Restrict(rel, remaining), c[i]) {
        assert c[i] in remaining && c[i+1] in DepsOf(rel, c[i]) * remaining;
      }
      assert Cycle(Restrict(rel, remaining), remaining, c);
      assert false;
    }
  }

  /** A cycle among the unresolved nodes if there is one; otherwise all of them, sorted. */
  method FindCycle(remaining: set<Id>, deps: map<Id, seq<Id>>, ghost rel: Relation) returns (c: seq<Id>)
    requires remaining <= rel.Keys && DepsListed(rel, deps)
    ensures (exists k :: Cycle(rel, remaining, k)) ==> Cycle(rel, remaining, c)
    ensures !Cycle(rel, remaining, c) ==>
      Sorted(IdLe, c) && Lists(c, remaining) && exists f :: Topological(Restrict(rel, remaining), remaining, f)
  {
    var start := SortedKeys(remaining);
    AllListed(start, remaining);
    hide Cycle, DepsListed, Distinct, Extends, IdLe, Lists, Restrict, SearchInv, Sorted, Topological;
    var search := new Search(remaining, deps, rel);
    for i := 0 to |start|
      invariant search.Valid() && search.stack == [] && fresh(search)
      invariant search.remaining == remaining && search.deps == deps && search.rel == rel
      invariant forall j :: 0 <= j < i ==> start[j] in search.finished
    {
      assert start[i] in start;
      var found := false;
      ghost var before := search.finished;
      if start[i] !in search.color {
        found := search.Visit(start[i]);
        assert !found ==> forall x :: x in before ==> x in search.finished;
      } else {
        ColoredIsFinished(rel, remaining, search.color, search.finished, start[i]);
      }
      if found {
        c := search.cycle;
        return;
      }
    }
    c := start;
    SearchedThrough(rel, remaining, search.color, search.finished, start);
  }

  lemma SearchedThrough(rel: Relation, remaining: set<Id>, color: map<Id, Color>, finished: seq<Id>, start: seq<Id>)
    requires SearchInv(rel, remaining, color, [], finished)
    requires forall x :: x in remaining ==> x in start
    requires forall j :: 0 <= j < |start| ==> start[j] in finished
    ensures forall k :: !Cycle(rel, remaining, k)
    ensures exists f :: Topological(Restrict(rel, remaining), remaining, f)
  {
    AllFinished(rel, remaining, color, finished, start);
    hide *;
    forall k ensures !Cycle(rel, remaining, k) {
      OrderedHasNoCycle(rel, remaining, finished, k);
    }
  }

  lemma ColoredIsFinished(rel: Relation, remaining: set<Id>, color: map<Id, Color>, finished: seq<Id>, x: Id)
    requires SearchInv(rel, remaining, color, [], finished) && x in color
    ensures x in finished
  {
    assert x in [] ==> false;
  }

  lemma AllFinished(rel: Relation, remaining: set<Id>, color: map<Id, Color>, finished: seq<Id>, start: seq<Id>)
    requires SearchInv(rel, remaining, color, [], finished)
    requires forall x :: x in remaining ==> x in start
    requires forall j :: 0 <= j < |start| ==> start[j] in finished
    ensures Topological(Restrict(rel, remaining), remaining, finished)
  {
    forall x ensures x in Elems(finished) <==> x in remaining {
      if x in remaining {
        var j :| 0 <= j < |start| && start[j] == x;
      }
    }
  }

  /** A topological order of a nonempty set starts with a module that depends
      on nothing in the set. */
  lemma FirstIsSink(rel: Relation, remaining: set<Id>, f: seq<Id>)
    requires remaining != {} && remaining <= rel.Keys
    requires Topological(Restrict(rel, remaining), remaining, f)
    ensures f != [] && f[0] in remaining && rel[f[0]] * remaining == {}
  {
    assert f == [] ==> Elems(f) == {};
    assert f[0] in Elems(f);
    assert DepsOf(Restrict(rel, remaining), f[0]) * remaining == rel[f[0]] * remaining;
    assert Elems(f[..0]) == {};
  }

  lemma CycleInWhole(rel: Relation, remaining: set<Id>, c: seq<Id>)
    requires Cycle(rel, remaining, c) && remaining <= rel.Keys
    ensures Cycle(rel, rel.Keys, c)
  {
  }

  /** When nothing more is ready, the unplaced modules form a sinkless set. */
  lemma LeftoverIsSinkless(rel: Relation, done: set<Id>)
    requires Clean(rel) && Ready(rel, done) == {}
    ensures forall x :: x in rel.Keys - done ==> rel[x] * (rel.Keys - done) != {}
  {
    forall x | x in rel.Keys - done ensures rel[x] * (rel.Keys - done) != {} {
      assert x !in Ready(rel, done);
      var d :| d in rel[x] && d !in done;
      assert d in rel[x] * (rel.Keys - done);
    }
  }

  lemma PositiveIsUnplaced(rel: Relation, order: seq<Id>, indegree: map<Id, int>)
    requires Clean(rel) && KahnInv(rel, order, indegree, []) && Ready(rel, Elems(order)) == {}
    ensures (set x | x in indegree && indegree[x] > 0) == rel.Keys - Elems(order)
  {
    LeftoverIsSinkless(rel, Elems(order));
    KahnCounts(rel, order, indegree);
    PositiveIsOutside(rel, Elems(order), indegree);
  }

  lemma PositiveIsOutside(rel: Relation, done: set<Id>, indegree: map<Id, int>)
    requires Counts(Without(rel, done), indegree)
    requires forall x :: x in done && x in rel ==> rel[x] <= done
    requires forall x :: x in rel.Keys - done ==> rel[x] * (rel.Keys - done) != {}
    ensures (set x | x in indegree && indegree[x] > 0) == rel.Keys - done
  {
    forall x | x in rel ensures x in indegree && (indegree[x] > 0 <==> x !in done) {
      CountIsZero(rel, done, indegree, x);
    }
  }

  lemma KahnCounts(rel: Relation, order: seq<Id>, indegree: map<Id, int>)
    requires KahnInv(rel, order, indegree, [])
    ensures Counts(Without(rel, Elems(order)), indegree) && Elems(order) <= rel.Keys && indegree.Keys == rel.Keys
    ensures forall x :: x in Elems(order) && x in rel ==> rel[x] <= Elems(order)
  {
    assert PlacedInOrder(rel, Elems(order), order);
    hide Topological, Greedy, Elems;
  }

  lemma CountIsZero(rel: Relation, done: set<Id>, indegree: map<Id, int>, x: Id)
    requires x in rel && Counts(Without(rel, done), indegree)
    requires x in done ==> rel[x] <= done
    requires x !in done ==> rel[x] * (rel.Keys - done) != {}
    ensures x in indegree && (indegree[x] > 0 <==> x !in done)
  {
    var rest := Without(rel, done)[x];
    assert indegree[x] == |rest| && rest == rel[x] - done;
    if x !in done {
      var d :| d in rel[x] * (rel.Keys - done);
      assert d in rest;
    }
  }

  lemma {:induction false} DistinctSize(s: seq<Id>)
    requires Distinct(s)
    ensures |Elems(s)| == |s|
  {
    if s != [] {
      var n := |s| - 1;
      DistinctSize(s[..n]);
      assert s == s[..n] + [s[n]];
      assert Elems(s) == Elems(s[..n]) + {s[n]};
    }
  }

  /** Kahn's order is complete exactly when it is as long as the list of modules. */
  lemma CompleteWhenSameLength(rel: Relation, order: seq<Id>, ids: seq<Id>)
    requires Lists(ids, rel.Keys) && Distinct(order) && Elems(order) <= rel.Keys
    ensures |order| == |ids| <==> Elems(order) == rel.Keys
  {
    DistinctSize(order);
    DistinctSize(ids);
    if Elems(order) != rel.Keys { SubsetSmaller(Elems(order), rel.Keys); }
  }

  lemma KahnDoneParts(rel: Relation, ids: seq<Id>, order: seq<Id>, indegree: map<Id, int>)
    requires KahnDone(rel, ids, order, indegree)
    ensures Distinct(order) && Elems(order) <= rel.Keys && Topological(rel, Elems(order), order)
  {
    assert PlacedInOrder(rel, Elems(order), order);
    hide Greedy, Ready, Elems;
  }

  /** What a successful resolution returns. */
  ghost predicate Resolved(rel: Relation, g: Graph) {
    && LeastOrder(rel, g.order) && DepsListed(rel, g.deps) && DependentsListed(rel, g.dependents)
    && forall d :: d in g.dependents ==> Sorted(IdLe, g.dependents[d])
  }

  ghost predicate KahnDone(rel: Relation, ids: seq<Id>, order: seq<Id>, indegree: map<Id, int>) {
    && Clean(rel) && Lists(ids, rel.Keys) && KahnInv(rel, order, indegree, [])
    && order == Greedy(rel, {}) && Ready(rel, Elems(order)) == {}
  }

  lemma KahnStuck(rel: Relation, ids: seq<Id>, order: seq<Id>, indegree: map<Id, int>, remaining: set<Id>)
    requires KahnDone(rel, ids, order, indegree) && |order| != |ids|
    requires remaining == set x | x in indegree && indegree[x] > 0
    ensures remaining <= rel.Keys
    ensures forall f :: !Topological(Restrict(rel, remaining), remaining, f)
  {
    KahnDoneParts(rel, ids, order, indegree);
    CompleteWhenSameLength(rel, order, ids);
    PositiveIsUnplaced(rel, order, indegree);
    LeftoverIsSinkless(rel, Elems(order));
    forall f ensures !Topological(Restrict(rel, remaining), remaining, f) {
      if Topological(Restrict(rel, remaining), remaining, f) { FirstIsSink(rel, remaining, f); }
    }
  }

  lemma KahnComplete(rel: Relation, ids: seq<Id>, order: seq<Id>, indegree: map<Id, int>)
    requires KahnDone(rel, ids, order, indegree) && |order| == |ids|
    ensures LeastOrder(rel, order) && Acyclic(rel)
  {
    KahnDoneParts(rel, ids, order, indegree);
    CompleteWhenSameLength(rel, order, ids);
    GreedyIsLeast(rel);
    forall c ensures !Cycle(rel, rel.Keys, c) {
      TopologicalExcludesCycle(rel, rel.Keys, order, c);
    }
  }

  method CycleAmongUnresolved(ghost rel: Relation, ghost ids: seq<Id>, ghost order: seq<Id>, indegree: map<Id, int>, deps: map<Id, seq<Id>>)
    returns (c: seq<Id>)
    requires KahnDone(rel, ids, order, indegree) && |order| != |ids| && DepsListed(rel, deps)
    ensures Cycle(rel, rel.Keys, c) && !Acyclic(rel)
  {
    hide *;
    var remaining := set x | x in indegree && indegree[x] > 0;
    KahnStuck(rel, ids, order, indegree, remaining);
    c := FindCycle(remaining, deps, rel);
    CycleInWhole(rel, remaining, c);
    CycleIsNotAcyclic(rel, c);
  }

  lemma CycleIsNotAcyclic(rel: Relation, c: seq<Id>)
    requires Cycle(rel, rel.Keys, c)
    ensures !Acyclic(rel)
  {
  }

  method Resolve(m: Manifests) returns (r: Result<Graph, ResolveError>)
    ensures r.Success? ==> Resolved(RelationOf(m), r.value)
    ensures r.Success? <==> Clean(RelationOf(m)) && Acyclic(RelationOf(m))
    ensures r.Failure? && r.error.CycleFound? ==>
      Clean(RelationOf(m)) && Cycle(RelationOf(m), RelationOf(m).Keys, r.error.cycle)
    ensures r.Failure? && !r.error.CycleFound? ==> ReportsFirstFault(m, r.error)
  {
    ghost var rel := RelationOf(m);
    assert rel.Keys == m.Keys;
    hide *;
    var ids := SortedKeys(m.Keys);
    var fault, deps, dependents, indegree := BuildEdges(m, ids);
    if fault.Some? {
      FaultIsUnclean(m, fault.value);
      return Failure(fault.value);
    }
    assert DepsListed(rel, deps) && DependentsListed(rel, dependents) && Counts(rel, indegree) by { EdgesAre(rel, deps, dependents, indegree); }
    var order;
    order, indegree := Kahn(rel, ids, dependents, indegree);
    KahnIsDone(rel, ids, order, indegree);
    if |order| != |ids| {
      var c := CycleAmongUnresolved(rel, ids, order, indegree, deps);
      return Failure(CycleFound(c));
    }
    KahnComplete(rel, ids, order, indegree);
    dependents := SortLists(rel, dependents);
    IsResolved(rel, Graph(order, deps, dependents));
    return Success(Graph(order, deps, dependents));
  }

  lemma KahnIsDone(rel: Relation, ids: seq<Id>, order: seq<Id>, indegree: map<Id, int>)
    requires Clean(rel) && Lists(ids, rel.Keys) && KahnInv(rel, order, indegree, [])
    requires order == Greedy(rel, {}) && Ready(rel, Elems(order)) == {}
    ensures KahnDone(rel, ids, order, indegree)
  {
  }

  lemma IsResolved(rel: Relation, g: Graph)
    requires LeastOrder(rel, g.order) && DepsListed(rel, g.deps) && DependentsListed(rel, g.dependents)
    requires forall d :: d in g.dependents ==> Sorted(IdLe, g.dependents[d])
    ensures Resolved(rel, g)
  {
  }

  lemma EdgesAre(rel: Relation, deps: map<Id, seq<Id>>, dependents: map<Id, seq<Id>>, indegree: map<Id, int>)
    requires EdgesOf(rel, deps, dependents, indegree)
    ensures DepsListed(rel, deps) && DependentsListed(rel, dependents) && Counts(rel, indegree)
  {
  }

  lemma FaultIsUnclean(m: Manifests, e: ResolveError)
    requires ReportsFirstFault(m, e)
    ensures !e.CycleFound? && !Clean(RelationOf(m))
  {
    match e
    case SelfDependency(id) =>
      var k: nat :| FirstFault(m, id, k) && m[id][k] == id;
      assert id in RelationOf(m)[id];
    case MissingDependency(id, dep) =>
      var k: nat :| FirstFault(m, id, k) && m[id][k] == dep && dep != id;
      assert FaultAt(m, id, k);
      assert dep in RelationOf(m)[id] && dep !in RelationOf(m).Keys;
  }

  method SortLists(ghost rel: Relation, lists0: map<Id, seq<Id>>) returns (lists: map<Id, seq<Id>>)
    requires DependentsListed(rel, lists0)
    ensures DependentsListed(rel, lists) && lists.Keys == lists0.Keys
    ensures forall d :: d in lists ==> Sorted(IdLe, lists[d])
  {
    lists := lists0;
    var rest := lists.Keys;
    while rest != {}
      invariant rest <= lists.Keys == lists0.Keys
      invariant forall d :: d in lists ==> lists[d] == if d in rest then lists0[d] else Sort(IdLe, lists0[d])
      decreases rest
    {
      var d :| d in rest;
      lists, rest := lists[d := Sort(IdLe, lists[d])], rest - {d};
    }
    forall d | d in lists ensures Sorted(IdLe, lists[d]) {
      SortSorted(IdLe, lists0[d]);
    }
    forall d | d in rel ensures Lists(At(lists, d), DependentsOf(rel, d)) {
      SortedLists(At(lists0, d));
      assert At(lists, d) == Sort(IdLe, At(lists0, d));
    }
  }

  // ---- the affected subtree ----

  lemma BehindDirect(rel: Relation, x: Id, y: Id, cur: Id)
    requires x in rel && y in rel && cur in rel && cur in rel[y]
    requires x == y || DependsOn(rel, x, y)
    ensures DependsOn(rel, x, cur)
  {
    if x == y {
      assert DependsVia(rel, x, cur, [cur, x]);
    } else {
      var via :| DependsVia(rel, x, y, via);
      assert DependsVia(rel, x, cur, [cur] + via);
    }
  }

  /** What one walk from `cur` adds to `before`: its dependents, closed, and nothing else. */
  ghost predicate Walked(rel: Relation, cur: Id, before: set<Id>, after: set<Id>) {
    && before <= after <= rel.Keys
    && DependentsOf(rel, cur) <= after
    && (forall x :: x in after - before ==> DependentsOf(rel, x) <= after)
    && (cur in rel ==> forall x :: x in after - before ==> DependsOn(rel, x, cur))
    && (cur !in rel ==> after == before)
  }

  method Walk(dependents: map<Id, seq<Id>>, cur: Id, before: set<Id>, ghost rel: Relation) returns (seen: set<Id>)
    requires DependentsListed(rel, dependents) && Clean(rel) && before <= rel.Keys
    ensures Walked(rel, cur, before, seen)
    decreases rel.Keys - before
  {
    seen := before;
    if cur !in dependents {
      assert cur in rel ==> At(dependents, cur) == [];
      NoDependents(rel, dependents, cur);
      return;
    }
    AllListed(At(dependents, cur), DependentsOf(rel, cur));
    hide DependentsListed, Clean, DependsOn, DependentsOf;
    for k := 0 to |dependents[cur]|
      invariant before <= seen <= rel.Keys
      invariant forall x :: x in dependents[cur][..k] ==> x in seen
      invariant forall x :: x in seen - before ==> DependentsOf(rel, x) <= seen && DependsOn(rel, x, cur)
    {
      var d := dependents[cur][k];
      assert d in dependents[cur];
      assert dependents[cur][..k+1] == dependents[cur][..k] + [d];
      IsDependent(rel, d, cur);
      if d in seen { continue; }
      ghost var mid := seen + {d};
      seen := Walk(dependents, d, seen + {d}, rel);
      forall x | x in seen - before ensures DependentsOf(rel, x) <= seen && DependsOn(rel, x, cur) {
        if x in seen - mid || x == d { BehindDirect(rel, x, d, cur); }
      }
    }
    assert dependents[cur][..|dependents[cur]|] == dependents[cur];
  }

  lemma NoDependents(rel: Relation, dependents: map<Id, seq<Id>>, cur: Id)
    requires DependentsListed(rel, dependents) && Clean(rel) && cur !in dependents
    ensures DependentsOf(rel, cur) == {}
  {
    if cur in rel { assert Lists([], DependentsOf(rel, cur)); assert Elems<Id>([]) == {}; }
  }

  lemma IsDependent(rel: Relation, d: Id, cur: Id)
    requires d in DependentsOf(rel, cur)
    ensures d in rel && cur in rel[d]
  {
  }

  /** The start order backwards. */
  method StopOrder(g: Graph) returns (out: seq<Id>)
    ensures |out| == |g.order| && forall i :: 0 <= i < |out| ==> out[i] == g.order[|g.order|-1-i]
  {
    out := seq(|g.order|, i => 0);
    for i := 0 to |g.order|
      invariant |out| == |g.order|
      invariant forall j :: 0 <= j < i ==> out[|g.order|-1-j] == g.order[j]
    {
      out := out[|g.order|-1-i := g.order[i]];
    }
    forall i | 0 <= i < |out| ensures out[i] == g.order[|g.order|-1-i] {
      assert out[|g.order|-1-(|g.order|-1-i)] == g.order[|g.order|-1-i];
    }
  }

  lemma {:induction false} DependsIsLater(rel: Relation, order: seq<Id>, x: Id, id: Id, via: seq<Id>, at: nat)
    returns (to: nat)
    requires Clean(rel) && Topological(rel, rel.Keys, order) && DependsVia(rel, x, id, via)
    requires at < |order| && order[at] == x
    ensures to < at && order[to] == id
    decreases |via|
  {
    var n := |via| - 1;
    assert via[n-1] in DepsOf(rel, order[at]) * rel.Keys;
    assert via[n-1] in order[..at];
    to :| 0 <= to < at && order[to] == via[n-1];
    if n > 1 {
      assert DependsVia(rel, via[n-1], id, via[..n]);
      to := DependsIsLater(rel, order, via[n-1], id, via[..n], to);
    }
  }

  /** No module is stopped before one that depends on it. */
  ghost predicate StopsDependentsFirst(rel: Relation, out: seq<Id>) {
    forall i, j :: 0 <= i < j < |out| ==> !DependsOn(rel, out[j], out[i])
  }

  lemma BackwardsStopsDependentsFirst(rel: Relation, order: seq<Id>, out: seq<Id>)
    requires Clean(rel) && Topological(rel, rel.Keys, order)
    requires |out| == |order| && forall i :: 0 <= i < |out| ==> out[i] == order[|order|-1-i]
    ensures StopsDependentsFirst(rel, out)
  {
    var n := |order|;
    forall i, j | 0 <= i < j < |out| ensures !DependsOn(rel, out[j], out[i]) {
      forall via ensures !DependsVia(rel, out[j], out[i], via) {
        if DependsVia(rel, out[j], out[i], via) {
          var to := DependsIsLater(rel, order, out[j], out[i], via, n-1-j);
          assert false;
        }
      }
    }
  }

  /** Exactly the modules that depend on `id`, each before anything it depends on. */
  method TransitiveDependents(g: Graph, id: Id, ghost rel: Relation) returns (out: seq<Id>)
    requires Resolved(rel, g) && Clean(rel)
    ensures forall x :: x in out <==> id in rel && x in rel && DependsOn(rel, x, id)
    ensures StopsDependentsFirst(rel, out) && Distinct(out) && id !in out
  {
    ResolvedParts(rel, g);
    hide *;
    var seen := Walk(g.dependents, id, {}, rel);
    var stop := StopOrder(g);
    BackwardsStopsDependentsFirst(rel, g.order, stop);
    ExactlyDependents(rel, id, seen);
    forall x | x in seen ensures x in stop && x != id { SeenIsStopped(rel, g.order, stop, id, x); }
    ghost var from;
    out, from := InStopOrder(stop, seen);
    KeepsStopOrder(rel, g.order, stop, out, from);
  }

  /** The members of `seen`, in stop order; `from` says where each stood. */
  method InStopOrder(stop: seq<Id>, seen: set<Id>) returns (out: seq<Id>, ghost from: seq<int>)
    ensures |from| == |out|
    ensures forall k :: 0 <= k < |out| ==> 0 <= from[k] < |stop| && out[k] == stop[from[k]] && out[k] in seen
    ensures forall k, l :: 0 <= k < l < |out| ==> from[k] < from[l]
    ensures forall k :: 0 <= k < |stop| && stop[k] in seen ==> stop[k] in out
  {
    out, from := [], [];
    for i := 0 to |stop|
      invariant |from| == |out|
      invariant forall k :: 0 <= k < |out| ==> 0 <= from[k] < i && out[k] == stop[from[k]] && out[k] in seen
      invariant forall k, l :: 0 <= k < l < |out| ==> from[k] < from[l]
      invariant forall k :: 0 <= k < i && stop[k] in seen ==> stop[k] in out
    {
      if stop[i] in seen {
        out, from := out + [stop[i]], from + [i];
      }
    }
  }

  lemma ResolvedParts(rel: Relation, g: Graph)
    requires Resolved(rel, g)
    ensures Topological(rel, rel.Keys, g.order) && DependentsListed(rel, g.dependents)
  {
  }

  lemma KeepsStopOrder(rel: Relation, order: seq<Id>, stop: seq<Id>, out: seq<Id>, from: seq<int>)
    requires Topological(rel, rel.Keys, order) && |stop| == |order|
    requires forall i :: 0 <= i < |stop| ==> stop[i] == order[|order|-1-i]
    requires StopsDependentsFirst(rel, stop) && |from| == |out|
    requires forall k :: 0 <= k < |out| ==> 0 <= from[k] < |stop| && out[k] == stop[from[k]]
    requires forall k, l :: 0 <= k < l < |out| ==> from[k] < from[l]
    ensures StopsDependentsFirst(rel, out) && Distinct(out)
  {
  }

  lemma ExactlyDependents(rel: Relation, id: Id, seen: set<Id>)
    requires Walked(rel, id, {}, seen)
    ensures forall x :: x in seen <==> id in rel && x in rel && DependsOn(rel, x, id)
  {
    forall x | x in rel && id in rel && DependsOn(rel, x, id) ensures x in seen {
      var via :| DependsVia(rel, x, id, via);
      forall y | y in rel && (exists z :: z in seen + {id} && z in DepsOf(rel, y)) ensures y in seen {
        var z :| z in seen + {id} && z in DepsOf(rel, y);
        assert y in DependentsOf(rel, z);
      }
      ClosedHasDependents(rel, seen, x, id, via);
    }
  }

  lemma SeenIsStopped(rel: Relation, order: seq<Id>, stop: seq<Id>, id: Id, x: Id)
    requires Clean(rel) && Topological(rel, rel.Keys, order)
    requires |stop| == |order| && forall i :: 0 <= i < |stop| ==> stop[i] == order[|order|-1-i]
    requires x in rel && DependsOn(rel, x, id)
    ensures x in stop && x != id
  {
    assert x in Elems(order);
    var at :| 0 <= at < |order| && order[at] == x;
    assert stop[|order|-1-at] == x;
    var via :| DependsVia(rel, x, id, via);
    var to := DependsIsLater(rel, order, x, id, via, at);
  }
}
