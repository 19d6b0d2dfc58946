/** The supervisor's dependency graph (internal/supervisor/graph.go): building
    the edges, Kahn's algorithm, the coloured search that names a cycle, and
    the walk that collects transitive dependents. */
module Graph {
  import opened Wrappers
  import opened Sorting
  import opened StartOrders

  datatype Graph = Graph(order: seq<Id>, deps: map<Id, seq<Id>>, dependents: map<Id, seq<Id>>)

  datatype ResolveError =
    | SelfDependency(id: Id)
    | MissingDependency(id: Id, dep: Id)
    | CycleFound(cycle: seq<Id>)

  /** A Go map read: a missing key reads as the empty slice. */
  function At(m: map<Id, seq<Id>>, id: Id): seq<Id> {
    if id in m then m[id] else []
  }

  // ---- the edges ----

  /** For each module, the dependencies its manifest lists, in listed order and
      possibly with repetitions. */
  type Manifests = map<Id, seq<Id>>

  /** The dependency relation alone: no listing order, no repetitions. */
  function RelationOf(m: Manifests): Relation {
    map x | x in m :: Elems(m[x])
  }

  /** The modules that depend directly on `d`. */
  ghost function DependentsOf(rel: Relation, d: Id): set<Id> {
    set x | x in rel && d in rel[x]
  }

  ghost predicate Lists(s: seq<Id>, elems: set<Id>) {
    Distinct(s) && Elems(s) == elems
  }

  ghost predicate DepsListed(rel: Relation, deps: map<Id, seq<Id>>) {
    && deps.Keys <= rel.Keys
    && forall x :: x in rel ==> Lists(At(deps, x), rel[x])
  }

  ghost predicate DependentsListed(rel: Relation, dependents: map<Id, seq<Id>>) {
    && dependents.Keys <= rel.Keys
    && forall d :: d in rel ==> Lists(At(dependents, d), DependentsOf(rel, d))
  }

  /** `deps`, `dependents` and `indegree` are the edges of `rel`. */
  ghost predicate EdgesOf(rel: Relation, deps: map<Id, seq<Id>>, dependents: map<Id, seq<Id>>, indegree: map<Id, int>) {
    DepsListed(rel, deps) && DependentsListed(rel, dependents) && Counts(rel, indegree)
  }

  ghost predicate Counts(pending: Relation, indegree: map<Id, int>) {
    indegree.Keys == pending.Keys && forall x :: x in pending ==> indegree[x] == |pending[x]|
  }

  /** The dependencies that are not yet placed. */
  ghost function Without(rel: Relation, done: set<Id>): Relation {
    map x | x in rel :: rel[x] - done
  }

  ghost predicate FaultAt(m: Manifests, id: Id, k: nat) {
    id in m && k < |m[id]| && (m[id][k] == id || m[id][k] !in m)
  }

  /** The fault a scan in identifier order, then listed order, meets first. */
  ghost predicate FirstFault(m: Manifests, id: Id, k: nat) {
    && FaultAt(m, id, k)
    && (forall x: Id, j: nat :: x < id ==> !FaultAt(m, x, j))
    && NoFaultBefore(m, id, k)
  }

  ghost predicate NoFaultBefore(m: Manifests, id: Id, k: nat) {
    forall j: nat :: j < k ==> !FaultAt(m, id, j)
  }

  /** `e` reports the first fault, and reports it as what it is. */
  ghost predicate ReportsFirstFault(m: Manifests, e: ResolveError) {
    match e
    case SelfDependency(id) => exists k: nat :: FirstFault(m, id, k) && m[id][k] == id
    case MissingDependency(id, dep) => exists k: nat :: FirstFault(m, id, k) && m[id][k] == dep && dep != id
    case CycleFound(_) => false
  }

  lemma ListsMore(s: seq<Id>, elems: set<Id>, x: Id)
    requires Lists(s, elems) && x !in elems
    ensures Lists(s + [x], elems + {x})
  {
    assert x in s ==> x in Elems(s);
    assert Elems(s + [x]) == Elems(s) + {x};
  }

  lemma AddToDeps(rel: Relation, deps: map<Id, seq<Id>>, id: Id, dep: Id)
    requires DepsListed(rel, deps) && id in rel && dep !in rel[id]
    ensures DepsListed(rel[id := rel[id] + {dep}], deps[id := At(deps, id) + [dep]])
  {
    ListsMore(At(deps, id), rel[id], dep);
  }

  lemma AddToDependents(rel: Relation, dependents: map<Id, seq<Id>>, id: Id, dep: Id)
    requires DependentsListed(rel, dependents) && id in rel && dep in rel && dep !in rel[id]
    ensures DependentsListed(rel[id := rel[id] + {dep}], dependents[dep := At(dependents, dep) + [id]])
  {
    var rel' := rel[id := rel[id] + {dep}];
    var dependents' := dependents[dep := At(dependents, dep) + [id]];
    forall d | d in rel' ensures Lists(At(dependents', d), DependentsOf(rel', d)) {
      assert Lists(At(dependents, d), DependentsOf(rel, d));
      if d == dep {
        ListsMore(At(dependents, d), DependentsOf(rel, d), id);
        assert DependentsOf(rel', d) == DependentsOf(rel, d) + {id};
      } else {
        assert DependentsOf(rel', d) == DependentsOf(rel, d);
      }
    }
  }

  lemma AddToCounts(rel: Relation, indegree: map<Id, int>, id: Id, dep: Id)
    requires Counts(rel, indegree) && id in rel && dep !in rel[id]
    ensures Counts(rel[id := rel[id] + {dep}], indegree[id := indegree[id] + 1])
  {
  }

  lemma AddEdge(rel: Relation, deps: map<Id, seq<Id>>, dependents: map<Id, seq<Id>>, indegree: map<Id, int>, id: Id, dep: Id)
    requires EdgesOf(rel, deps, dependents, indegree) && id in rel && dep in rel && dep !in rel[id]
    ensures id in indegree
    ensures EdgesOf(rel[id := rel[id] + {dep}], deps[id := At(deps, id) + [dep]],
                    dependents[dep := At(dependents, dep) + [id]], indegree[id := indegree[id] + 1])
  {
    AddToDeps(rel, deps, id, dep);
    AddToDependents(rel, dependents, id, dep);
    AddToCounts(rel, indegree, id, dep);
  }

  method SortedKeys(keys: set<Id>) returns (ids: seq<Id>)
    ensures Sorted(IdLe, ids) && Lists(ids, keys)
  {
    var rest := keys;
    ids := [];
    while rest != {}
      invariant rest <= keys && Lists(ids, keys - rest)
      decreases rest
    {
      var x :| x in rest;
      assert x !in Elems(ids);
      assert Elems(ids + [x]) == Elems(ids) + {x};
      ids, rest := ids + [x], rest - {x};
    }
    SortedLists(ids);
    ids := Sort(IdLe, ids);
  }

  lemma SortedLists(s: seq<Id>)
    requires Distinct(s)
    ensures Sorted(IdLe, Sort(IdLe, s)) && Lists(Sort(IdLe, s), Elems(s))
  {
    SortSorted(IdLe, s);
    SortDistinct(IdLe, s);
    SameElems(s, Sort(IdLe, s));
  }

  /** What has been read of the manifests: the first `k` modules of `ids`. */
  ghost function Scanned(m: Manifests, ids: seq<Id>, k: nat): Manifests
    requires k <= |ids|
  {
    map x | x in m :: if x in ids[..k] then m[x] else []
  }

  lemma ScannedNext(m: Manifests, ids: seq<Id>, k: nat)
    requires k < |ids| && ids[k] in m && Distinct(ids)
    ensures RelationOf(Scanned(m, ids, k)).Keys == m.Keys && RelationOf(Scanned(m, ids, k))[ids[k]] == {}
    ensures RelationOf(Scanned(m, ids, k))[ids[k] := Elems(m[ids[k]])] == RelationOf(Scanned(m, ids, k + 1))
  {
    assert ids[..k+1] == ids[..k] + [ids[k]];
    assert ids[k] !in ids[..k];
  }

  lemma NothingScanned(m: Manifests, ids: seq<Id>)
    ensures EdgesOf(RelationOf(Scanned(m, ids, 0)), map[], map[], map x | x in m :: 0)
  {
    var rel := RelationOf(Scanned(m, ids, 0));
    forall d | d in rel ensures DependentsOf(rel, d) == {} {
      assert forall x :: x in rel ==> rel[x] == {};
    }
    assert Elems<Id>([]) == {};
  }

  lemma FirstAmongScanned(m: Manifests, ids: seq<Id>, k: nat, j: nat)
    requires Sorted(IdLe, ids) && Lists(ids, m.Keys)
    requires k < |ids|
    requires forall x :: x in ids[..k] && x in m ==> NoFaultBefore(m, x, |m[x]|)
    requires NoFaultBefore(m, ids[k], j)
    requires ids[k] in m && j < |m[ids[k]]| && (m[ids[k]][j] == ids[k] || m[ids[k]][j] !in m)
    ensures ReportsFirstFault(m, if m[ids[k]][j] == ids[k] then SelfDependency(ids[k])
                                 else MissingDependency(ids[k], m[ids[k]][j]))
  {
    assert FaultAt(m, ids[k], j);
    forall x: Id, i: nat | x < ids[k] ensures !FaultAt(m, x, i) {
      if x in m {
        assert x in Elems(ids);
        var p :| 0 <= p < |ids| && ids[p] == x;
        assert p < k;
        assert ids[..k][p] == x;
        assert i < |m[x]| ==> !FaultAt(m, x, i);
      }
    }
    assert FirstFault(m, ids[k], j);
  }

  lemma NoFaultStep(m: Manifests, id: Id, j: nat)
    requires id in m && j < |m[id]| && NoFaultBefore(m, id, j)
    requires m[id][j] != id && m[id][j] in m
    ensures NoFaultBefore(m, id, j + 1)
  {
  }

  lemma NoneListed(m: Manifests, id: Id)
    requires id in m
    ensures Elems(m[id][..0]) == {} && NoFaultBefore(m, id, 0)
  {
  }

  lemma NoFaultIsClean(m: Manifests)
    requires forall x :: x in m ==> NoFaultBefore(m, x, |m[x]|)
    ensures Clean(RelationOf(m))
  {
    forall id | id in m ensures id !in Elems(m[id]) && Elems(m[id]) <= m.Keys {
      forall d | d in m[id] ensures d != id && d in m {
        var j :| 0 <= j < |m[id]| && m[id][j] == d;
        assert !FaultAt(m, id, j);
      }
    }
  }

  method BuildEdges(m: Manifests, ids: seq<Id>)
    returns (fault: Option<ResolveError>, deps: map<Id, seq<Id>>, dependents: map<Id, seq<Id>>, indegree: map<Id, int>)
    requires Sorted(IdLe, ids) && Lists(ids, m.Keys)
    ensures fault.None? ==> Clean(RelationOf(m)) && EdgesOf(RelationOf(m), deps, dependents, indegree)
    ensures fault.Some? ==> ReportsFirstFault(m, fault.value)
  {
    fault, deps, dependents := None, map[], map[];
    indegree := map x | x in m :: 0;
    NothingScanned(m, ids);
    AllListed(ids, m.Keys);
    hide *;
    for k := 0 to |ids|
      invariant fault.None?
      invariant EdgesOf(RelationOf(Scanned(m, ids, k)), deps, dependents, indegree)
      invariant forall x :: x in ids[..k] && x in m ==> NoFaultBefore(m, x, |m[x]|)
    {
      fault, deps, dependents, indegree := BuildEdgesOf(m, ids, k, deps, dependents, indegree);
      if fault.Some? { return; }
      assert ids[..k+1] == ids[..k] + [ids[k]];
      ScannedNext(m, ids, k);
    }
    assert ids[..|ids|] == ids;
    AllScanned(m, ids);
    NoFaultIsClean(m);
  }

  lemma AllListed(s: seq<Id>, elems: set<Id>)
    requires Lists(s, elems)
    ensures Distinct(s)
    ensures forall x :: x in s <==> x in elems
  {
    forall x ensures x in s <==> x in elems { assert x in Elems(s) <==> x in s; }
  }

  lemma AllScanned(m: Manifests, ids: seq<Id>)
    requires forall x :: x in ids <==> x in m.Keys
    ensures Scanned(m, ids, |ids|) == m
  {
    assert ids[..|ids|] == ids;
  }

  /** One module's dependency list. */
  method BuildEdgesOf(m: Manifests, ids: seq<Id>, k: nat,
                      deps0: map<Id, seq<Id>>, dependents0: map<Id, seq<Id>>, indegree0: map<Id, int>)
    returns (fault: Option<ResolveError>, deps: map<Id, seq<Id>>, dependents: map<Id, seq<Id>>, indegree: map<Id, int>)
    requires Sorted(IdLe, ids) && Distinct(ids) && Lists(ids, m.Keys) && k < |ids| && ids[k] in m
    requires EdgesOf(RelationOf(Scanned(m, ids, k)), deps0, dependents0, indegree0)
    requires forall x :: x in ids[..k] && x in m ==> NoFaultBefore(m, x, |m[x]|)
    ensures fault.None? ==> EdgesOf(RelationOf(Scanned(m, ids, k))[ids[k] := Elems(m[ids[k]])], deps, dependents, indegree)
    ensures fault.None? ==> NoFaultBefore(m, ids[k], |m[ids[k]]|)
    ensures fault.Some? ==> ReportsFirstFault(m, fault.value)
  {
    hide *;
    fault, deps, dependents, indegree := None, deps0, dependents0, indegree0;
    var id := ids[k];
    var seen: set<Id> := {};
    ghost var base := RelationOf(Scanned(m, ids, k));
    ghost var partial := base;
    ScannedNext(m, ids, k);
    assert base[id := {}] == base;
    NoneListed(m, id);
    for j := 0 to |m[id]|
      invariant fault.None? && seen == Elems(m[id][..j])
      invariant partial == base[id := seen]
      invariant EdgesOf(partial, deps, dependents, indegree)
      invariant NoFaultBefore(m, id, j)
    {
      var dep := m[id][j];
      ElemsNext(m[id], j);
      if dep == id {
        FirstAmongScanned(m, ids, k, j);
        fault := Some(SelfDependency(id));
        return;
      }
      if dep !in m {
        FirstAmongScanned(m, ids, k, j);
        fault := Some(MissingDependency(id, dep));
        return;
      }
      NoFaultStep(m, id, j);
      if dep in seen {
        assert seen + {dep} == seen;
      } else {
        AddEdge(partial, deps, dependents, indegree, id, dep);
        seen := seen + {dep};
        deps := deps[id := At(deps, id) + [dep]];
        dependents := dependents[dep := At(dependents, dep) + [id]];
        indegree := indegree[id := indegree[id] + 1];
      }
      partial := partial[id := seen];
    }
    assert m[id][..|m[id]|] == m[id];
  }

  // ---- Kahn's algorithm ----

  /** `ready` lists the unplaced modules whose count is zero. */
  ghost predicate ReadyIs(done: set<Id>, indegree: map<Id, int>, ready: seq<Id>) {
    Lists(ready, set x | x in indegree && x !in done && indegree[x] == 0)
  }

  lemma ReadyIsReady(rel: Relation, done: set<Id>, indegree: map<Id, int>, ready: seq<Id>)
    requires Counts(Without(rel, done), indegree) && ReadyIs(done, indegree, ready)
    ensures Lists(ready, Ready(rel, done))
  {
    ReadyMeansZero(rel, done, indegree);
  }

  /** The pending dependencies once `id` is crossed off for the modules in `lowered`. */
  ghost function CrossedOff(rel: Relation, done: set<Id>, id: Id, lowered: set<Id>): Relation {
    map x | x in rel :: if x in lowered then rel[x] - (done + {id}) else rel[x] - done
  }

  lemma CrossOffOne(rel: Relation, done: set<Id>, id: Id, lowered: set<Id>, dep: Id, indegree: map<Id, int>)
    requires Counts(CrossedOff(rel, done, id, lowered), indegree)
    requires dep in DependentsOf(rel, id) - lowered && id !in done
    ensures dep in indegree && indegree[dep] > 0
    ensures Counts(CrossedOff(rel, done, id, lowered + {dep}), indegree[dep := indegree[dep] - 1])
  {
    assert rel[dep] - (done + {id}) == (rel[dep] - done) - {id};
    assert id in rel[dep] - done;
  }

  lemma CrossOffAll(rel: Relation, done: set<Id>, id: Id)
    ensures CrossedOff(rel, done, id, {}) == Without(rel, done)
    ensures CrossedOff(rel, done, id, DependentsOf(rel, id)) == Without(rel, done + {id})
  {
    forall x | x in rel && x !in DependentsOf(rel, id) ensures rel[x] - done == rel[x] - (done + {id}) {
    }
  }

  /** Lowering one positive count adds `dep` to the zeroes, or leaves them alone. */
  lemma ReadyStep(done: set<Id>, indegree: map<Id, int>, ready: seq<Id>, dep: Id)
    requires ReadyIs(done, indegree, ready) && dep in indegree && dep !in done && indegree[dep] > 0
    ensures ReadyIs(done, indegree[dep := indegree[dep] - 1], if indegree[dep] == 1 then ready + [dep] else ready)
  {
    var zero := set x | x in indegree && x !in done && indegree[x] == 0;
    var indegree' := indegree[dep := indegree[dep] - 1];
    var zero' := set x | x in indegree' && x !in done && indegree'[x] == 0;
    if indegree[dep] == 1 {
      ListsMore(ready, zero, dep);
      assert zero' == zero + {dep};
    } else {
      assert zero' == zero;
    }
  }

  lemma DependentsUnplaced(rel: Relation, done: set<Id>, id: Id)
    requires id in rel && id !in done && id !in rel[id]
    requires forall x :: x in done && x in rel ==> rel[x] <= done
    ensures DependentsOf(rel, id) !! done + {id}
  {
  }

  /** Placing `id` lowers the count of exactly its dependents. */
  method Release(ghost rel: Relation, ghost done: set<Id>, id: Id, dependents: seq<Id>, indegree0: map<Id, int>, ready0: seq<Id>)
    returns (indegree: map<Id, int>, ready: seq<Id>)
    requires id in rel && id !in done && id !in rel[id]
    requires forall x :: x in done && x in rel ==> rel[x] <= done
    requires Counts(Without(rel, done), indegree0) && Lists(dependents, DependentsOf(rel, id))
    requires ReadyIs(done + {id}, indegree0, ready0)
    ensures Counts(Without(rel, done + {id}), indegree) && ReadyIs(done + {id}, indegree, ready)
  {
    hide *;
    indegree, ready := indegree0, ready0;
    ghost var lowered: set<Id> := {};
    CrossOffAll(rel, done, id);
    AllListed(dependents, DependentsOf(rel, id));
    DependentsUnplaced(rel, done, id);
    NoElems(dependents);
    for k := 0 to |dependents|
      invariant lowered == Elems(dependents[..k])
      invariant Counts(CrossedOff(rel, done, id, lowered), indegree)
      invariant ReadyIs(done + {id}, indegree, ready)
    {
      var dep := dependents[k];
      NextDistinct(dependents, k);
      CrossOffOne(rel, done, id, lowered, dep, indegree);
      ReadyStep(done + {id}, indegree, ready, dep);
      indegree := indegree[dep := indegree[dep] - 1];
      if indegree[dep] == 0 {
        ready := ready + [dep];
      }
      lowered := lowered + {dep};
    }
    assert dependents[..|dependents|] == dependents;
    ListedElems(dependents, DependentsOf(rel, id));
  }

  lemma NoElems(s: seq<Id>)
    ensures Elems(s[..0]) == {}
  {
  }

  lemma ListedElems(s: seq<Id>, elems: set<Id>)
    requires Lists(s, elems)
    ensures Elems(s) == elems
  {
  }

  lemma ElemsNext(s: seq<Id>, k: nat)
    requires k < |s|
    ensures s[k] in Elems(s)
    ensures Elems(s[..k+1]) == Elems(s[..k]) + {s[k]}
    ensures Elems(s[..0]) == {}
  {
    assert s[..k+1] == s[..k] + [s[k]];
  }

  lemma NextDistinct(s: seq<Id>, k: nat)
    requires Distinct(s) && k < |s|
    ensures s[k] in Elems(s) && s[k] !in Elems(s[..k])
    ensures Elems(s[..k+1]) == Elems(s[..k]) + {s[k]}
  {
    assert s[..k+1] == s[..k] + [s[k]];
  }

  /** Placed modules, in an order that respects the relation. */
  ghost predicate PlacedInOrder(rel: Relation, done: set<Id>, order: seq<Id>) {
    && done <= rel.Keys && Topological(rel, done, order)
    && forall x :: x in done && x in rel ==> rel[x] <= done
  }

  /** What Kahn's loop keeps. */
  ghost predicate KahnInv(rel: Relation, order: seq<Id>, indegree: map<Id, int>, ready: seq<Id>) {
    && PlacedInOrder(rel, Elems(order), order)
    && Counts(Without(rel, Elems(order)), indegree) && ReadyIs(Elems(order), indegree, ready)
    && order + Greedy(rel, Elems(order)) == Greedy(rel, {})
  }

  lemma KahnBegins(rel: Relation, indegree: map<Id, int>, ready: seq<Id>)
    requires Counts(rel, indegree) && ReadyIs({}, indegree, ready)
    ensures KahnInv(rel, [], indegree, ready)
  {
    hide Greedy, Ready;
    NothingPlaced(rel);
    assert Elems<Id>([]) == {};
    assert [] + Greedy(rel, {}) == Greedy(rel, {});
  }

  /** The sorted ready list starts with the greedy choice, which can be placed. */
  lemma KahnTakes(rel: Relation, order: seq<Id>, indegree: map<Id, int>, ready: seq<Id>)
    requires Clean(rel) && KahnInv(rel, order, indegree, ready) && ready != []
    ensures Sort(IdLe, ready) != []
    ensures var id := Sort(IdLe, ready)[0]; var done := Elems(order);
      && id in rel && id !in done && id !in rel[id]
      && (forall x :: x in done && x in rel ==> rel[x] <= done)
      && ReadyIs(done + {id}, indegree, Sort(IdLe, ready)[1..])
      && Elems(order + [id]) == done + {id}
      && PlacedInOrder(rel, done + {id}, order + [id])
      && order + [id] + Greedy(rel, done + {id}) == Greedy(rel, {})
      && rel.Keys - (done + {id}) < rel.Keys - done
  {
    hide Greedy, Ready, Topological, Counts, Lists, Distinct, Sort;
    var done := Elems(order);
    ReadyIsReady(rel, done, indegree, ready);
    ListedElems(ready, Ready(rel, done));
    SortedLists(ready);
    var sorted := Sort(IdLe, ready);
    var id := sorted[0];
    PopLeast(rel, done, sorted);
    StillReady(rel, done, id, indegree, sorted[1..]);
    PlaceNext(rel, order, id);
    assert order + [id] + Greedy(rel, done + {id}) == order + ([id] + Greedy(rel, done + {id}));
    assert id in rel.Keys - done;
  }

  lemma KahnEnds(rel: Relation, order: seq<Id>, indegree: map<Id, int>)
    requires KahnInv(rel, order, indegree, [])
    ensures Ready(rel, Elems(order)) == {} && order == Greedy(rel, {})
  {
    ReadyIsReady(rel, Elems(order), indegree, []);
    assert Elems<Id>([]) == {};
    assert Greedy(rel, Elems(order)) == [];
    assert order + [] == order;
  }

  lemma KahnCounts(rel: Relation, order: seq<Id>, indegree: map<Id, int>, ready: seq<Id>)
    requires KahnInv(rel, order, indegree, ready)
    ensures Counts(Without(rel, Elems(order)), indegree)
  {
  }

  lemma KahnContinues(rel: Relation, order: seq<Id>, indegree: map<Id, int>, ready: seq<Id>)
    requires PlacedInOrder(rel, Elems(order), order)
    requires Counts(Without(rel, Elems(order)), indegree) && ReadyIs(Elems(order), indegree, ready)
    requires order + Greedy(rel, Elems(order)) == Greedy(rel, {})
    ensures KahnInv(rel, order, indegree, ready)
  {
  }

  lemma SortedDependents(rel: Relation, dependents: map<Id, seq<Id>>, id: Id)
    requires DependentsListed(rel, dependents) && id in rel
    ensures Lists(Sort(IdLe, At(dependents, id)), DependentsOf(rel, id))
  {
    SortedLists(At(dependents, id));
  }

  method Kahn(ghost rel: Relation, ids: seq<Id>, dependents: map<Id, seq<Id>>, indegree0: map<Id, int>)
    returns (order: seq<Id>, indegree: map<Id, int>)
    requires Clean(rel) && Lists(ids, rel.Keys) && Counts(rel, indegree0)
    requires DependentsListed(rel, dependents)
    ensures order == Greedy(rel, {}) && Ready(rel, Elems(order)) == {}
    ensures KahnInv(rel, order, indegree, [])
  {
    assert indegree0.Keys == rel.Keys;
    hide *;
    indegree := indegree0;
    var ready := InitiallyReady(rel, ids, indegree);
    order := [];
    KahnBegins(rel, indegree, ready);
    while ready != []
      invariant KahnInv(rel, order, indegree, ready)
      decreases rel.Keys - Elems(order)
    {
      KahnTakes(rel, order, indegree, ready);
      ghost var done := Elems(order);
      assert Counts(Without(rel, done), indegree) by { KahnCounts(rel, order, indegree, ready); }
      ready := Sort(IdLe, ready);
      var id := ready[0];
      SortedDependents(rel, dependents, id);
      indegree, ready := Release(rel, Elems(order), id, Sort(IdLe, At(dependents, id)), indegree, ready[1..]);
      order := order + [id];
      KahnContinues(rel, order, indegree, ready);
    }
    KahnEnds(rel, order, indegree);
  }

  lemma NothingPlaced(rel: Relation)
    ensures Without(rel, {}) == rel
  {
    assert forall x :: x in rel ==> rel[x] - {} == rel[x];
  }

  lemma StillReady(rel: Relation, done: set<Id>, id: Id, indegree: map<Id, int>, ready: seq<Id>)
    requires Counts(Without(rel, done), indegree) && Lists(ready, Ready(rel, done) - {id})
    ensures ReadyIs(done + {id}, indegree, ready)
  {
    var zero := set x | x in indegree && x !in done && indegree[x] == 0;
    ReadyMeansZero(rel, done, indegree);
    assert (set x | x in indegree && x !in done + {id} && indegree[x] == 0) == zero - {id};
  }

  lemma ReadyMeansZero(rel: Relation, done: set<Id>, indegree: map<Id, int>)
    requires Counts(Without(rel, done), indegree)
    ensures Ready(rel, done) == set x | x in indegree && x !in done && indegree[x] == 0
  {
    forall x | x in rel ensures indegree[x] == 0 <==> rel[x] <= done {
      var rest := Without(rel, done)[x];
      assert |rest| == 0 <==> rest == {};
      if rest == {} {
        forall d | d in rel[x] ensures d in done { assert d !in rest; }
      }
    }
  }

  method InitiallyReady(ghost rel: Relation, ids: seq<Id>, indegree: map<Id, int>) returns (ready: seq<Id>)
    requires Lists(ids, rel.Keys) && indegree.Keys == rel.Keys
    ensures ReadyIs({}, indegree, ready)
  {
    ready := [];
    ghost var zero: set<Id> := {};
    for k := 0 to |ids|
      invariant Lists(ready, zero)
      invariant zero == set x | x in Elems(ids[..k]) && x in indegree && indegree[x] == 0
    {
      NextDistinct(ids, k);
      if indegree[ids[k]] == 0 {
        ListsMore(ready, zero, ids[k]);
        ready, zero := ready + [ids[k]], zero + {ids[k]};
      }
    }
    assert ids[..|ids|] == ids;
    assert zero == set x | x in indegree && x !in {} && indegree[x] == 0;
  }

  /** The head of the sorted ready list is the greedy choice. */
  lemma PopLeast(rel: Relation, done: set<Id>, ready: seq<Id>)
    requires Sorted(IdLe, ready) && Lists(ready, Ready(rel, done)) && ready != []
    ensures Ready(rel, done) != {} && ready[0] == Min(Ready(rel, done))
    ensures Lists(ready[1..], Ready(rel, done) - {ready[0]})
    ensures Greedy(rel, done) == [ready[0]] + Greedy(rel, done + {ready[0]})
  {
    assert ready[0] in Elems(ready);
    var least := Min(Ready(rel, done));
    assert least in Elems(ready);
    var k :| 0 <= k < |ready| && ready[k] == least;
    assert IdLe(ready[0], ready[k]);
    forall x ensures x in ready[1..] <==> x in ready && x != ready[0] {
      if x in ready && x != ready[0] {
        var i :| 0 <= i < |ready| && ready[i] == x;
        assert ready[1..][i-1] == x;
      }
    }
  }

  lemma PlaceNext(rel: Relation, order: seq<Id>, id: Id)
    requires PlacedInOrder(rel, Elems(order), order) && id in Ready(rel, Elems(order))
    ensures Elems(order + [id]) == Elems(order) + {id}
    ensures PlacedInOrder(rel, Elems(order) + {id}, order + [id])
    ensures id in rel && id !in Elems(order)
  {
    var o := order + [id];
    assert Elems(o) == Elems(order) + {id};
    forall i | 0 <= i < |o| ensures DepsOf(rel, o[i]) * Elems(o) <= Elems(o[..i]) {
      assert o[..i] == order[..i];
      if i < |order| {
        assert order[i] in order;
        assert DepsOf(rel, order[i]) * Elems(o) == DepsOf(rel, order[i]) * Elems(order);
      } else {
        assert order[..i] == order;
      }
    }
  }
}
