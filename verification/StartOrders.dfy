/** What a start order is: topological orders of a dependency relation, their
    lexicographic comparison, cycles, and the greedy order that takes the
    lowest startable module first. */
module StartOrders {
  import opened Sorting

  /** Module identifiers; only their total order matters. */
  type Id = nat

  /** For each module, the set of modules it depends on. */
  type Relation = map<Id, set<Id>>

  predicate IdLe(a: Id, b: Id) { a <= b }

  function DepsOf(m: Relation, id: Id): set<Id> {
    if id in m then m[id] else {}
  }

  /** Every dependency is another known module. */
  ghost predicate Clean(m: Relation) {
    forall id :: id in m ==> id !in m[id] && m[id] <= m.Keys
  }

  /** `order` lists exactly `within`, each once, each after its dependencies in `within`. */
  ghost predicate Topological(m: Relation, within: set<Id>, order: seq<Id>) {
    && Distinct(order)
    && Elems(order) == within
    && forall i :: 0 <= i < |order| ==> DepsOf(m, order[i]) * within <= Elems(order[..i])
  }

  predicate LexLe(a: seq<Id>, b: seq<Id>) {
    a == [] || (b != [] && (a[0] < b[0] || (a[0] == b[0] && LexLe(a[1..], b[1..]))))
  }

  /** A closed walk along dependency edges that stays in `within`: the first
      node is repeated at the end, and no other node repeats. */
  ghost predicate Cycle(m: Relation, within: set<Id>, c: seq<Id>) {
    && |c| >= 2 && c[0] == c[|c|-1]
    && Distinct(c[1..])
    && (forall i :: 0 <= i < |c| ==> c[i] in within)
    && (forall i :: 0 <= i < |c| - 1 ==> c[i+1] in DepsOf(m, c[i]))
  }

  ghost predicate Acyclic(m: Relation) {
    forall c :: !Cycle(m, m.Keys, c)
  }

  // ---- cycles and topological orders exclude each other ----

  lemma {:induction false} WalkGoesBack(m: Relation, within: set<Id>, order: seq<Id>, c: seq<Id>, k: nat, at: nat)
    returns (to: nat)
    requires Topological(m, within, order)
    requires forall i :: 0 <= i < |c| ==> c[i] in within
    requires forall i :: 0 <= i < |c| - 1 ==> c[i+1] in DepsOf(m, c[i])
    requires k < |c| && at < |order| && order[at] == c[k]
    ensures to < |order| && order[to] == c[|c|-1]
    ensures k < |c| - 1 ==> to < at
    ensures k == |c| - 1 ==> to == at
    decreases |c| - k
  {
    if k == |c| - 1 {
      to := at;
    } else {
      assert c[k+1] in DepsOf(m, order[at]) * within;
      assert c[k+1] in order[..at];
      var next :| 0 <= next < at && order[next] == c[k+1];
      to := WalkGoesBack(m, within, order, c, k + 1, next);
    }
  }

  /** A set with a topological order contains no cycle. */
  lemma TopologicalExcludesCycle(m: Relation, within: set<Id>, order: seq<Id>, c: seq<Id>)
    requires Topological(m, within, order)
    ensures !Cycle(m, within, c)
  {
    if Cycle(m, within, c) {
      assert c[0] in Elems(order);
      var at :| 0 <= at < |order| && order[at] == c[0];
      var to := WalkGoesBack(m, within, order, c, 0, at);
      assert false;
    }
  }

  // ---- the greedy order ----

  /** Modules not yet placed whose dependencies all are. */
  ghost function Ready(m: Relation, done: set<Id>): set<Id> {
    set id | id in m && id !in done && DepsOf(m, id) <= done
  }

  lemma LeastOf(s: set<Id>) returns (x: Id)
    requires s != {}
    ensures x in s && forall y :: y in s ==> x <= y
    decreases s
  {
    var a :| a in s;
    x := a;
    var t := s - {a};
    if t != {} {
      var z := LeastOf(t);
      x := if z < a then z else a;
    }
    forall y | y in s ensures x <= y { assert y == a || y in t; }
  }

  ghost function Min(s: set<Id>): (x: Id)
    requires s != {}
    ensures x in s && forall y :: y in s ==> x <= y
  {
    assert exists x :: x in s && forall y :: y in s ==> x <= y by { var x := LeastOf(s); }
    var x :| x in s && forall y :: y in s ==> x <= y;
    x
  }

  /** Place the lowest ready module, again and again. */
  ghost function Greedy(m: Relation, done: set<Id>): seq<Id>
    decreases |m.Keys - done|
  {
    var ready := Ready(m, done);
    if ready == {} then []
    else
      var id := Min(ready);
      assert m.Keys - (done + {id}) < m.Keys - done;
      SubsetSmaller(m.Keys - (done + {id}), m.Keys - done);
      [id] + Greedy(m, done + {id})
  }

  lemma SubsetSmaller<T>(a: set<T>, b: set<T>)
    requires a < b
    ensures |a| < |b|
  {
    var rest := b - a;
    assert b == a + rest;
    assert rest != {};
  }

  /** `o` finishes an order whose placed part is `done`. */
  ghost predicate Completes(m: Relation, done: set<Id>, o: seq<Id>)
    decreases o
  {
    if o == [] then m.Keys <= done
    else o[0] in Ready(m, done) && Completes(m, done + {o[0]}, o[1..])
  }

  lemma {:induction false} TopologicalCompletes(m: Relation, order: seq<Id>, k: nat)
    requires Clean(m) && Topological(m, m.Keys, order) && k <= |order|
    ensures Completes(m, Elems(order[..k]), order[k..])
    decreases |order| - k
  {
    if k == |order| {
      assert order[..k] == order;
    } else {
      var id := order[k];
      assert id in Elems(order);
      assert DepsOf(m, id) * m.Keys == DepsOf(m, id);
      assert order[..k+1] == order[..k] + [id];
      assert Elems(order[..k+1]) == Elems(order[..k]) + {id};
      assert order[k..][1..] == order[k+1..];
      TopologicalCompletes(m, order, k + 1);
    }
  }

  /** The greedy order precedes every order that finishes the job. */
  lemma {:induction false} GreedyLeast(m: Relation, done: set<Id>, o: seq<Id>)
    requires Completes(m, done, o)
    ensures LexLe(Greedy(m, done), o)
    decreases |o|
  {
    if Ready(m, done) != {} {
      var id := Min(Ready(m, done));
      assert o != [];
      assert Greedy(m, done) == [id] + Greedy(m, done + {id});
      if o[0] == id {
        GreedyLeast(m, done + {id}, o[1..]);
        assert Greedy(m, done)[1..] == Greedy(m, done + {id});
      }
    }
  }

  lemma {:induction false} LexLeAntisymmetric(a: seq<Id>, b: seq<Id>)
    requires LexLe(a, b) && LexLe(b, a)
    ensures a == b
  {
    if a != [] {
      LexLeAntisymmetric(a[1..], b[1..]);
    }
  }

  /** `order` is the lexicographically least topological order of all modules. */
  ghost predicate LeastOrder(m: Relation, order: seq<Id>) {
    && Topological(m, m.Keys, order)
    && forall o :: Topological(m, m.Keys, o) ==> LexLe(order, o)
  }

  /** There is at most one least order, so it is a function of the relation alone. */
  lemma LeastOrderIsDetermined(m: Relation, a: seq<Id>, b: seq<Id>)
    requires LeastOrder(m, a) && LeastOrder(m, b)
    ensures a == b
  {
    LexLeAntisymmetric(a, b);
  }

  /** The greedy order is the least one, once it places everything. */
  lemma GreedyIsLeast(m: Relation)
    requires Clean(m) && Topological(m, m.Keys, Greedy(m, {}))
    ensures LeastOrder(m, Greedy(m, {}))
  {
    forall o | Topological(m, m.Keys, o) ensures LexLe(Greedy(m, {}), o) {
      TopologicalCompletes(m, o, 0);
      assert o[..0] == [] && o[0..] == o && Elems(o[..0]) == {};
      GreedyLeast(m, {}, o);
    }
  }

  // ---- reachability against the edges ----

  /** `x` depends on `id`, directly or through the dependents in `via`. */
  ghost predicate DependsVia(m: Relation, x: Id, id: Id, via: seq<Id>) {
    && |via| >= 2 && via[0] == id && via[|via|-1] == x
    && (forall i :: 0 <= i < |via| ==> via[i] in m)
    && (forall i :: 0 <= i < |via| - 1 ==> via[i] in DepsOf(m, via[i+1]))
  }

  ghost predicate DependsOn(m: Relation, x: Id, id: Id) {
    exists via :: DependsVia(m, x, id, via)
  }

  /** A set that contains the direct dependents of `id` and of its own members
      contains every transitive dependent. */
  lemma {:induction false} ClosedHasDependents(m: Relation, s: set<Id>, x: Id, id: Id, via: seq<Id>)
    requires DependsVia(m, x, id, via)
    requires forall y :: y in m && (exists z :: z in s + {id} && z in DepsOf(m, y)) ==> y in s
    ensures x in s
    decreases |via|
  {
    var n := |via| - 1;
    if n > 1 {
      assert DependsVia(m, via[n-1], id, via[..n]);
      ClosedHasDependents(m, s, via[n-1], id, via[..n]);
    }
  }
}
