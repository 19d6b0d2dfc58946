/** The coloured depth-first search that names one dependency cycle
    (internal/supervisor/graph.go, findCycle).  Nodes outside `color` are white. */
module CycleSearch {
  import opened Sorting
  import opened StartOrders
  import opened Graph

  datatype Color = Grey | Black

  /** The relation restricted to the unresolved nodes. */
  ghost function Restrict(rel: Relation, remaining: set<Id>): Relation {
    map x | x in rel && x in remaining :: rel[x] * remaining
  }

  ghost predicate Chain(rel: Relation, s: seq<Id>) {
    forall i :: 0 <= i < |s| - 1 ==> s[i] in rel && s[i+1] in rel[s[i]]
  }

  /** The stack is a simple chain of edges whose nodes are the grey ones; the
      black ones are finished, each after its unresolved dependencies. */
  ghost predicate SearchInv(rel: Relation, remaining: set<Id>, color: map<Id, Color>, stack: seq<Id>, finished: seq<Id>) {
    && color.Keys <= remaining <= rel.Keys
    && Distinct(stack) && Chain(rel, stack)
    && (forall x :: x in stack <==> x in color && color[x] == Grey)
    && (forall x :: x in finished <==> x in color && color[x] == Black)
    && FinishedInOrder(rel, remaining, finished)
  }

  ghost predicate FinishedInOrder(rel: Relation, remaining: set<Id>, finished: seq<Id>) {
    && Topological(Restrict(rel, remaining), Elems(finished), finished)
    && forall x :: x in finished ==> x in rel && rel[x] * remaining <= Elems(finished)
  }

  /** `id` may be visited next. */
  ghost predicate Extends(rel: Relation, stack: seq<Id>, id: Id) {
    stack == [] || (stack[|stack|-1] in rel && id in rel[stack[|stack|-1]])
  }

  class Search {
    const remaining: set<Id>
    const deps: map<Id, seq<Id>>
    ghost const rel: Relation
    var color: map<Id, Color>
    var stack: seq<Id>
    var cycle: seq<Id>
    /** Black nodes in the order they were finished. */
    ghost var finished: seq<Id>

    ghost predicate Valid()
      reads this
    {
      DepsListed(rel, deps) && SearchInv(rel, remaining, color, stack, finished) && cycle == []
    }

    constructor (remaining: set<Id>, deps: map<Id, seq<Id>>, ghost rel: Relation)
      requires remaining <= rel.Keys && DepsListed(rel, deps)
      ensures Valid() && stack == [] && finished == [] && color == map[]
      ensures this.remaining == remaining && this.deps == deps && this.rel == rel
    {
      this.remaining, this.deps, this.rel := remaining, deps, rel;
      color, stack, cycle, finished := map[], [], [], [];
    }

    /** Visit `id` and everything unresolved behind it. */
    method Visit(id: Id) returns (found: bool)
      requires Valid() && id in remaining && id !in color && Extends(rel, stack, id)
      modifies this
      ensures found ==> Cycle(rel, remaining, cycle)
      ensures !found ==> Valid() && stack == old(stack)
      ensures !found ==> old(color.Keys) <= color.Keys && old(finished) <= finished && id in finished
      decreases remaining - color.Keys
    {
      hide SearchInv, DepsListed, Cycle, Sort, At;
      found := false;
      PushGrey(rel, remaining, color, stack, finished, id);
      color := color[id := Grey];
      stack := stack + [id];
      ghost var grey := color;
      var neighbours := Sort(IdLe, At(deps, id));
      ListedDeps(rel, deps, id);
      for k := 0 to |neighbours|
        invariant DepsListed(rel, deps) && SearchInv(rel, remaining, color, stack, finished) && cycle == []
        invariant stack == old(stack) + [id]
        invariant grey.Keys <= color.Keys && old(finished) <= finished
        invariant forall x :: x in neighbours[..k] && x in remaining ==> x in finished
      {
        var dep := neighbours[k];
        assert neighbours[..k+1] == neighbours[..k] + [dep];
        assert dep in neighbours;
        if dep !in remaining {
          continue;
        }
        Colored(rel, remaining, color, stack, finished, dep);
        if dep in color && color[dep] == Grey {
          // A grey node is on the stack, so the search below succeeds.
          var at := 0;
          while stack[at] != dep
            invariant at < |stack| && forall j :: 0 <= j < at ==> stack[j] != dep
            decreases |stack| - at
          {
            at := at + 1;
          }
          ChainCloses(rel, remaining, color, stack, finished, at, dep);
          cycle := stack[at..] + [dep];
          found := true;
          return;
        }
        if dep !in color {
          assert id in remaining - old(color.Keys) && id in color.Keys;
          ghost var before := finished;
          found := Visit(dep);
          assert !found ==> forall x :: x in before ==> x in finished;
          if found { return; }
        }
      }
      assert neighbours[..|neighbours|] == neighbours;
      BlackenTop(rel, remaining, color, stack, finished, id);
      stack := stack[..|stack|-1];
      color := color[id := Black];
      finished := finished + [id];
    }
  }

  lemma PushGrey(rel: Relation, remaining: set<Id>, color: map<Id, Color>, stack: seq<Id>, finished: seq<Id>, id: Id)
    requires SearchInv(rel, remaining, color, stack, finished)
    requires id in remaining && id !in color && Extends(rel, stack, id)
    ensures SearchInv(rel, remaining, color[id := Grey], stack + [id], finished)
    ensures id in rel
  {
    assert id !in stack && id !in finished;
    var color', stack' := color[id := Grey], stack + [id];
    forall x ensures x in stack' <==> x in color' && color'[x] == Grey {
      assert x in stack' <==> x in stack || x == id;
    }
    assert Chain(rel, stack');
  }

  lemma BlackenTop(rel: Relation, remaining: set<Id>, color: map<Id, Color>, stack: seq<Id>, finished: seq<Id>, id: Id)
    requires SearchInv(rel, remaining, color, stack, finished)
    requires stack != [] && stack[|stack|-1] == id && id in rel
    requires forall x :: x in rel[id] && x in remaining ==> x in finished
    ensures SearchInv(rel, remaining, color[id := Black], stack[..|stack|-1], finished + [id])
    ensures id in color
  {
    hide Topological, FinishedInOrder, Elems, Restrict;
    assert id in stack;
    FinishNext(rel, remaining, finished, id);
    var color', stack' := color[id := Black], stack[..|stack|-1];
    assert stack == stack' + [id];
    forall x ensures x in stack' <==> x in color' && color'[x] == Grey {
      assert x in stack <==> x in stack' || x == id;
    }
    assert Chain(rel, stack');
  }

  lemma Colored(rel: Relation, remaining: set<Id>, color: map<Id, Color>, stack: seq<Id>, finished: seq<Id>, x: Id)
    requires SearchInv(rel, remaining, color, stack, finished)
    ensures x in color ==> if color[x] == Grey then x in stack else x in finished
  {
  }

  lemma ListedDeps(rel: Relation, deps: map<Id, seq<Id>>, id: Id)
    requires DepsListed(rel, deps) && id in rel
    ensures forall x :: x in Sort(IdLe, At(deps, id)) <==> x in rel[id]
  {
    SortedLists(At(deps, id));
    AllListed(Sort(IdLe, At(deps, id)), rel[id]);
  }

  /** The walk from `dep`, somewhere on the stack, back to itself. */
  lemma ChainCloses(rel: Relation, remaining: set<Id>, color: map<Id, Color>, stack: seq<Id>, finished: seq<Id>, at: nat, dep: Id)
    requires SearchInv(rel, remaining, color, stack, finished)
    requires at < |stack| && stack[at] == dep && Extends(rel, stack, dep)
    ensures Cycle(rel, remaining, stack[at..] + [dep])
  {
    assert forall i :: 0 <= i < |stack| ==> stack[i] in stack;
    var c := stack[at..] + [dep];
    var n := |stack| - at;
    assert |c| == n + 1 && c[n] == dep;
    assert forall i :: 0 <= i < n ==> c[i] == stack[at+i];
    forall i | 0 <= i < |c| - 1 ensures c[i+1] in DepsOf(rel, c[i]) {
      if i < n - 1 { assert c[i+1] == stack[at+i+1]; }
    }
  }

  lemma FinishNext(rel: Relation, remaining: set<Id>, finished: seq<Id>, id: Id)
    requires id !in finished && id in rel && id in remaining
    requires forall x :: x in rel[id] && x in remaining ==> x in finished
    requires FinishedInOrder(rel, remaining, finished)
    ensures FinishedInOrder(rel, remaining, finished + [id])
  {
    var f := finished + [id];
    assert Elems(f) == Elems(finished) + {id};
    var r := Restrict(rel, remaining);
    forall i | 0 <= i < |f| ensures DepsOf(r, f[i]) * Elems(f) <= Elems(f[..i]) {
      assert f[..i] == finished[..i];
      if i < |finished| {
        assert finished[i] in finished;
        assert DepsOf(r, f[i]) <= Elems(finished);
      } else {
        assert finished[..i] == finished;
      }
    }
  }
}
