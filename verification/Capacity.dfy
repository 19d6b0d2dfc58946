/** Admission of one cycle's candidates under the caps
    (internal/modules/discovery/topology.go, capacity.apply). */
module Capacity {
  import opened Sorting

  datatype Kind =
    | RuntimeKind | CloudInstance | KubernetesPod | Service | Container
    | NetworkEndpoint | NetworkInterface | Filesystem | Process | OtherKind(name: nat)

  /** Entity keys under an abstract total order; 0 is the empty key. */
  type Key = nat

  datatype Attr = Attr(key: nat, value: nat)

  datatype Candidate = Candidate(kind: Kind, key: Key, rank: int, attrs: seq<Attr>, resolvedID: nat)

  datatype Caps = Caps(total: int, perKind: map<Kind, int>)

  /** Lower is kept first when the table as a whole is short. */
  function KindPriority(k: Kind): nat {
    match k
    case RuntimeKind => 0
    case CloudInstance => 0
    case KubernetesPod => 0
    case Service => 1
    case Container => 2
    case NetworkEndpoint => 3
    case NetworkInterface => 4
    case Filesystem => 5
    case Process => 6
    case OtherKind(_) => 7
  }

  predicate RankLe(a: Candidate, b: Candidate) {
    var pa, pb := KindPriority(a.kind), KindPriority(b.kind);
    if pa != pb then pa < pb
    else if a.rank != b.rank then a.rank < b.rank
    else a.key <= b.key
  }

  lemma RankIsPreorder()
    ensures TotalPreorder(RankLe)
  {
  }

  // ---- the greedy filter ----

  function CountKind(s: seq<Candidate>, k: Kind): nat {
    if s == [] then 0 else CountKind(s[..|s|-1], k) + if s[|s|-1].kind == k then 1 else 0
  }

  /** The kind still has room. */
  predicate KindFits(kept: seq<Candidate>, k: Kind, caps: Caps) {
    k in caps.perKind && caps.perKind[k] > 0 ==> CountKind(kept, k) < caps.perKind[k]
  }

  predicate TableFits(kept: seq<Candidate>, caps: Caps) {
    caps.total > 0 ==> |kept| < caps.total
  }

  predicate Fits(kept: seq<Candidate>, c: Candidate, caps: Caps) {
    KindFits(kept, c.kind, caps) && TableFits(kept, caps)
  }

  /** Take each candidate in turn if it still fits. */
  function Greedy(s: seq<Candidate>, caps: Caps): seq<Candidate> {
    if s == [] then []
    else
      var kept := Greedy(s[..|s|-1], caps);
      var c := s[|s|-1];
      if Fits(kept, c, caps) then kept + [c] else kept
  }

  /** What is tracked: the greedy choice from the candidates in rank order. */
  function Admitted(s: seq<Candidate>, caps: Caps): seq<Candidate> {
    Greedy(Sort(RankLe, s), caps)
  }

  lemma GreedyStep(s: seq<Candidate>, i: nat, caps: Caps)
    requires i < |s|
    ensures Greedy(s[..i+1], caps) ==
      if Fits(Greedy(s[..i], caps), s[i], caps) then Greedy(s[..i], caps) + [s[i]] else Greedy(s[..i], caps)
  {
    assert s[..i+1][..i] == s[..i];
  }

  lemma CountStep(s: seq<Candidate>, c: Candidate, k: Kind)
    ensures CountKind(s + [c], k) == CountKind(s, k) + if c.kind == k then 1 else 0
  {
    assert (s + [c])[..|s|] == s;
  }

  ghost predicate Tallies(perKind: map<Kind, nat>, kept: seq<Candidate>) {
    forall k :: (if k in perKind then perKind[k] else 0) == CountKind(kept, k)
  }

  lemma TallyIs(perKind: map<Kind, nat>, kept: seq<Candidate>, c: Candidate, caps: Caps)
    requires Tallies(perKind, kept)
    ensures var taken := if c.kind in perKind then perKind[c.kind] else 0;
      && Tallies(perKind[c.kind := taken + 1], kept + [c])
      && (Fits(kept, c, caps) <==>
            !(c.kind in caps.perKind && caps.perKind[c.kind] > 0 && taken >= caps.perKind[c.kind])
            && !(caps.total > 0 && |kept| >= caps.total))
  {
    forall k ensures CountKind(kept + [c], k) == CountKind(kept, k) + if c.kind == k then 1 else 0 { CountStep(kept, c, k); }
    hide CountKind;
  }

  /** Sort the candidates, then compact the ones that fit to the front of the
      same slice; the rest of the slice is left over. */
  method Apply(a: array<Candidate>, caps: Caps) returns (kept: nat, dropped: nat)
    modifies a
    ensures kept <= a.Length && a[..kept] == Admitted(old(a[..]), caps)
    ensures kept + dropped == a.Length
  {
    SortInPlace(a);
    ghost var sorted := a[..];
    var perKind: map<Kind, nat> := map[];
    kept, dropped := 0, 0;
    assert Tallies(perKind, a[..kept]);
    hide Admitted, Fits, RankLe, Sort, Tallies;
    assert Greedy(sorted[..0], caps) == [];
    for i := 0 to a.Length
      invariant kept <= i && kept + dropped == i
      invariant a[..kept] == Greedy(sorted[..i], caps) && a[i..] == sorted[i..]
      invariant Tallies(perKind, a[..kept])
    {
      GreedyStep(sorted, i, caps);
      var c := Peek(a, i, sorted);
      var taken := if c.kind in perKind then perKind[c.kind] else 0;
      TallyIs(perKind, a[..kept], c, caps);
      if c.kind in caps.perKind && caps.perKind[c.kind] > 0 && taken >= caps.perKind[c.kind] {
        dropped := dropped + 1;
      } else if caps.total > 0 && kept >= caps.total {
        dropped := dropped + 1;
      } else {
        perKind := perKind[c.kind := taken + 1];
        Compact(a, kept, i);
        kept := kept + 1;
      }
    }
    assert sorted[..a.Length] == sorted;
  }

  method Peek(a: array<Candidate>, i: nat, ghost sorted: seq<Candidate>) returns (c: Candidate)
    requires i < a.Length == |sorted| && a[i..] == sorted[i..]
    ensures c == a[i] == sorted[i] && a[i+1..] == sorted[i+1..]
  {
    c := a[i];
    assert a[i..][0] == sorted[i..][0];
    assert a[i+1..] == a[i..][1..] && sorted[i+1..] == sorted[i..][1..];
  }

  /** Move the `i`-th element to the end of the kept ones. */
  method Compact(a: array<Candidate>, kept: nat, i: nat)
    requires kept <= i < a.Length
    modifies a
    ensures a[..kept+1] == old(a[..kept]) + [old(a[i])] && a[i+1..] == old(a[i+1..])
  {
    a[kept] := a[i];
  }

  /** The library's stable sort. */
  method SortInPlace(a: array<Candidate>)
    modifies a
    ensures a[..] == Sort(RankLe, old(a[..]))
  {
    var sorted := Sort(RankLe, a[..]);
    forall i | 0 <= i < a.Length { a[i] := sorted[i]; }
    assert a[..] == sorted;
  }

  // ---- what the filter guarantees ----

  /** Neither cap is exceeded. */
  lemma {:induction false} CapsHold(s: seq<Candidate>, caps: Caps)
    ensures caps.total > 0 ==> |Greedy(s, caps)| <= caps.total
    ensures forall k :: k in caps.perKind && caps.perKind[k] > 0 ==> CountKind(Greedy(s, caps), k) <= caps.perKind[k]
  {
    if s != [] {
      var c := s[|s|-1];
      CapsHold(s[..|s|-1], caps);
      forall k | k in caps.perKind && caps.perKind[k] > 0
        ensures CountKind(Greedy(s, caps), k) <= caps.perKind[k]
      {
        CountStep(Greedy(s[..|s|-1], caps), c, k);
      }
    }
  }

  function OfKind(s: seq<Candidate>, k: Kind): seq<Candidate> {
    if s == [] then []
    else OfKind(s[..|s|-1], k) + if s[|s|-1].kind == k then [s[|s|-1]] else []
  }

  lemma OfKindStep(s: seq<Candidate>, c: Candidate, k: Kind)
    ensures OfKind(s + [c], k) == OfKind(s, k) + if c.kind == k then [c] else []
  {
    assert (s + [c])[..|s|] == s;
  }

  lemma {:induction false} OfKindCounts(s: seq<Candidate>, k: Kind)
    ensures |OfKind(s, k)| == CountKind(s, k)
  {
    if s != [] { OfKindCounts(s[..|s|-1], k); }
  }

  lemma {:induction false} KeepsPrefix(s: seq<Candidate>, caps: Caps, k: Kind)
    ensures OfKind(Greedy(s, caps), k) <= OfKind(s, k)
    ensures OfKind(Greedy(s, caps), k) != OfKind(s, k) ==>
      !KindFits(Greedy(s, caps), k, caps) || !TableFits(Greedy(s, caps), caps)
  {
    if s != [] {
      var t, c := s[..|s|-1], s[|s|-1];
      var kept := Greedy(t, caps);
      KeepsPrefix(t, caps, k);
      OfKindStep(kept, c, k);
      CountStep(kept, c, k);
      assert s == t + [c];
      OfKindStep(t, c, k);
      if c.kind == k && Fits(kept, c, caps) {
        assert OfKind(kept, k) == OfKind(t, k);
      }
    }
  }

  /** Each kind keeps exactly a prefix of its candidates in rank order, no longer
      than its cap, and if it lost any, the kind or the table is full. */
  lemma KindKeepsPrefix(s: seq<Candidate>, caps: Caps, k: Kind)
    ensures OfKind(Greedy(s, caps), k) <= OfKind(s, k)
    ensures k in caps.perKind && caps.perKind[k] > 0 ==> |OfKind(Greedy(s, caps), k)| <= caps.perKind[k]
    ensures OfKind(Greedy(s, caps), k) != OfKind(s, k) ==>
      !KindFits(Greedy(s, caps), k, caps) || !TableFits(Greedy(s, caps), caps)
  {
    hide Greedy, OfKind, CountKind, KindFits, TableFits;
    KeepsPrefix(s, caps, k);
    OfKindCounts(Greedy(s, caps), k);
    CapsHold(s, caps);
  }

  /** A candidate is left out only if its kind or the table is full. */
  lemma DropMeansFull(s: seq<Candidate>, caps: Caps, c: Candidate)
    requires c in s && c !in Greedy(s, caps)
    ensures !KindFits(Greedy(s, caps), c.kind, caps) || !TableFits(Greedy(s, caps), caps)
  {
    KindKeepsPrefix(s, caps, c.kind);
    OfKindHas(s, c);
    if OfKind(Greedy(s, caps), c.kind) == OfKind(s, c.kind) {
      OfKindOnly(Greedy(s, caps), c.kind, c);
    }
  }

  lemma {:induction false} OfKindHas(s: seq<Candidate>, c: Candidate)
    requires c in s
    ensures c in OfKind(s, c.kind)
  {
    if c != s[|s|-1] { OfKindHas(s[..|s|-1], c); }
  }

  lemma {:induction false} OfKindOnly(s: seq<Candidate>, k: Kind, c: Candidate)
    requires c in OfKind(s, k)
    ensures c in s && c.kind == k
  {
    if c in OfKind(s[..|s|-1], k) { OfKindOnly(s[..|s|-1], k, c); }
  }

  // ---- what is kept, in plain numbers ----

  /** Kinds from the most important to the least; those of the first three, and all
      other kinds, are alike. */
  predicate AtLeastAsImportant(a: Kind, b: Kind) {
    var first := {RuntimeKind, CloudInstance, KubernetesPod};
    || a in first
    || (a == Service && b !in first)
    || (a == Container && b !in first + {Service})
    || (a == NetworkEndpoint && b !in first + {Service, Container})
    || (a == NetworkInterface && b !in first + {Service, Container, NetworkEndpoint})
    || (a == Filesystem && b !in first + {Service, Container, NetworkEndpoint, NetworkInterface})
    || (a == Process && (b == Process || b.OtherKind?))
    || b.OtherKind?
  }

  /** How many of `s` are of kind `k`. */
  ghost function HowMany(s: seq<Candidate>, k: Kind): nat {
    |Places(s, k)|
  }

  ghost function Places(s: seq<Candidate>, k: Kind): set<int> {
    set i | 0 <= i < |s| && s[i].kind == k
  }

  lemma {:induction false} HowManyCounted(s: seq<Candidate>, k: Kind)
    ensures HowMany(s, k) == CountKind(s, k)
  {
    if s == [] {
      assert Places(s, k) == {};
    } else {
      var n := |s| - 1;
      HowManyCounted(s[..n], k);
      PlacesMore(s, k);
    }
  }

  lemma PlacesMore(s: seq<Candidate>, k: Kind)
    requires s != []
    ensures var n := |s| - 1;
      Places(s, k) == (if s[n].kind == k then Places(s[..n], k) + {n} else Places(s[..n], k)) && n !in Places(s[..n], k)
  {
    var n := |s| - 1;
    assert forall i :: 0 <= i < n ==> s[..n][i] == s[i];
  }

  lemma {:induction false} GreedyElems(s: seq<Candidate>, caps: Caps, d: Candidate) returns (j: nat)
    requires d in Greedy(s, caps)
    ensures j < |s| && s[j] == d
  {
    if d == s[|s|-1] { j := |s| - 1; } else { j := GreedyElems(s[..|s|-1], caps, d); }
  }

  /** What the greedy filter turned away at `i` stays away, and so does everything
      later that the same cap concerns. */
  lemma {:induction false} TurnedAway(s: seq<Candidate>, caps: Caps, i: nat, d: Candidate) returns (j: nat)
    requires i < |s| && !Fits(Greedy(s[..i], caps), s[i], caps) && d in Greedy(s, caps)
    requires d.kind == s[i].kind || !TableFits(Greedy(s[..i], caps), caps)
    ensures j < i && s[j] == d
    decreases |s|
  {
    var n := |s| - 1;
    if i == n {
      j := GreedyElems(s[..i], caps, d);
    } else {
      assert s[..n][..i] == s[..i];
      StaysFull(s[..n], caps, i);
      if d in Greedy(s[..n], caps) { j := TurnedAway(s[..n], caps, i, d); }
    }
  }

  lemma {:induction false} GreedyPrefix(s: seq<Candidate>, caps: Caps, i: nat)
    requires i <= |s|
    ensures Greedy(s[..i], caps) <= Greedy(s, caps)
    decreases |s|
  {
    hide Fits;
    if i == |s| {
      assert s[..i] == s;
    } else {
      assert s[..|s|-1][..i] == s[..i];
      GreedyPrefix(s[..|s|-1], caps, i);
    }
  }

  lemma {:induction false} CountPrefix(a: seq<Candidate>, b: seq<Candidate>, k: Kind)
    requires a <= b
    ensures CountKind(a, k) <= CountKind(b, k)
    decreases |b|
  {
    if a == b { return; }
    CountPrefix(a, b[..|b|-1], k);
  }

  lemma StaysFull(s: seq<Candidate>, caps: Caps, i: nat)
    requires i <= |s|
    ensures forall k :: !KindFits(Greedy(s[..i], caps), k, caps) ==> !KindFits(Greedy(s, caps), k, caps)
    ensures !TableFits(Greedy(s[..i], caps), caps) ==> !TableFits(Greedy(s, caps), caps)
    ensures Greedy(s[..i], caps) <= Greedy(s, caps)
  {
    hide Greedy, CountKind;
    GreedyPrefix(s, caps, i);
    forall k ensures CountKind(Greedy(s[..i], caps), k) <= CountKind(Greedy(s, caps), k) {
      CountPrefix(Greedy(s[..i], caps), Greedy(s, caps), k);
    }
  }

  /** Among candidates in rank order. */
  lemma SortedKeeps(s: seq<Candidate>, caps: Caps, c: Candidate, d: Candidate)
    requires Sorted(RankLe, s) && c in s && c !in Greedy(s, caps) && d in Greedy(s, caps)
    ensures !KindFits(Greedy(s, caps), c.kind, caps) || !TableFits(Greedy(s, caps), caps)
    ensures d.kind == c.kind || KindFits(Greedy(s, caps), c.kind, caps) ==> RankLe(d, c)
  {
    hide Greedy, RankLe, CountKind;
    var i: nat :| i < |s| && s[i] == c;
    FitsIsKept(s, caps, i);
    StaysFull(s, caps, i);
    if d.kind == c.kind || KindFits(Greedy(s, caps), c.kind, caps) {
      var j := TurnedAway(s, caps, i, d);
      assert RankLe(s[j], s[i]);
    }
  }

  lemma FitsIsKept(s: seq<Candidate>, caps: Caps, i: nat)
    requires i < |s|
    ensures Fits(Greedy(s[..i], caps), s[i], caps) ==> s[i] in Greedy(s, caps)
  {
    hide Fits, Greedy;
    GreedyStep(s, i, caps);
    GreedyPrefix(s, caps, i + 1);
    assert Fits(Greedy(s[..i], caps), s[i], caps) ==> Greedy(s[..i+1], caps)[|Greedy(s[..i], caps)|] == s[i];
  }

  /** Whoever is dropped was beaten by everyone of its kind that is kept; if its
      kind still has room, nobody less important is kept at all; and a cap is
      spent to the last place. */
  lemma TheBestAreKept(s: seq<Candidate>, caps: Caps, c: Candidate, d: Candidate)
    requires c in s && c !in Admitted(s, caps) && d in Admitted(s, caps)
    ensures d.kind == c.kind ==> d.rank < c.rank || (d.rank == c.rank && d.key <= c.key)
    ensures (c.kind in caps.perKind && caps.perKind[c.kind] > 0 ==> HowMany(Admitted(s, caps), c.kind) < caps.perKind[c.kind]) ==>
      AtLeastAsImportant(d.kind, c.kind) && !(d.kind == Process && c.kind == CloudInstance)
  {
    HowManyCounted(Admitted(s, caps), c.kind);
    InRankOrder(s, c);
    hide Greedy, Sort, Sorted, CountKind, HowMany;
    SortedKeeps(Sort(RankLe, s), caps, c, d);
    if d.kind == c.kind || KindFits(Admitted(s, caps), c.kind, caps) { MeaningOfRank(d, c); }
  }

  lemma InRankOrder(s: seq<Candidate>, c: Candidate)
    ensures Sorted(RankLe, Sort(RankLe, s))
    ensures c in s <==> c in Sort(RankLe, s)
  {
    RankIsPreorder();
    SortSorted(RankLe, s);
    SameElems(s, Sort(RankLe, s));
  }

  lemma MeaningOfRank(d: Candidate, c: Candidate)
    requires RankLe(d, c)
    ensures AtLeastAsImportant(d.kind, c.kind)
    ensures d.kind == c.kind ==> d.rank < c.rank || (d.rank == c.rank && d.key <= c.key)
  {
  }

  /** A candidate is dropped only when the table, or its kind, has exactly as many
      as its cap allows. */
  lemma DroppedAtTheCap(s: seq<Candidate>, caps: Caps, c: Candidate)
    requires c in s && c !in Admitted(s, caps)
    ensures (caps.total > 0 && |Admitted(s, caps)| == caps.total)
      || (c.kind in caps.perKind && caps.perKind[c.kind] > 0 && HowMany(Admitted(s, caps), c.kind) == caps.perKind[c.kind])
  {
    HowManyCounted(Admitted(s, caps), c.kind);
    InRankOrder(s, c);
    hide Greedy, Sort, CountKind, HowMany;
    DropMeansFull(Sort(RankLe, s), caps, c);
    CapsHold(Sort(RankLe, s), caps);
  }

  // ---- the choice does not depend on the order of discovery ----

  predicate DistinctKeys(s: seq<Candidate>) {
    forall i, j :: 0 <= i < j < |s| ==> s[i].key != s[j].key
  }

  lemma RankSeparates(s: seq<Candidate>)
    requires DistinctKeys(s)
    ensures forall x, y :: x in s && y in s && RankLe(x, y) && RankLe(y, x) ==> x == y
  {
    forall x, y | x in s && y in s && RankLe(x, y) && RankLe(y, x) ensures x == y {
      var i :| 0 <= i < |s| && s[i] == x;
      var j :| 0 <= j < |s| && s[j] == y;
      assert x.key == y.key;
      assert i == j;
    }
  }

  /** A host over its caps tracks the same entities whatever order the sources
      report them in. */
  lemma AdmissionForgetsOrder(a: seq<Candidate>, b: seq<Candidate>, caps: Caps)
    requires multiset(a) == multiset(b) && DistinctKeys(a)
    ensures Admitted(a, caps) == Admitted(b, caps)
  {
    RankIsPreorder();
    RankSeparates(a);
    SortForgetsOrder(RankLe, a, b);
  }
}
