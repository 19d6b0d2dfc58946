/** What the change list says of attributes (internal/modules/discovery/topology.go
    and entity.go), for a hash that tells different attribute lists apart. */
module Attributes {
  import opened Wrappers
  import opened Sorting
  import opened Capacity
  import opened Topology
  import opened Diffs

  /** By key, then by value. */
  ghost predicate Ordered(a: seq<Attr>) {
    forall i, j :: 0 <= i < j < |a| ==> a[i].key < a[j].key || (a[i].key == a[j].key && a[i].value <= a[j].value)
  }

  /** The hash has no collision between two ordered lists of one kind and key. */
  ghost predicate Separates(hash: Hash) {
    forall kind, key, a, b :: Ordered(a) && Ordered(b) && hash(kind, key, a) == hash(kind, key, b) ==> a == b
  }

  /** The table keeps each entity's attributes in order, with their hash. */
  ghost predicate Hashed(t: Table, hash: Hash) {
    forall k :: k in t ==> Ordered(t[k].attrs) && t[k].fp == hash(t[k].kind, k, t[k].attrs)
  }

  /** A key belongs to one kind: it begins with the kind's name. */
  ghost predicate OneKind(t: Table, cs: seq<Candidate>) {
    && (forall c :: c in cs && c.key in t ==> t[c.key].kind == c.kind)
    && (forall c, d :: c in cs && d in cs && c.key == d.key ==> c.kind == d.kind)
  }

  lemma OrderedSort(a: seq<Attr>)
    ensures Ordered(Sort(AttrLe, a)) && multiset(Sort(AttrLe, a)) == multiset(a)
  {
    AttrsArePreordered();
    SortSorted(AttrLe, a);
  }

  /** Two ordered lists of the same attributes are the same list. */
  lemma OrderedIsUnique(a: seq<Attr>, b: seq<Attr>)
    requires Ordered(a) && Ordered(b) && multiset(a) == multiset(b)
    ensures a == b
  {
    AttrsArePreordered();
    SortedUnique(AttrLe, a, b);
  }

  /** `cs[i]` is the last candidate of its key. */
  ghost predicate LastOfItsKey(cs: seq<Candidate>, i: int) {
    0 <= i < |cs| && forall j :: i < j < |cs| ==> cs[j].key != cs[i].key
  }

  lemma OneKindBefore(t: Table, cs: seq<Candidate>)
    requires cs != [] && OneKind(t, cs)
    ensures OneKind(t, cs[..|cs|-1])
  {
    assert forall c :: c in cs[..|cs|-1] ==> c in cs;
  }

  /** One more candidate: its entry has its attributes, and keeps everything else. */
  lemma ObservedAttrs(t: Table, c: Candidate, hash: Hash, cycle: nat)
    requires Separates(hash) && Hashed(t, hash) && (c.key in t ==> t[c.key].kind == c.kind)
    ensures var e := Observe(t, c, hash, cycle);
      && e.attrs == Sort(AttrLe, c.attrs) && e.kind == c.kind && e.cycle == cycle
      && e.fp == hash(c.kind, c.key, e.attrs)
      && (c.key in t ==> e.entityID == t[c.key].entityID && e.firstCycle == t[c.key].firstCycle)
      && (c.key !in t ==> e.entityID == c.resolvedID && e.firstCycle == cycle)
  {
    OrderedSort(c.attrs);
    if c.key in t { assert Ordered(t[c.key].attrs); }
  }

  /** The fold keeps attributes in order, with their hash, and every kind. */
  lemma {:induction false} HashedKept(t: Table, cs: seq<Candidate>, hash: Hash, cycle: nat)
    requires Separates(hash) && Hashed(t, hash) && OneKind(t, cs)
    ensures Hashed(Fold(t, cs, hash, cycle), hash)
    ensures forall k :: k in t ==> k in Fold(t, cs, hash, cycle) && Fold(t, cs, hash, cycle)[k].kind == t[k].kind
  {
    hide Separates, Ordered, Observe, OneKind, Hashed;
    if cs != [] {
      var rest, c := cs[..|cs|-1], cs[|cs|-1];
      var p := Fold(t, rest, hash, cycle);
      OneKindBefore(t, cs);
      HashedKept(t, rest, hash, cycle);
      KindInFold(t, cs, hash, cycle);
      ObservedAttrs(p, c, hash, cycle);
      OrderedSort(c.attrs);
      PutHashed(p, c.key, Observe(p, c, hash, cycle), hash);
    }
  }

  lemma PutHashed(t: Table, k: Key, e: EntityState, hash: Hash)
    requires Hashed(t, hash) && Ordered(e.attrs) && e.fp == hash(e.kind, k, e.attrs)
    ensures Hashed(t[k := e], hash)
  {
  }

  /** After the fold an observed entity holds exactly the attributes of its last
      candidate, in order. */
  lemma {:induction false} LastCandidateHolds(t: Table, cs: seq<Candidate>, hash: Hash, cycle: nat, i: nat)
    requires Separates(hash) && Hashed(t, hash) && OneKind(t, cs) && LastOfItsKey(cs, i)
    ensures var k, full := cs[i].key, Fold(t, cs, hash, cycle);
      k in full && full[k].kind == cs[i].kind && Ordered(full[k].attrs) && multiset(full[k].attrs) == multiset(cs[i].attrs)
  {
    hide Separates, Ordered, Observe, OneKind, Hashed;
    var rest, c := cs[..|cs|-1], cs[|cs|-1];
    OneKindBefore(t, cs);
    if i == |cs| - 1 {
      HashedKept(t, rest, hash, cycle);
      KindInFold(t, cs, hash, cycle);
      ObservedAttrs(Fold(t, rest, hash, cycle), c, hash, cycle);
      OrderedSort(c.attrs);
    } else {
      LastCandidateHolds(t, rest, hash, cycle, i);
      assert cs[i].key != c.key;
    }
  }

  lemma {:induction false} KindInFold(t: Table, cs: seq<Candidate>, hash: Hash, cycle: nat)
    requires cs != [] && OneKind(t, cs)
    ensures var p, c := Fold(t, cs[..|cs|-1], hash, cycle), cs[|cs|-1];
      c.key in p ==> p[c.key].kind == c.kind
  {
    var rest, c := cs[..|cs|-1], cs[|cs|-1];
    assert c in cs;
    KindStays(t, rest, hash, cycle, c);
  }

  lemma {:induction false} KindStays(t: Table, cs: seq<Candidate>, hash: Hash, cycle: nat, c: Candidate)
    requires c.key in t ==> t[c.key].kind == c.kind
    requires forall d :: d in cs && d.key == c.key ==> d.kind == c.kind
    ensures var p := Fold(t, cs, hash, cycle); c.key in p ==> p[c.key].kind == c.kind
  {
    hide Fingerprint;
    if cs != [] {
      assert cs[|cs|-1] in cs;
      assert forall d :: d in cs[..|cs|-1] ==> d in cs;
      KindStays(t, cs[..|cs|-1], hash, cycle, c);
    }
  }

  /** After a cycle the table holds, for each tracked key, the attributes of its
      last candidate, in order; and their hashes again. */
  lemma TableHoldsAttributes(t: Table, adm: seq<Candidate>, hash: Hash, cycle: nat, i: nat)
    requires Separates(hash) && Hashed(t, hash) && OneKind(t, adm) && Before(t, cycle)
    ensures var t' := Swept(Fold(t, adm, hash, cycle), cycle);
      && Hashed(t', hash)
      && (LastOfItsKey(adm, i) ==>
            adm[i].key in t' && Ordered(t'[adm[i].key].attrs) && multiset(t'[adm[i].key].attrs) == multiset(adm[i].attrs))
  {
    hide Separates, Ordered, OneKind, Fold, KeysOf;
    HashedKept(t, adm, hash, cycle);
    TableIsAdmitted(t, adm, hash, cycle);
    if LastOfItsKey(adm, i) {
      LastCandidateHolds(t, adm, hash, cycle, i);
      KeyOfCandidate(adm, i);
    }
  }

  lemma KeyOfCandidate(adm: seq<Candidate>, i: nat)
    requires i < |adm|
    ensures adm[i].key in KeysOf(adm)
  {
  }

  /** With distinct keys the change list says, of each candidate and each tracked
      entity, what happened to its attributes: added if the key was not tracked,
      updated if it was with other attributes, not mentioned if with the same ones,
      and removed if no candidate has it. */
  lemma ChangesAreOfAttributes(notes: seq<Note>, t: Table, adm: seq<Candidate>, hash: Hash, cycle: nat, i: nat)
    requires Separates(hash) && Hashed(t, hash) && OneKind(t, adm) && Before(t, cycle)
    requires Reported(notes, t, adm, hash, cycle) && DistinctKeys(adm) && i < |adm|
    ensures var c := adm[i];
      && (Note(Added, c.key) in notes <==> c.key !in t)
      && (Note(Updated, c.key) in notes <==> c.key in t && multiset(t[c.key].attrs) != multiset(c.attrs))
      && Note(Removed, c.key) !in notes
  {
    hide Separates, Fold, Reported, DistinctKeys, KeysOf, Swept, OneKind;
    var c, full := adm[i], Fold(t, adm, hash, cycle);
    assert LastOfItsKey(adm, i) by { DistinctIsLast(adm, i); }
    TableHoldsAttributes(t, adm, hash, cycle, i);
    ExactDiff(notes, t, adm, hash, cycle, c.key);
    SweptKeeps(full, cycle, c.key);
    HashedKept(t, adm, hash, cycle);
    if c.key in t { SamePrintSameAttrs(hash, full[c.key].kind, c.key, t[c.key].attrs, full[c.key].attrs); }
  }

  lemma SweptKeeps(t: Table, cycle: nat, k: Key)
    ensures k in Swept(t, cycle) ==> k in t && Swept(t, cycle)[k] == t[k]
  {
  }

  lemma DistinctIsLast(adm: seq<Candidate>, i: nat)
    requires DistinctKeys(adm) && i < |adm|
    ensures LastOfItsKey(adm, i)
  {
  }

  lemma SamePrintSameAttrs(hash: Hash, kind: Kind, key: Key, a: seq<Attr>, b: seq<Attr>)
    requires Separates(hash) && Ordered(a) && Ordered(b)
    ensures hash(kind, key, a) == hash(kind, key, b) <==> multiset(a) == multiset(b)
  {
    if multiset(a) == multiset(b) { OrderedIsUnique(a, b); }
  }

  /** A tracked entity is reported removed exactly when no candidate has its key. */
  lemma RemovedMeansAbsent(notes: seq<Note>, t: Table, adm: seq<Candidate>, hash: Hash, cycle: nat, k: Key)
    requires Reported(notes, t, adm, hash, cycle) && Before(t, cycle) && DistinctKeys(adm) && k in t
    ensures Note(Removed, k) in notes <==> forall i :: 0 <= i < |adm| ==> adm[i].key != k
  {
    hide Fold, Reported, DistinctKeys, Swept;
    ExactDiff(notes, t, adm, hash, cycle, k);
    TableIsAdmitted(t, adm, hash, cycle);
  }

  /** Additions come before updates and updates before removals, each by key. */
  lemma ChangesInOrder(notes: seq<Note>, t: Table, adm: seq<Candidate>, hash: Hash, cycle: nat, i: nat, j: nat)
    requires Reported(notes, t, adm, hash, cycle) && i < j < |notes|
    ensures notes[i].what == Removed ==> notes[j].what == Removed
    ensures notes[i].what == Updated ==> notes[j].what != Added
    ensures notes[i].what == notes[j].what ==> notes[i].key <= notes[j].key
  {
    hide Fold, Notes, Gone;
    assert NoteLe(notes[i], notes[j]);
  }
}
