/** The bounded entity table and its incremental diff
    (internal/modules/discovery/topology.go and entity.go). */
module Topology {
  import opened Wrappers
  import opened Sorting
  import opened Capacity

  /** What the fingerprint's hash computes; nothing is known of it. */
  type Fp = nat
  type Hash = (Kind, Key, seq<Attr>) -> Fp

  predicate AttrLe(a: Attr, b: Attr) {
    a.key < b.key || (a.key == b.key && a.value <= b.value)
  }

  // ---- the table as a value ----

  /** An entity as the table holds it; identifier 0 means none is bound. */
  datatype EntityState = EntityState(
    kind: Kind, key: Key, attrs: seq<Attr>, fp: Fp, entityID: nat, tried: bool, cycle: nat, firstCycle: nat)

  type Table = map<Key, EntityState>

  datatype What = Added | Updated | Removed

  /** What a change says: which way, and which entity. */
  datatype Note = Note(what: What, key: Key)

  function Fingerprint(hash: Hash, c: Candidate): Fp {
    hash(c.kind, c.key, Sort(AttrLe, c.attrs))
  }

  /** An entity once a candidate with its key has been seen. */
  function Observe(t: Table, c: Candidate, hash: Hash, cycle: nat): EntityState {
    var fp := Fingerprint(hash, c);
    if c.key !in t then
      EntityState(c.kind, c.key, Sort(AttrLe, c.attrs), fp, c.resolvedID, c.resolvedID != 0, cycle, cycle)
    else if t[c.key].fp == fp then t[c.key].(cycle := cycle)
    else t[c.key].(attrs := Sort(AttrLe, c.attrs), fp := fp, cycle := cycle)
  }

  function NoteOf(t: Table, c: Candidate, hash: Hash): seq<Note> {
    if c.key !in t then [Note(Added, c.key)]
    else if t[c.key].fp == Fingerprint(hash, c) then []
    else [Note(Updated, c.key)]
  }

  /** The table after the admitted candidates have been folded in. */
  function Fold(t: Table, cs: seq<Candidate>, hash: Hash, cycle: nat): Table {
    if cs == [] then t
    else
      var p := Fold(t, cs[..|cs|-1], hash, cycle);
      var c := cs[|cs|-1];
      p[c.key := Observe(p, c, hash, cycle)]
  }

  function Notes(t: Table, cs: seq<Candidate>, hash: Hash, cycle: nat): seq<Note> {
    if cs == [] then []
    else
      Notes(t, cs[..|cs|-1], hash, cycle) + NoteOf(Fold(t, cs[..|cs|-1], hash, cycle), cs[|cs|-1], hash)
  }

  lemma FoldStep(t: Table, cs: seq<Candidate>, i: nat, hash: Hash, cycle: nat)
    requires i < |cs|
    ensures var p := Fold(t, cs[..i], hash, cycle);
      && Fold(t, cs[..i+1], hash, cycle) == p[cs[i].key := Observe(p, cs[i], hash, cycle)]
      && Notes(t, cs[..i+1], hash, cycle) == Notes(t, cs[..i], hash, cycle) + NoteOf(p, cs[i], hash)
  {
    assert cs[..i+1][..i] == cs[..i];
  }

  /** Only what was observed in this cycle stays. */
  function Swept(t: Table, cycle: nat): Table {
    map k | k in t && t[k].cycle == cycle :: t[k]
  }

  function Gone(t: Table, cycle: nat): set<Key> {
    set k | k in t && t[k].cycle != cycle
  }

  // ---- the order of the change list ----

  function Order(w: What): nat {
    match w case Added => 0 case Updated => 1 case Removed => 2
  }

  predicate NoteLe(a: Note, b: Note) {
    Order(a.what) < Order(b.what) || (a.what == b.what && a.key <= b.key)
  }

  ghost predicate InOrder(notes: seq<Note>) {
    forall i, j :: 0 <= i < j < |notes| ==> NoteLe(notes[i], notes[j])
  }

  // ---- the table itself ----

  class Entity {
    const kind: Kind
    const key: Key
    const firstCycle: nat
    var attrs: seq<Attr>
    var fp: Fp
    var entityID: nat
    var tried: bool
    var cycle: nat

    constructor (c: Candidate, fp: Fp, cycle: nat)
      ensures View() == EntityState(c.kind, c.key, c.attrs, fp, c.resolvedID, c.resolvedID != 0, cycle, cycle)
    {
      kind, key, attrs, this.fp := c.kind, c.key, c.attrs, fp;
      this.cycle, firstCycle := cycle, cycle;
      entityID, tried := 0, false;
      if c.resolvedID != 0 {
        entityID, tried := c.resolvedID, true;
      }
    }

    ghost function View(): EntityState
      reads this
    {
      EntityState(kind, key, attrs, fp, entityID, tried, cycle, firstCycle)
    }
  }

  datatype Change = Change(what: What, entity: Entity)

  function NoteFor(c: Change): Note {
    Note(c.what, c.entity.key)
  }

  function NotesFor(cs: seq<Change>): seq<Note> {
    seq(|cs|, i requires 0 <= i < |cs| => NoteFor(cs[i]))
  }

  predicate ChangeLe(a: Change, b: Change) {
    NoteLe(NoteFor(a), NoteFor(b))
  }

  class Topology {
    const hash: Hash
    var entities: map<Key, Entity>
    var cycle: nat
    var added: nat
    var updated: nat
    var removed: nat
    var droppedByCap: nat

    constructor (hash: Hash)
      ensures this.hash == hash && Valid() && TableOf() == map[]
    {
      this.hash, entities := hash, map[];
      cycle, added, updated, removed, droppedByCap := 0, 0, 0, 0, 0;
    }

    ghost function Repr(): set<object>
      reads this`entities
    {
      set k | k in entities :: entities[k]
    }

    ghost function TableOf(): Table
      reads this`entities, Repr()
    {
      map k | k in entities :: entities[k].View()
    }

    ghost predicate Keyed()
      reads this`entities
    {
      forall k :: k in entities ==> entities[k].key == k
    }

    /** Each entity is filed under its own key, was last seen in some cycle up to
        now, and the counters account for every entry. */
    ghost predicate Valid()
      reads this, Repr()
    {
      && Keyed()
      && (forall k :: k in entities ==> entities[k].cycle <= cycle)
      && added == removed + |entities|
    }

    // ---- observing ----

    /** A change to one entry, when the others are as they were. */
    lemma EntryChanged(k: Key, was: Table)
      requires k in entities && was.Keys + {k} == entities.Keys
      requires forall j :: j in entities && j != k ==> entities[j].View() == was[j]
      ensures TableOf() == was[k := entities[k].View()]
    {
    }

    method ObserveNew(c: Candidate, fp: Fp) returns (e: Entity)
      requires Keyed() && c.key !in entities
      modifies this`entities, this`added
      ensures Keyed() && entities == old(entities)[c.key := e] && fresh(e) && e.key == c.key && added == old(added) + 1
      ensures TableOf() == old(TableOf())[c.key := EntityState(c.kind, c.key, c.attrs, fp, c.resolvedID, c.resolvedID != 0, cycle, cycle)]
    {
      ghost var was := TableOf();
      e := new Entity(c, fp, cycle);
      assert forall k :: k in entities ==> entities[k].View() == was[k];
      entities := entities[c.key := e];
      added := added + 1;
      EntryChanged(c.key, was);
    }

    method ObserveKnown(c: Candidate, fp: Fp) returns (changed: bool)
      requires Keyed() && c.key in entities
      modifies this`updated, entities[c.key]
      ensures var was := old(TableOf())[c.key];
        && changed == (was.fp != fp)
        && TableOf() == old(TableOf())[c.key := if changed then was.(attrs := c.attrs, fp := fp, cycle := cycle) else was.(cycle := cycle)]
      ensures updated == old(updated) + if changed then 1 else 0
    {
      ghost var was := TableOf();
      var e := entities[c.key];
      e.cycle := cycle;
      changed := e.fp != fp;
      if changed {
        e.attrs := c.attrs;
        e.fp := fp;
        updated := updated + 1;
      }
      assert forall k :: k in entities && k != c.key ==> entities[k].View() == was[k];
      EntryChanged(c.key, was);
    }

    /** Fold one admitted candidate, whose attributes are sorted, into the table. */
    method ObserveOne(c: Candidate) returns (change: seq<Change>)
      requires Keyed() && c.attrs == Sort(AttrLe, c.attrs)
      modifies this`entities, this`added, this`updated, Repr()
      ensures Keyed() && TableOf() == old(TableOf())[c.key := Observe(old(TableOf()), c, hash, cycle)]
      ensures NotesFor(change) == NoteOf(old(TableOf()), c, hash)
      ensures c.key in entities && entities[c.key].key == c.key && forall x :: x in change ==> x.entity == entities[c.key]
      ensures entities == old(entities)[c.key := entities[c.key]]
      ensures c.key in old(entities) ==> entities[c.key] == old(entities)[c.key]
      ensures c.key !in old(entities) ==> fresh(entities[c.key])
      ensures added == old(added) + (if c.key in old(entities) then 0 else 1)
      ensures updated == old(updated) + |NoteOf(old(TableOf()), c, hash)| - (added - old(added))
    {
      var fp := hash(c.kind, c.key, c.attrs);
      hide Sort;
      change := [];
      if c.key !in entities {
        var e := ObserveNew(c, fp);
        change := [Change(Added, e)];
      } else {
        var changed := ObserveKnown(c, fp);
        if changed { change := [Change(Updated, entities[c.key])]; }
      }
    }

    /** No entry is replaced. */
    static ghost predicate Grown(before: map<Key, Entity>, now: map<Key, Entity>) {
      before.Keys <= now.Keys && forall k :: k in before ==> now[k] == before[k]
    }

    /** Every change names an entity as the table files it. */
    static ghost predicate Filed(changes: seq<Change>, table: map<Key, Entity>) {
      forall x :: x in changes ==> x.entity.key in table && x.entity == table[x.entity.key]
    }

    lemma Begins(was: Table, cs: seq<Candidate>, before: map<Key, Entity>)
      ensures Fold(was, cs[..0], hash, cycle) == was && NotesFor([]) == Notes(was, cs[..0], hash, cycle) && Filed([], before)
      ensures Grown(before, before)
    {
    }

    static lemma FiledMore(changes: seq<Change>, change: seq<Change>, before: map<Key, Entity>, now: map<Key, Entity>, key: Key)
      requires Filed(changes, before) && key in now && now == before[key := now[key]]
      requires key in before ==> now[key] == before[key]
      requires forall x :: x in change ==> x.entity == now[key]
      requires now[key].key == key
      ensures Filed(changes + change, now)
    {
    }

    /** Fold the admitted prefix of `a` into the table, sorting attributes on the way. */
    method ObserveAll(a: array<Candidate>, kept: nat) returns (changes: seq<Change>)
      requires Keyed() && kept <= a.Length && added == removed + |entities|
      modifies this`entities, this`added, this`updated, Repr(), a
      ensures Keyed() && added == removed + |entities|
      ensures TableOf() == Fold(old(TableOf()), old(a[..kept]), hash, cycle)
      ensures NotesFor(changes) == Notes(old(TableOf()), old(a[..kept]), hash, cycle) && Filed(changes, entities)
      ensures Grown(old(entities), entities)
      ensures forall k :: k in entities && k !in old(entities) ==> fresh(entities[k])
    {
      hide AttrLe, Filed, Fold, Keyed, NoteOf, Notes, NotesFor, Observe, Sort, TableOf;
      ghost var was, cs, before := TableOf(), a[..kept], entities;
      changes := [];
      Begins(was, cs, before);
      for i := 0 to kept
        invariant Keyed() && added == removed + |entities|
        invariant a[i..kept] == cs[i..]
        invariant TableOf() == Fold(was, cs[..i], hash, cycle) && NotesFor(changes) == Notes(was, cs[..i], hash, cycle)
        invariant Filed(changes, entities)
        invariant Grown(before, entities)
        invariant forall k :: k in entities && k !in before ==> fresh(entities[k])
      {
        FoldStep(was, cs, i, hash, cycle);
        var c := SortAttrs(a, i, cs, kept);
        ObserveSorted(TableOf(), cs[i], hash, cycle);
        ghost var now := entities;
        var change := ObserveOne(c);
        NotesJoin(changes, change);
        FiledMore(changes, change, now, entities, c.key);
        changes := changes + change;
      }
      assert cs[..kept] == cs;
    }

    // ---- removal ----

    /** The entries of `all` that `rest` still has to examine, or that stay. */
    ghost predicate SweptTo(all: map<Key, Entity>, rest: set<Key>)
      reads this`entities, this`cycle, all.Values
    {
      && entities.Keys <= all.Keys && (forall k :: k in entities ==> entities[k] == all[k])
      && forall k :: k in all ==> (k in entities <==> k in rest || all[k].cycle == cycle)
    }

    /** `gone` lists the entries of `all` already examined and out of date, once each. */
    ghost predicate GoneListed(gone: seq<Change>, all: map<Key, Entity>, rest: set<Key>)
      reads this`cycle, all.Values
    {
      && Distinct(NotesFor(gone)) && Filed(gone, all)
      && forall n :: n in NotesFor(gone) <==> n.what == Removed && n.key in all && n.key !in rest && all[n.key].cycle != cycle
    }

    lemma GoneBegins(all: map<Key, Entity>)
      ensures GoneListed([], all, all.Keys)
      ensures entities == all ==> SweptTo(all, all.Keys)
    {
    }

    lemma GoneMore(gone: seq<Change>, all: map<Key, Entity>, rest: set<Key>, k: Key)
      requires GoneListed(gone, all, rest) && k in rest && k in all && all[k].key == k
      ensures GoneListed(if all[k].cycle != cycle then gone + [Change(Removed, all[k])] else gone, all, rest - {k})
    {
      if all[k].cycle != cycle { NotesMore(gone, Change(Removed, all[k])); }
    }

    lemma SweepDone(gone: seq<Change>, all: map<Key, Entity>, was: Table)
      requires SweptTo(all, {}) && GoneListed(gone, all, {}) && was.Keys == all.Keys
      requires forall k :: k in all ==> was[k] == all[k].View()
      ensures TableOf() == Swept(was, cycle) && entities.Values <= all.Values
      ensures Elems(NotesFor(gone)) == RemovedNotes(Gone(was, cycle))
    {
      assert forall k :: k in all ==> (k in Gone(was, cycle) <==> all[k].cycle != cycle);
      forall n ensures n in Elems(NotesFor(gone)) <==> n in RemovedNotes(Gone(was, cycle)) {
        assert n in RemovedNotes(Gone(was, cycle)) <==> n.what == Removed && n.key in Gone(was, cycle);
      }
    }

    /** Delete what this cycle did not mention. */
    method Sweep() returns (gone: seq<Change>)
      requires Keyed() && added == removed + |entities|
      modifies this`entities, this`removed
      ensures Keyed() && added == removed + |entities|
      ensures TableOf() == Swept(old(TableOf()), cycle)
      ensures Distinct(NotesFor(gone)) && Elems(NotesFor(gone)) == RemovedNotes(Gone(old(TableOf()), cycle))
      ensures Filed(gone, old(entities)) && entities.Values <= old(entities.Values)
    {
      ghost var all, was := entities, TableOf();
      assert forall k :: k in all ==> was[k] == all[k].View();
      GoneBegins(all);
      hide Distinct, Elems, Entity.View, Filed, Gone, Keyed, NotesFor, RemovedNotes, Swept, SweptTo, TableOf;
      gone := [];
      var rest := entities.Keys;
      while rest != {}
        invariant Keyed() && added == removed + |entities| && rest <= all.Keys && SweptTo(all, rest)
        invariant GoneListed(gone, all, rest)
        decreases rest
      {
        var k :| k in rest;
        var change := Examine(k, all, rest, gone);
        gone, rest := gone + change, rest - {k};
      }
      SweepDone(gone, all, was);
    }

    /** Delete one entry if it is out of date. */
    method Examine(k: Key, ghost all: map<Key, Entity>, ghost rest: set<Key>, ghost gone: seq<Change>) returns (change: seq<Change>)
      requires Keyed() && added == removed + |entities| && k in rest && rest <= all.Keys && SweptTo(all, rest) && GoneListed(gone, all, rest)
      modifies this`entities, this`removed
      ensures Keyed() && added == removed + |entities| && SweptTo(all, rest - {k}) && GoneListed(gone + change, all, rest - {k})
    {
      GoneMore(gone, all, rest, k);
      hide GoneListed;
      change := [];
      if entities[k].cycle != cycle {
        change := [Change(Removed, entities[k])];
        entities := entities - {k};
        removed := removed + 1;
      }
      assert gone + [] == gone;
    }

    // ---- one cycle ----

    /** Fold one cycle's candidates into the table and report what changed, in a
        fixed order.  `candidates` is sorted and compacted on the way. */
    method Reconcile(candidates: array<Candidate>, caps: Caps) returns (changes: seq<Change>)
      requires Valid()
      modifies this, Repr(), candidates
      ensures Valid() && cycle == old(cycle) + 1
      ensures TableOf() == Swept(Fold(old(TableOf()), Admitted(old(candidates[..]), caps), hash, cycle), cycle)
      ensures Reported(NotesFor(changes), old(TableOf()), Admitted(old(candidates[..]), caps), hash, cycle)
      ensures Described(changes, Fold(old(TableOf()), Admitted(old(candidates[..]), caps), hash, cycle))
      ensures droppedByCap == old(droppedByCap) + candidates.Length - |Admitted(old(candidates[..]), caps)|
    {
      hide Admitted, Described, Fold, Keyed, NotesFor, Reported, Swept, TableOf;
      ghost var was := TableOf();
      cycle := cycle + 1;
      var kept, dropped := Apply(candidates, caps);
      droppedByCap := droppedByCap + dropped;
      ghost var adm := candidates[..kept];
      assert TableOf() == was;
      changes := ObserveAndSweep(candidates, kept);
      SweptIsCurrent(Fold(was, adm, hash, cycle), cycle);
      CurrentIsValid();
    }

    method ObserveAndSweep(a: array<Candidate>, kept: nat) returns (changes: seq<Change>)
      requires Keyed() && kept <= a.Length && added == removed + |entities|
      modifies this`entities, this`added, this`updated, this`removed, Repr(), a
      ensures Keyed() && added == removed + |entities|
      ensures TableOf() == Swept(Fold(old(TableOf()), old(a[..kept]), hash, cycle), cycle)
      ensures Reported(NotesFor(changes), old(TableOf()), old(a[..kept]), hash, cycle)
      ensures Described(changes, Fold(old(TableOf()), old(a[..kept]), hash, cycle))
    {
      hide *;
      ghost var was, adm := TableOf(), a[..kept];
      var seen := ObserveAll(a, kept);
      ghost var all, full := entities, TableOf();
      TableIs();
      var gone := Sweep();
      changes := Sort(ChangeLe, seen + gone);
      SortedReport(seen, gone, changes, was, adm, hash, cycle);
      AllDescribed(seen, gone, changes, all, full);
    }

    lemma TableIs()
      ensures TableOf().Keys == entities.Keys && forall k :: k in entities ==> TableOf()[k] == entities[k].View()
    {
    }

    lemma CurrentIsValid()
      requires Keyed() && added == removed + |entities| && forall k :: k in TableOf() ==> TableOf()[k].cycle == cycle
      ensures Valid()
    {
      TableIs();
      assert forall k :: k in entities ==> TableOf()[k].cycle == cycle;
    }

    /** Sort one candidate's attributes where it stands. */
    static method SortAttrs(a: array<Candidate>, i: nat, ghost cs: seq<Candidate>, kept: nat) returns (c: Candidate)
      requires i < kept == |cs| <= a.Length && a[i..kept] == cs[i..]
      modifies a
      ensures c == cs[i].(attrs := Sort(AttrLe, cs[i].attrs)) && a[i+1..kept] == cs[i+1..]
    {
      assert a[i] == a[i..kept][0];
      c := a[i].(attrs := Sort(AttrLe, a[i].attrs));
      a[i] := c;
      assert a[i+1..kept] == old(a[i..kept])[1..];
    }
  }

  /** The change list of one cycle: in order, the notes of the fold and one
      removal for each entry the cycle did not mention. */
  ghost predicate Reported(notes: seq<Note>, was: Table, adm: seq<Candidate>, hash: Hash, cycle: nat) {
    && InOrder(notes)
    && multiset(notes) == multiset(Notes(was, adm, hash, cycle)) + multiset(RemovedNotes(Gone(Fold(was, adm, hash, cycle), cycle)))
  }

  /** Each change carries the entity as the fold left it. */
  ghost predicate Described(changes: seq<Change>, full: Table)
    reads set x | x in changes :: x.entity
  {
    forall x :: x in changes ==> x.entity.key in full && x.entity.View() == full[x.entity.key]
  }

  lemma {:induction false} NotesPermute(a: seq<Change>, b: seq<Change>)
    requires multiset(a) == multiset(b)
    ensures multiset(NotesFor(a)) == multiset(NotesFor(b))
  {
    hide *;
    assert |a| == |multiset(a)| && |b| == |multiset(b)|;
    if a == [] {
      assert b == [];
    } else {
      var j := FindFirst(a, b);
      NotesWithout(a, 0);
      NotesWithout(b, j);
      assert a[..0] + a[1..] == a[1..];
      NotesPermute(a[1..], b[..j] + b[j+1..]);
    }
  }

  lemma FindFirst(a: seq<Change>, b: seq<Change>) returns (j: nat)
    requires multiset(a) == multiset(b) && a != []
    ensures j < |b| && b[j] == a[0] && multiset(a[1..]) == multiset(b[..j] + b[j+1..])
  {
    assert a[0] in multiset(b);
    j :| 0 <= j < |b| && b[j] == a[0];
    SameRest(a, b, j);
  }

  lemma SameRest(a: seq<Change>, b: seq<Change>, j: nat)
    requires multiset(a) == multiset(b) && a != [] && j < |b| && b[j] == a[0]
    ensures multiset(a[1..]) == multiset(b[..j] + b[j+1..])
  {
    RemoveOne(b, j);
    assert a == [a[0]] + a[1..];
    assert multiset(a) == multiset{a[0]} + multiset(a[1..]);
  }

  lemma NotesWithout(s: seq<Change>, j: nat)
    requires j < |s|
    ensures multiset(NotesFor(s)) == multiset(NotesFor(s[..j] + s[j+1..])) + multiset{NoteFor(s[j])}
  {
    assert s == s[..j] + [s[j]] + s[j+1..];
    NotesJoin(s[..j] + [s[j]], s[j+1..]);
    NotesJoin(s[..j], [s[j]]);
    NotesJoin(s[..j], s[j+1..]);
    assert NotesFor([s[j]]) == [NoteFor(s[j])];
  }

  lemma DistinctIsSet(s: seq<Note>)
    requires Distinct(s)
    ensures multiset(s) == multiset(Elems(s))
  {
    DistinctMultiset(s);
    assert forall x :: x in multiset(s) <==> x in s;
  }

  lemma SortedReport(seen: seq<Change>, gone: seq<Change>, changes: seq<Change>, was: Table, adm: seq<Candidate>, hash: Hash, cycle: nat)
    requires changes == Sort(ChangeLe, seen + gone) && NotesFor(seen) == Notes(was, adm, hash, cycle)
    requires Distinct(NotesFor(gone)) && Elems(NotesFor(gone)) == RemovedNotes(Gone(Fold(was, adm, hash, cycle), cycle))
    ensures Reported(NotesFor(changes), was, adm, hash, cycle)
  {
    SortSortedOn(ChangeLe, seen + gone);
    assert InOrder(NotesFor(changes));
    hide ChangeLe, Distinct, Elems, Fold, Gone, InOrder, Notes, NotesFor, RemovedNotes, Sort, Sorted, TotalOn;
    NotesPermute(changes, seen + gone);
    NotesJoin(seen, gone);
    DistinctIsSet(NotesFor(gone));
  }

  lemma AllDescribed(seen: seq<Change>, gone: seq<Change>, changes: seq<Change>, all: map<Key, Entity>, full: Table)
    requires multiset(changes) == multiset(seen + gone)
    requires Topology.Filed(seen, all) && Topology.Filed(gone, all)
    requires full.Keys == all.Keys && forall k :: k in all ==> all[k].View() == full[k]
    ensures Described(changes, full)
  {
    SameElems(changes, seen + gone);
  }

  lemma SweptIsCurrent(full: Table, cycle: nat)
    ensures forall k :: k in Swept(full, cycle) ==> Swept(full, cycle)[k].cycle == cycle
  {
  }

  /** The notes of a set of removals. */
  ghost function RemovedNotes(gone: set<Key>): set<Note> {
    set k | k in gone :: Note(Removed, k)
  }

  lemma NotesMore(a: seq<Change>, c: Change)
    requires Distinct(NotesFor(a)) && NoteFor(c) !in NotesFor(a)
    ensures Distinct(NotesFor(a + [c])) && NotesFor(a + [c]) == NotesFor(a) + [NoteFor(c)]
  {
    NotesJoin(a, [c]);
  }

  lemma NotesJoin(a: seq<Change>, b: seq<Change>)
    ensures NotesFor(a + b) == NotesFor(a) + NotesFor(b)
  {
  }

  lemma AttrsArePreordered()
    ensures TotalPreorder(AttrLe)
  {
  }

  lemma SortIsIdempotent(attrs: seq<Attr>)
    ensures Sort(AttrLe, Sort(AttrLe, attrs)) == Sort(AttrLe, attrs)
  {
    AttrsArePreordered();
    SortForgetsOrder(AttrLe, Sort(AttrLe, attrs), attrs);
  }

  /** Sorting a candidate's attributes beforehand changes nothing. */
  lemma ObserveSorted(t: Table, c: Candidate, hash: Hash, cycle: nat)
    ensures var s := c.(attrs := Sort(AttrLe, c.attrs));
      && s.attrs == Sort(AttrLe, s.attrs)
      && Observe(t, s, hash, cycle) == Observe(t, c, hash, cycle) && NoteOf(t, s, hash) == NoteOf(t, c, hash)
  {
    SortIsIdempotent(c.attrs);
    hide Sort;
  }
}
