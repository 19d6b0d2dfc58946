/** The change list of a discovery cycle is the exact difference between the two
    tables, and a host that has not changed produces none
    (internal/modules/discovery/topology.go). */
module Diffs {
  import opened Sorting
  import opened Capacity
  import opened Topology

  function KeysOf(cs: seq<Candidate>): set<Key> {
    set c | c in cs :: c.key
  }

  /** The table is from before this cycle. */
  ghost predicate Before(t: Table, cycle: nat) {
    forall k :: k in t ==> t[k].cycle < cycle
  }

  function Prints(t: Table): map<Key, Fp> {
    map k | k in t :: t[k].fp
  }

  lemma KeysMore(cs: seq<Candidate>)
    requires cs != []
    ensures KeysOf(cs) == KeysOf(cs[..|cs|-1]) + {cs[|cs|-1].key}
  {
    assert cs == cs[..|cs|-1] + [cs[|cs|-1]];
  }

  // ---- the fold ----

  /** The fold keeps every entry, and stamps exactly the observed ones. */
  lemma {:induction false} FoldKeys(t: Table, cs: seq<Candidate>, hash: Hash, cycle: nat)
    requires Before(t, cycle)
    ensures Fold(t, cs, hash, cycle).Keys == t.Keys + KeysOf(cs)
    ensures forall k :: k in t.Keys + KeysOf(cs) ==> (Fold(t, cs, hash, cycle)[k].cycle == cycle <==> k in KeysOf(cs))
  {
    if cs != [] {
      KeysMore(cs);
      FoldKeys(t, cs[..|cs|-1], hash, cycle);
    }
  }

  /** The table tracks exactly the admitted candidates. */
  lemma TableIsAdmitted(t: Table, adm: seq<Candidate>, hash: Hash, cycle: nat)
    requires Before(t, cycle)
    ensures Swept(Fold(t, adm, hash, cycle), cycle).Keys == KeysOf(adm)
    ensures Gone(Fold(t, adm, hash, cycle), cycle) == t.Keys - KeysOf(adm)
  {
    FoldKeys(t, adm, hash, cycle);
  }

  /** What the notes say about one key. */
  lemma {:induction false} NotesAt(t: Table, cs: seq<Candidate>, hash: Hash, cycle: nat, k: Key)
    requires Before(t, cycle)
    ensures Note(Added, k) in Notes(t, cs, hash, cycle) <==> k !in t && k in KeysOf(cs)
    ensures Note(Updated, k) in Notes(t, cs, hash, cycle) ==> k in KeysOf(cs)
    ensures Note(Removed, k) !in Notes(t, cs, hash, cycle)
    ensures k in t && Note(Updated, k) !in Notes(t, cs, hash, cycle) ==>
      k in Fold(t, cs, hash, cycle) && Fold(t, cs, hash, cycle)[k].fp == t[k].fp
  {
    if cs != [] {
      KeysMore(cs);
      var rest, c := cs[..|cs|-1], cs[|cs|-1];
      var p := Fold(t, rest, hash, cycle);
      FoldKeys(t, rest, hash, cycle);
      NotesAt(t, rest, hash, cycle, k);
      var ns, last := Notes(t, rest, hash, cycle), NoteOf(p, c, hash);
      assert Notes(t, cs, hash, cycle) == ns + last && Fold(t, cs, hash, cycle) == p[c.key := Observe(p, c, hash, cycle)];
      hide Fold, Notes, KeysOf, Fingerprint, Sort, Before;
      assert forall n :: n in ns + last <==> n in ns || n in last;
    }
  }

  // ---- replaying the change list ----

  /** A consumer's table of fingerprints after being told `notes`; `told` is the
      fingerprint each change carries. */
  function Replay(t: map<Key, Fp>, notes: seq<Note>, told: map<Key, Fp>): map<Key, Fp> {
    if notes == [] then t
    else
      var p, n := Replay(t, notes[..|notes|-1], told), notes[|notes|-1];
      if n.what == Removed then p - {n.key}
      else if n.key in told then p[n.key := told[n.key]]
      else p
  }

  lemma RemovalsComeLast(rest: seq<Note>, n: Note, k: Key)
    requires InOrder(rest + [n]) && Note(Removed, k) in rest
    ensures n.what == Removed
  {
    var notes := rest + [n];
    var i :| 0 <= i < |rest| && rest[i] == Note(Removed, k);
    assert NoteLe(notes[i], notes[|rest|]);
  }

  lemma {:induction false} ReplayAt(t: map<Key, Fp>, notes: seq<Note>, told: map<Key, Fp>, k: Key)
    requires InOrder(notes) && k in told
    ensures var r := Replay(t, notes, told);
      if Note(Removed, k) in notes then k !in r
      else if Note(Added, k) in notes || Note(Updated, k) in notes then k in r && r[k] == told[k]
      else (k in r <==> k in t) && (k in r ==> r[k] == t[k])
  {
    if notes != [] {
      var rest, n := notes[..|notes|-1], notes[|notes|-1];
      assert notes == rest + [n];
      ReplayAt(t, rest, told, k);
      if Note(Removed, k) in rest { RemovalsComeLast(rest, n, k); }
    }
  }

  lemma {:induction false} ReplayKeys(t: map<Key, Fp>, notes: seq<Note>, told: map<Key, Fp>)
    requires t.Keys <= told.Keys
    ensures Replay(t, notes, told).Keys <= told.Keys
  {
    if notes != [] { ReplayKeys(t, notes[..|notes|-1], told); }
  }

  /** Membership in a reported change list. */
  lemma ReportedAt(notes: seq<Note>, t: Table, adm: seq<Candidate>, hash: Hash, cycle: nat, k: Key)
    requires Reported(notes, t, adm, hash, cycle) && Before(t, cycle)
    ensures Note(Added, k) in notes <==> k !in t && k in KeysOf(adm)
    ensures Note(Removed, k) in notes <==> k in t && k !in KeysOf(adm)
    ensures Note(Updated, k) in notes <==> Note(Updated, k) in Notes(t, adm, hash, cycle)
  {
    var full := Fold(t, adm, hash, cycle);
    NotesAt(t, adm, hash, cycle, k);
    TableIsAdmitted(t, adm, hash, cycle);
    hide Fold, Notes, InOrder, KeysOf;
    var gone := RemovedNotes(Gone(full, cycle));
    assert Note(Removed, k) in gone <==> k in Gone(full, cycle);
    forall n ensures n in notes <==> n in Notes(t, adm, hash, cycle) || n in gone {
      assert n in notes <==> n in multiset(notes);
      assert multiset(notes)[n] == multiset(Notes(t, adm, hash, cycle))[n] + multiset(gone)[n];
    }
  }

  /** Replaying the change list on the previous fingerprints gives the new ones,
      whatever the candidates, even with repeated keys. */
  lemma ReplayGivesTheTable(notes: seq<Note>, t: Table, adm: seq<Candidate>, hash: Hash, cycle: nat)
    requires Reported(notes, t, adm, hash, cycle) && Before(t, cycle)
    ensures var full := Fold(t, adm, hash, cycle);
      Replay(Prints(t), notes, Prints(full)) == Prints(Swept(full, cycle))
  {
    var full := Fold(t, adm, hash, cycle);
    FoldKeys(t, adm, hash, cycle);
    TableIsAdmitted(t, adm, hash, cycle);
    var r, want := Replay(Prints(t), notes, Prints(full)), Prints(Swept(full, cycle));
    ReplayKeys(Prints(t), notes, Prints(full));
    forall k | k in full ensures (k in r <==> k in want) && (k in r ==> r[k] == want[k]) {
      ReplayMatches(notes, t, adm, hash, cycle, k);
    }
    hide Before, Fold, Gone, KeysOf, Replay, Reported;
    assert r.Keys == want.Keys;
  }

  lemma ReplayMatches(notes: seq<Note>, t: Table, adm: seq<Candidate>, hash: Hash, cycle: nat, k: Key)
    requires Reported(notes, t, adm, hash, cycle) && Before(t, cycle) && k in Fold(t, adm, hash, cycle)
    ensures var full := Fold(t, adm, hash, cycle);
      var r, want := Replay(Prints(t), notes, Prints(full)), Prints(Swept(full, cycle));
      (k in r <==> k in want) && (k in r ==> r[k] == want[k])
  {
    var full := Fold(t, adm, hash, cycle);
    FoldKeys(t, adm, hash, cycle);
    ReportedAt(notes, t, adm, hash, cycle, k);
    NotesAt(t, adm, hash, cycle, k);
    ReplayAt(Prints(t), notes, Prints(full), k);
    hide Fold, Notes, Replay, KeysOf;
  }

  // ---- distinct keys: the change list is minimal ----

  /** Candidates for one key agree on its fingerprint. */
  ghost predicate Agree(cs: seq<Candidate>, hash: Hash) {
    forall i, j :: 0 <= i < |cs| && 0 <= j < |cs| && cs[i].key == cs[j].key ==> Fingerprint(hash, cs[i]) == Fingerprint(hash, cs[j])
  }

  /** The table holds this candidate already, with the same fingerprint. */
  ghost predicate Tracked(t: Table, c: Candidate, hash: Hash) {
    c.key in t && t[c.key].fp == Fingerprint(hash, c)
  }

  /** The fold leaves every observed entity with its candidates' fingerprint. */
  lemma {:induction false} FoldPrint(t: Table, cs: seq<Candidate>, hash: Hash, cycle: nat, i: nat)
    requires Agree(cs, hash) && i < |cs|
    ensures Tracked(Fold(t, cs, hash, cycle), cs[i], hash)
  {
    if i < |cs| - 1 { FoldPrint(t, cs[..|cs|-1], hash, cycle, i); }
    hide Fingerprint;
  }

  /** An entry no candidate names is left alone. */
  lemma {:induction false} FoldElsewhere(t: Table, cs: seq<Candidate>, hash: Hash, cycle: nat, k: Key)
    requires k !in KeysOf(cs)
    ensures k in Fold(t, cs, hash, cycle) <==> k in t
    ensures k in t ==> Fold(t, cs, hash, cycle)[k] == t[k]
  {
    if cs != [] {
      KeysMore(cs);
      FoldElsewhere(t, cs[..|cs|-1], hash, cycle, k);
    }
  }

  ghost predicate Differs(t: Table, t': Table, k: Key) {
    k in t && k in t' && t'[k].fp != t[k].fp
  }

  /** Each candidate is noted at most once, as an update exactly when its
      fingerprint differs from the tracked one. */
  lemma {:induction false} NotesExact(t: Table, cs: seq<Candidate>, hash: Hash, cycle: nat)
    requires DistinctKeys(cs)
    ensures Distinct(Notes(t, cs, hash, cycle))
    ensures forall n :: n in Notes(t, cs, hash, cycle) ==> n.key in KeysOf(cs)
    ensures forall k :: Note(Updated, k) in Notes(t, cs, hash, cycle) <==>
      k in KeysOf(cs) && Differs(t, Fold(t, cs, hash, cycle), k)
  {
    if cs != [] {
      var rest, c := cs[..|cs|-1], cs[|cs|-1];
      NotesExact(t, rest, hash, cycle);
      KeysMore(cs);
      NewKey(cs);
      FoldElsewhere(t, rest, hash, cycle, c.key);
      FoldHasAll(t, rest, hash, cycle);
      NotesExactStep(t, cs, hash, cycle);
    }
  }

  lemma NewKey(cs: seq<Candidate>)
    requires DistinctKeys(cs) && cs != []
    ensures cs[|cs|-1].key !in KeysOf(cs[..|cs|-1])
  {
  }

  lemma NotesExactStep(t: Table, cs: seq<Candidate>, hash: Hash, cycle: nat)
    requires cs != [] && KeysOf(cs) == KeysOf(cs[..|cs|-1]) + {cs[|cs|-1].key}
    requires var rest, c := cs[..|cs|-1], cs[|cs|-1];
      && c.key !in KeysOf(rest) && Distinct(Notes(t, rest, hash, cycle))
      && (forall n :: n in Notes(t, rest, hash, cycle) ==> n.key in KeysOf(rest))
      && (forall k :: k in t.Keys + KeysOf(rest) ==> k in Fold(t, rest, hash, cycle))
      && (forall k :: Note(Updated, k) in Notes(t, rest, hash, cycle) <==>
            k in KeysOf(rest) && Differs(t, Fold(t, rest, hash, cycle), k))
      && (c.key in Fold(t, rest, hash, cycle) <==> c.key in t)
      && (c.key in t ==> Fold(t, rest, hash, cycle)[c.key] == t[c.key])
    ensures Distinct(Notes(t, cs, hash, cycle))
    ensures forall n :: n in Notes(t, cs, hash, cycle) ==> n.key in KeysOf(cs)
    ensures forall k :: Note(Updated, k) in Notes(t, cs, hash, cycle) <==>
      k in KeysOf(cs) && Differs(t, Fold(t, cs, hash, cycle), k)
  {
    var rest, c := cs[..|cs|-1], cs[|cs|-1];
    var p, ns := Fold(t, rest, hash, cycle), Notes(t, rest, hash, cycle);
    var last := NoteOf(p, c, hash);
    assert Notes(t, cs, hash, cycle) == ns + last;
    assert Fold(t, cs, hash, cycle) == p[c.key := Observe(p, c, hash, cycle)];
    hide Fold, Notes, KeysOf, Fingerprint, Sort;
    assert forall n :: n in ns + last <==> n in ns || n in last;
    assert forall n :: n in last ==> n.key == c.key && n !in ns;
  }

  lemma FoldHasAll(t: Table, cs: seq<Candidate>, hash: Hash, cycle: nat)
    ensures forall k :: k in t.Keys + KeysOf(cs) ==> k in Fold(t, cs, hash, cycle)
  {
    if cs != [] {
      KeysMore(cs);
      FoldHasAll(t, cs[..|cs|-1], hash, cycle);
    }
  }

  /** With distinct keys the change list is the exact difference of the two
      tables: each entity appears at most once, as added, updated or removed
      exactly when it was. */
  lemma ExactDiff(notes: seq<Note>, t: Table, adm: seq<Candidate>, hash: Hash, cycle: nat, k: Key)
    requires Reported(notes, t, adm, hash, cycle) && Before(t, cycle) && DistinctKeys(adm)
    ensures Distinct(notes)
    ensures var t' := Swept(Fold(t, adm, hash, cycle), cycle);
      && (Note(Added, k) in notes <==> k in t' && k !in t)
      && (Note(Updated, k) in notes <==> k in t' && k in t && t'[k].fp != t[k].fp)
      && (Note(Removed, k) in notes <==> k in t && k !in t')
  {
    FoldHasAll(t, adm, hash, cycle);
    NotesExact(t, adm, hash, cycle);
    ReportedAt(notes, t, adm, hash, cycle, k);
    TableIsAdmitted(t, adm, hash, cycle);
    NotesDistinct(notes, t, adm, hash, cycle);
    hide Fold, Notes, KeysOf, Before, Gone, InOrder;
  }

  lemma NotesDistinct(notes: seq<Note>, t: Table, adm: seq<Candidate>, hash: Hash, cycle: nat)
    requires Reported(notes, t, adm, hash, cycle) && Distinct(Notes(t, adm, hash, cycle)) && Before(t, cycle)
    ensures Distinct(notes)
  {
    var ns, gone := Notes(t, adm, hash, cycle), RemovedNotes(Gone(Fold(t, adm, hash, cycle), cycle));
    DistinctMultiset(ns);
    forall n | n in notes ensures multiset(notes)[n] == 1 {
      assert n in multiset(notes);
      NotesAt(t, adm, hash, cycle, n.key);
      hide Fold, Notes, Gone;
      assert n in multiset(ns) <==> n in ns;
      assert n.what == Removed ==> n !in ns;
      assert n in gone ==> n.what == Removed;
    }
    MultisetDistinct(notes);
  }

  // ---- silence ----

  /** The fold notes nothing exactly when the table tracks every candidate already. */
  lemma {:induction false} NoNews(t: Table, cs: seq<Candidate>, hash: Hash, cycle: nat)
    ensures Notes(t, cs, hash, cycle) == [] <==> AllTracked(t, cs, hash)
    ensures Notes(t, cs, hash, cycle) == [] ==> Prints(Fold(t, cs, hash, cycle)) == Prints(t)
  {
    if cs != [] {
      var rest, c := cs[..|cs|-1], cs[|cs|-1];
      var p := Fold(t, rest, hash, cycle);
      NoNews(t, rest, hash, cycle);
      assert Notes(t, cs, hash, cycle) == Notes(t, rest, hash, cycle) + NoteOf(p, c, hash);
      assert Fold(t, cs, hash, cycle) == p[c.key := Observe(p, c, hash, cycle)];
      AllTrackedMore(t, cs, hash);
      hide *;
      if Notes(t, rest, hash, cycle) == [] { OneQuiet(p, t, c, hash, cycle); }
    }
  }

  ghost predicate AllTracked(t: Table, cs: seq<Candidate>, hash: Hash) {
    forall i :: 0 <= i < |cs| ==> Tracked(t, cs[i], hash)
  }

  lemma AllTrackedMore(t: Table, cs: seq<Candidate>, hash: Hash)
    requires cs != []
    ensures AllTracked(t, cs, hash) <==> AllTracked(t, cs[..|cs|-1], hash) && Tracked(t, cs[|cs|-1], hash)
  {
    hide Tracked;
    var rest := cs[..|cs|-1];
    assert forall i :: 0 <= i < |rest| ==> rest[i] == cs[i];
  }

  lemma OneQuiet(p: Table, t: Table, c: Candidate, hash: Hash, cycle: nat)
    requires Prints(p) == Prints(t)
    ensures NoteOf(p, c, hash) == [] <==> Tracked(t, c, hash)
    ensures NoteOf(p, c, hash) == [] ==> Prints(p[c.key := Observe(p, c, hash, cycle)]) == Prints(t)
  {
    SamePrints(p, t);
    hide Fingerprint, Sort;
  }

  lemma SamePrints(p: Table, t: Table)
    requires Prints(p) == Prints(t)
    ensures p.Keys == t.Keys && forall k :: k in t ==> p[k].fp == t[k].fp
  {
    assert p.Keys == Prints(p).Keys && t.Keys == Prints(t).Keys;
    forall k | k in t ensures p[k].fp == t[k].fp { assert Prints(p)[k] == Prints(t)[k]; }
  }

  /** A report is empty exactly when every candidate is tracked and every tracked
      entity is a candidate. */
  lemma SilentReport(notes: seq<Note>, t: Table, adm: seq<Candidate>, hash: Hash, cycle: nat)
    requires Reported(notes, t, adm, hash, cycle) && Before(t, cycle)
    ensures notes == [] <==> AllTracked(t, adm, hash) && t.Keys <= KeysOf(adm)
  {
    NoNews(t, adm, hash, cycle);
    TableIsAdmitted(t, adm, hash, cycle);
    var gone := Gone(Fold(t, adm, hash, cycle), cycle);
    var ns := Notes(t, adm, hash, cycle);
    assert |multiset(notes)| == |multiset(ns)| + |multiset(RemovedNotes(gone))| && |multiset(notes)| == |notes| && |multiset(ns)| == |ns|;
    assert |multiset(RemovedNotes(gone))| == |RemovedNotes(gone)|;
    hide Fold, Notes, Gone, Tracked, KeysOf;
    if gone != {} {
      var k :| k in gone;
      assert Note(Removed, k) in RemovedNotes(gone);
    } else {
      assert RemovedNotes(gone) == {};
    }
  }

  /** A cycle that proposes exactly what the last one proposed is silent if and
      only if no two admitted candidates disagree about one key. */
  lemma RepeatIsSilent(t: Table, adm: seq<Candidate>, hash: Hash, cycle: nat, later: nat, notes: seq<Note>)
    requires Before(t, cycle) && cycle < later
    requires Reported(notes, Swept(Fold(t, adm, hash, cycle), cycle), adm, hash, later)
    ensures notes == [] <==> Agree(adm, hash)
  {
    var full := Fold(t, adm, hash, cycle);
    var t' := Swept(full, cycle);
    FoldKeys(t, adm, hash, cycle);
    TableIsAdmitted(t, adm, hash, cycle);
    SilentReport(notes, t', adm, hash, later);
    assert forall i :: 0 <= i < |adm| ==> adm[i].key in KeysOf(adm);
    forall i | 0 <= i < |adm| && Agree(adm, hash) ensures Tracked(t', adm[i], hash) {
      FoldPrint(t, adm, hash, cycle, i);
      hide Fold, KeysOf, Fingerprint;
    }
    hide Fold, KeysOf, Fingerprint, Swept, Reported;
    if AllTracked(t', adm, hash) {
      forall i, j | 0 <= i < |adm| && 0 <= j < |adm| && adm[i].key == adm[j].key
        ensures Fingerprint(hash, adm[i]) == Fingerprint(hash, adm[j])
      {
        assert Tracked(t', adm[i], hash) && Tracked(t', adm[j], hash);
      }
    }
  }

  // ---- silence under reordering ----

  /** A candidate with its attributes in order. */
  function Canonical(c: Candidate): Candidate {
    c.(attrs := Sort(AttrLe, c.attrs))
  }

  function Canonicals(cs: seq<Candidate>): seq<Candidate> {
    seq(|cs|, i requires 0 <= i < |cs| => Canonical(cs[i]))
  }

  /** The same candidates, proposed in any order with their attributes in any order. */
  ghost predicate SameHost(a: seq<Candidate>, b: seq<Candidate>) {
    multiset(Canonicals(a)) == multiset(Canonicals(b))
  }

  lemma CanonicalsJoin(a: seq<Candidate>, b: seq<Candidate>)
    ensures Canonicals(a + b) == Canonicals(a) + Canonicals(b)
  {
  }

  lemma {:induction false} InsertCanonical(x: Candidate, s: seq<Candidate>)
    ensures Insert(RankLe, Canonical(x), Canonicals(s)) == Canonicals(Insert(RankLe, x, s))
  {
    hide Canonicals, Canonical, RankLe;
    CanonicalsOf([x]);
    CanonicalsJoin([x], s);
    if s == [] {
      assert [x] + s == [x] && Canonicals([x]) == [Canonical(x)];
    } else {
      CanonicalHead(x, s);
      InsertCanonical(x, s[1..]);
      CanonicalsJoin([s[0]], Insert(RankLe, x, s[1..]));
    }
  }

  lemma CanonicalHead(x: Candidate, s: seq<Candidate>)
    requires s != []
    ensures RankLe(Canonical(x), Canonical(s[0])) == RankLe(x, s[0])
    ensures Canonicals(s) == [Canonical(s[0])] + Canonicals(s[1..]) && Canonicals([s[0]]) == [Canonical(s[0])]
  {
    CanonicalRank(x, s[0]);
    hide Canonical, RankLe;
  }

  lemma CanonicalRank(x: Candidate, y: Candidate)
    ensures RankLe(Canonical(x), Canonical(y)) == RankLe(x, y)
  {
  }

  lemma {:induction false} SortCanonical(s: seq<Candidate>)
    ensures Sort(RankLe, Canonicals(s)) == Canonicals(Sort(RankLe, s))
  {
    hide Canonicals, Canonical, RankLe, Insert;
    CanonicalsOf(s);
    if s != [] {
      CanonicalHead(s[0], s);
      SortCanonical(s[1..]);
      InsertCanonical(s[0], Sort(RankLe, s[1..]));
    }
  }

  lemma {:induction false} CountCanonical(s: seq<Candidate>, k: Kind)
    ensures CountKind(Canonicals(s), k) == CountKind(s, k)
  {
    if s != [] {
      CountCanonical(s[..|s|-1], k);
      assert Canonicals(s)[..|s|-1] == Canonicals(s[..|s|-1]);
    }
  }

  lemma {:induction false} GreedyCanonical(s: seq<Candidate>, caps: Caps)
    ensures Greedy(Canonicals(s), caps) == Canonicals(Greedy(s, caps))
  {
    hide Canonicals, Canonical, CountKind;
    CanonicalsOf(s);
    if s != [] {
      var rest, c := s[..|s|-1], s[|s|-1];
      GreedyCanonical(rest, caps);
      CountCanonical(Greedy(rest, caps), c.kind);
      CanonicalsJoin(Greedy(rest, caps), [c]);
      CanonicalsOf([c]);
      CanonicalsOf(Greedy(rest, caps));
    }
  }

  lemma CanonicalsOf(s: seq<Candidate>)
    ensures |Canonicals(s)| == |s| && (s == [] ==> Canonicals(s) == [])
    ensures |s| == 1 ==> Canonicals(s) == [Canonical(s[0])]
    ensures s != [] ==>
      && Canonicals(s)[..|s|-1] == Canonicals(s[..|s|-1]) && Canonicals(s)[|s|-1] == Canonical(s[|s|-1])
      && Canonical(s[|s|-1]).kind == s[|s|-1].kind
  {
  }

  lemma SameAdmission(a: seq<Candidate>, b: seq<Candidate>, caps: Caps)
    requires SameHost(a, b) && DistinctKeys(a)
    ensures Canonicals(Admitted(a, caps)) == Canonicals(Admitted(b, caps))
  {
    assert DistinctKeys(Canonicals(a));
    AdmissionForgetsOrder(Canonicals(a), Canonicals(b), caps);
    SortCanonical(a);
    SortCanonical(b);
    GreedyCanonical(Sort(RankLe, a), caps);
    GreedyCanonical(Sort(RankLe, b), caps);
  }

  // ---- distinct keys survive admission ----

  lemma {:induction false} InsertKeys(x: Candidate, s: seq<Candidate>)
    requires DistinctKeys(s) && x.key !in KeysOf(s)
    ensures DistinctKeys(Insert(RankLe, x, s)) && KeysOf(Insert(RankLe, x, s)) == KeysOf(s) + {x.key}
  {
    hide KeysOf, DistinctKeys, RankLe;
    if s == [] || RankLe(x, s[0]) {
      assert s == [] ==> [x] + s == [x];
      PrependKey(x, s);
    } else {
      HeadKey(s);
      InsertKeys(x, s[1..]);
      PrependKey(s[0], Insert(RankLe, x, s[1..]));
    }
  }

  lemma HeadKey(s: seq<Candidate>)
    requires DistinctKeys(s) && s != []
    ensures DistinctKeys(s[1..]) && s[0].key !in KeysOf(s[1..]) && KeysOf(s) == KeysOf(s[1..]) + {s[0].key}
  {
    assert s == [s[0]] + s[1..];
    assert forall i :: 0 <= i < |s| - 1 ==> s[1..][i] == s[i+1];
  }

  lemma PrependKey(x: Candidate, s: seq<Candidate>)
    requires DistinctKeys(s) && x.key !in KeysOf(s)
    ensures DistinctKeys([x] + s) && KeysOf([x] + s) == KeysOf(s) + {x.key}
  {
    forall i | 0 <= i < |s| ensures s[i].key in KeysOf(s) { }
  }

  lemma {:induction false} SortKeys(s: seq<Candidate>)
    requires DistinctKeys(s)
    ensures DistinctKeys(Sort(RankLe, s)) && KeysOf(Sort(RankLe, s)) == KeysOf(s)
  {
    if s != [] {
      HeadKey(s);
      SortKeys(s[1..]);
      InsertKeys(s[0], Sort(RankLe, s[1..]));
    }
  }

  lemma {:induction false} GreedyDistinct(s: seq<Candidate>, caps: Caps)
    requires DistinctKeys(s)
    ensures DistinctKeys(Greedy(s, caps)) && KeysOf(Greedy(s, caps)) <= KeysOf(s)
  {
    if s != [] {
      var rest, c := s[..|s|-1], s[|s|-1];
      GreedyDistinct(rest, caps);
      KeysMore(s);
      NewKey(s);
      var kept := Greedy(rest, caps);
      assert forall i :: 0 <= i < |kept| ==> kept[i].key in KeysOf(kept);
      KeysMore(kept + [c]);
      assert (kept + [c])[..|kept|] == kept;
    }
  }

  lemma AdmittedDistinct(s: seq<Candidate>, caps: Caps)
    requires DistinctKeys(s)
    ensures DistinctKeys(Admitted(s, caps)) && KeysOf(Admitted(s, caps)) <= KeysOf(s)
  {
    SortKeys(s);
    GreedyDistinct(Sort(RankLe, s), caps);
  }

  /** A host whose candidates have distinct keys and do not change is silent from
      the second cycle on, in whatever order the sources report the candidates
      and their attributes, and even while it is over its caps. */
  lemma StableHostIsSilent(t: Table, a: seq<Candidate>, b: seq<Candidate>, caps: Caps, hash: Hash, cycle: nat, later: nat, notes: seq<Note>)
    requires Before(t, cycle) && cycle < later && DistinctKeys(a) && SameHost(a, b)
    requires Reported(notes, Swept(Fold(t, Admitted(a, caps), hash, cycle), cycle), Admitted(b, caps), hash, later)
    ensures notes == []
  {
    var was, adm := Admitted(a, caps), Admitted(b, caps);
    var t' := Swept(Fold(t, was, hash, cycle), cycle);
    AdmittedDistinct(a, caps);
    SameAdmission(a, b, caps);
    FoldKeys(t, was, hash, cycle);
    TableIsAdmitted(t, was, hash, cycle);
    hide Admitted;
    SameKeys(was, adm);
    assert Before(t', later);
    SilentReport(notes, t', adm, hash, later);
    forall i | 0 <= i < |adm| ensures Tracked(t', adm[i], hash) {
      SamePrint(was, adm, hash, i);
      FoldPrint(t, was, hash, cycle, i);
      assert was[i].key in KeysOf(was);
      hide Fold, KeysOf, Fingerprint, Canonicals;
    }
    hide Admitted, Agree, Before, Canonicals, DistinctKeys, Fingerprint, Fold, Gone, KeysOf, Reported, SameHost, Swept,
      Tracked;
  }

  lemma SameKeys(a: seq<Candidate>, b: seq<Candidate>)
    requires Canonicals(a) == Canonicals(b)
    ensures |a| == |b| && KeysOf(a) == KeysOf(b)
  {
    assert |Canonicals(a)| == |a| && |Canonicals(b)| == |b|;
    forall i | 0 <= i < |a| ensures a[i].key == b[i].key {
      assert Canonicals(a)[i] == Canonicals(b)[i];
    }
  }

  lemma SamePrint(a: seq<Candidate>, b: seq<Candidate>, hash: Hash, i: nat)
    requires Canonicals(a) == Canonicals(b) && i < |b|
    ensures i < |a| && a[i].key == b[i].key && Fingerprint(hash, a[i]) == Fingerprint(hash, b[i])
  {
    assert |Canonicals(a)| == |a| && |Canonicals(b)| == |b|;
    assert Canonicals(a)[i] == Canonicals(b)[i];
  }
}
