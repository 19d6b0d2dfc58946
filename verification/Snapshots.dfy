/** A full inventory sent over several cycles under a per-cycle event budget
    (internal/modules/discovery/collect.go, emit.go and topology.go). */
module Snapshots {
  import opened Sorting
  import opened Capacity

  predicate KeyLe(a: Key, b: Key) { a <= b }

  ghost predicate Ascending(s: seq<Key>) {
    forall i, j :: 0 <= i < j < |s| ==> s[i] < s[j]
  }

  /** Not sent yet: a cursor of 0 means the snapshot is at its beginning. */
  predicate Pending(cursor: Key, k: Key) {
    cursor == 0 || k > cursor
  }

  // ---- the event budget ----

  class Emitter {
    const maxEvents: int
    const eventsEnabled: bool
    var eventsCycle: nat
    var eventsDropped: nat
    var telemetry: seq<Key>

    constructor (maxEvents: int, eventsEnabled: bool)
      ensures this.maxEvents == maxEvents && this.eventsEnabled == eventsEnabled && eventsCycle == 0 && telemetry == []
    {
      this.maxEvents, this.eventsEnabled := maxEvents, eventsEnabled;
      eventsCycle, eventsDropped, telemetry := 0, 0, [];
    }

    method BeginEvents()
      modifies this`eventsCycle
      ensures eventsCycle == 0
    {
      eventsCycle := 0;
    }

    /** Whether one more event may leave this cycle. */
    ghost predicate Room()
      reads this
    {
      eventsEnabled && (maxEvents > 0 ==> eventsCycle < maxEvents)
    }

    method EmitEvent(k: Key) returns (sent: bool)
      modifies this
      ensures sent == old(Room())
      ensures telemetry == old(telemetry) + if sent then [k] else []
      ensures eventsCycle == old(eventsCycle) + if sent then 1 else 0
      ensures eventsDropped == old(eventsDropped) + if !sent && eventsEnabled then 1 else 0
    {
      sent := false;
      if !eventsEnabled { return; }
      if maxEvents > 0 && eventsCycle >= maxEvents {
        eventsDropped := eventsDropped + 1;
        return;
      }
      eventsCycle := eventsCycle + 1;
      telemetry := telemetry + [k];
      sent := true;
    }
  }

  // ---- one cycle ----

  /** One cycle of a snapshot: the pending keys leave in order until the room is
      used up, and the cursor says where to go on. `room` is what the budget
      allows, and is negative when it allows everything. */
  ghost predicate Cycle(keys: set<Key>, cursor: Key, room: int, sent: seq<Key>, next: Key, done: bool) {
    && Ascending(sent)
    && (forall k :: k in sent ==> k in keys && Pending(cursor, k))
    && (forall k, j :: k in keys && Pending(cursor, k) && k !in sent && 0 <= j < |sent| ==> sent[j] < k)
    && (room >= 0 ==> |sent| <= room)
    && (done <==> forall k :: k in keys && Pending(cursor, k) ==> k in sent)
    && (!done ==> |sent| == room)
    && next == (if done then 0 else if sent == [] then cursor else sent[|sent|-1])
  }

  /** Every tracked key, in order. */
  method Snapshot(keys: set<Key>) returns (out: seq<Key>)
    ensures Ascending(out) && Elems(out) == keys
  {
    var list: seq<Key> := [];
    var rest := keys;
    while rest != {}
      invariant Distinct(list) && Elems(list) + rest == keys && Elems(list) !! rest
      decreases rest
    {
      var k :| k in rest;
      assert Elems(list + [k]) == Elems(list) + {k};
      list, rest := list + [k], rest - {k};
    }
    out := Sort(KeyLe, list);
    SortSorted(KeyLe, list);
    SortDistinct(KeyLe, list);
    SameElems(list, out);
  }

  class Module {
    var resyncCursor: Key

    constructor ()
      ensures resyncCursor == 0
    {
      resyncCursor := 0;
    }

    /** Send the inventory from where the last cycle's budget ran out. */
    method EmitEntitySnapshotFrom(em: Emitter, keys: set<Key>) returns (done: bool, ghost sent: seq<Key>)
      modifies this, em
      ensures em.telemetry == old(em.telemetry) + sent
      ensures Cycle(keys, old(resyncCursor), old(RoomLeft(em)), sent, resyncCursor, done)
    {
      var all := Snapshot(keys);
      var last: Key := resyncCursor;
      sent := [];
      var i := 0;
      while i < |all|
        invariant resyncCursor == old(resyncCursor)
        invariant em.telemetry == old(em.telemetry) + sent
        invariant Progress(all, resyncCursor, i, sent, last)
        invariant em.eventsCycle == old(em.eventsCycle) + |sent|
        invariant old(RoomLeft(em)) >= 0 ==> |sent| <= old(RoomLeft(em))
      {
        var k := all[i];
        if resyncCursor != 0 && k <= resyncCursor {
          Skipped(all, resyncCursor, i, sent, last);
          i := i + 1;
          continue;
        }
        var ok := em.EmitEvent(k);
        if !ok {
          resyncCursor := last;
          Truncated(keys, all, old(resyncCursor), i, sent, last, old(RoomLeft(em)));
          return false, sent;
        }
        ProgressMore(all, resyncCursor, i, sent, last);
        last, sent, i := k, sent + [k], i + 1;
      }
      Completed(keys, all, resyncCursor, sent, last, old(RoomLeft(em)));
      resyncCursor := 0;
      done := true;
    }
  }

  /** How many events may still leave this cycle; negative is without bound. */
  ghost function RoomLeft(em: Emitter): int
    reads em
  {
    if !em.eventsEnabled then 0
    else if em.maxEvents <= 0 then -1
    else if em.eventsCycle >= em.maxEvents then 0
    else em.maxEvents - em.eventsCycle
  }

  /** The pending keys among the first `i` have been sent. */
  ghost predicate Progress(all: seq<Key>, cursor: Key, i: int, sent: seq<Key>, last: Key) {
    && 0 <= i <= |all| && Ascending(sent)
    && (forall k :: k in sent <==> k in all[..i] && Pending(cursor, k))
    && last == (if sent == [] then cursor else sent[|sent|-1])
  }

  lemma ProgressMore(all: seq<Key>, cursor: Key, i: nat, sent: seq<Key>, last: Key)
    requires Progress(all, cursor, i, sent, last) && i < |all| && Ascending(all) && Pending(cursor, all[i])
    ensures Progress(all, cursor, i + 1, sent + [all[i]], all[i])
  {
    forall j | 0 <= j < |sent| ensures sent[j] < all[i] { assert sent[j] in all[..i]; }
    assert all[..i+1] == all[..i] + [all[i]];
  }

  lemma Skipped(all: seq<Key>, cursor: Key, i: nat, sent: seq<Key>, last: Key)
    requires Progress(all, cursor, i, sent, last) && i < |all| && !Pending(cursor, all[i])
    ensures Progress(all, cursor, i + 1, sent, last)
  {
    assert all[..i+1] == all[..i] + [all[i]];
  }

  lemma Truncated(keys: set<Key>, all: seq<Key>, cursor: Key, i: nat, sent: seq<Key>, last: Key, room: int)
    requires Ascending(all) && Elems(all) == keys && Progress(all, cursor, i, sent, last)
    requires i < |all| && Pending(cursor, all[i]) && |sent| == room
    ensures Cycle(keys, cursor, room, sent, last, false)
  {
    forall k, j | k in keys && Pending(cursor, k) && k !in sent && 0 <= j < |sent| ensures sent[j] < k {
      assert k in all && k !in all[..i] && sent[j] in all[..i];
    }
    assert all[i] in keys;
    assert all[i] !in sent;
    assert forall k :: k in sent ==> k in all;
  }

  lemma Completed(keys: set<Key>, all: seq<Key>, cursor: Key, sent: seq<Key>, last: Key, room: int)
    requires Elems(all) == keys && Progress(all, cursor, |all|, sent, last) && (room >= 0 ==> |sent| <= room)
    ensures Cycle(keys, cursor, room, sent, 0, true)
  {
    assert all[..|all|] == all;
    assert forall k :: k in keys ==> k in all;
  }

  // ---- a whole snapshot, over as many cycles as it takes ----

  /** What the table held, what the budget allowed, what left in one cycle, and
      the cursor it left behind. */
  datatype Turn = Turn(keys: set<Key>, room: int, sent: seq<Key>, next: Key)

  /** Where turn `i` takes over. */
  function CursorAt(turns: seq<Turn>, i: int): Key
    requires 0 <= i <= |turns|
  {
    if i == 0 then 0 else turns[i-1].next
  }

  ghost predicate IsCycle(t: Turn, cursor: Key, done: bool) {
    Cycle(t.keys, cursor, t.room, t.sent, t.next, done)
  }

  /** `turns` are the cycles of one snapshot so far, all truncated. */
  ghost predicate Partway(turns: seq<Turn>) {
    forall i :: 0 <= i < |turns| ==> IsCycle(turns[i], CursorAt(turns, i), false)
  }

  /** `turns` are the cycles of one snapshot, from its first to its completion. */
  ghost predicate Finished(turns: seq<Turn>) {
    && turns != [] && Partway(turns[..|turns|-1])
    && IsCycle(turns[|turns|-1], CursorAt(turns, |turns|-1), true)
  }

  ghost function AllSent(turns: seq<Turn>): seq<Key> {
    if turns == [] then [] else AllSent(turns[..|turns|-1]) + turns[|turns|-1].sent
  }

  /** Tracked in every cycle of the snapshot. */
  ghost predicate Throughout(turns: seq<Turn>, k: Key) {
    forall i :: 0 <= i < |turns| ==> k in turns[i].keys
  }

  /** No tracked entity has the empty key. */
  ghost predicate Named(turns: seq<Turn>) {
    forall i :: 0 <= i < |turns| ==> 0 !in turns[i].keys
  }

  /** The last of the keys sent, or the beginning. */
  function LastSent(s: seq<Key>): Key {
    if s == [] then 0 else s[|s|-1]
  }

  lemma JoinAscends(a: seq<Key>, b: seq<Key>, cursor: Key)
    requires Ascending(a) && Ascending(b) && cursor == LastSent(a)
    requires forall k :: k in a + b ==> k != 0
    requires forall k :: k in b ==> Pending(cursor, k)
    ensures Ascending(a + b)
    ensures LastSent(a + b) == if b == [] then cursor else b[|b|-1]
  {
    if a != [] { assert a[|a|-1] in a + b; }
    forall i | 0 <= i < |a| ensures a[i] <= a[|a|-1] { }
    forall i | 0 <= i < |b| ensures b[i] in b { }
  }

  lemma StillPending(t: Turn, cursor: Key, k: Key)
    requires IsCycle(t, cursor, false) && k in t.keys && Pending(cursor, k) && k !in t.sent
    ensures Pending(t.next, k)
  {
    assert t.sent != [] ==> t.sent[|t.sent|-1] < k;
  }

  lemma PartwayShorter(turns: seq<Turn>)
    requires turns != [] && Partway(turns)
    ensures Partway(turns[..|turns|-1]) && IsCycle(turns[|turns|-1], CursorAt(turns, |turns|-1), false)
    ensures CursorAt(turns[..|turns|-1], |turns|-1) == CursorAt(turns, |turns|-1)
  {
    var rest := turns[..|turns|-1];
    assert forall i :: 0 <= i < |rest| ==> rest[i] == turns[i] && CursorAt(rest, i) == CursorAt(turns, i);
    hide IsCycle;
  }

  /** A truncated snapshot has sent, in order, everything up to its cursor. */
  lemma {:induction false} PartwayInv(turns: seq<Turn>)
    requires Partway(turns) && Named(turns)
    ensures Ascending(AllSent(turns)) && CursorAt(turns, |turns|) == LastSent(AllSent(turns))
    ensures forall k :: k in AllSent(turns) ==> k != 0
    ensures forall k :: k != 0 && Throughout(turns, k) && !Pending(CursorAt(turns, |turns|), k) ==> k in AllSent(turns)
  {
    if turns != [] {
      var rest, t := turns[..|turns|-1], turns[|turns|-1];
      PartwayShorter(turns);
      PartwayInv(rest);
      hide Partway;
      var a, c := AllSent(rest), CursorAt(turns, |turns|-1);
      JoinAscends(a, t.sent, c);
      forall k | k != 0 && Throughout(turns, k) && !Pending(t.next, k) ensures k in a + t.sent {
        assert Throughout(rest, k) && k in t.keys;
        if Pending(c, k) && k !in t.sent { StillPending(t, c, k); }
      }
    }
  }

  /** However the table changes between cycles, one snapshot sends no entity
      twice, and sends every entity that was tracked throughout. */
  lemma SentExactlyOnce(turns: seq<Turn>)
    requires Finished(turns) && Named(turns)
    ensures Ascending(AllSent(turns))
    ensures forall k :: Throughout(turns, k) ==> k in AllSent(turns)
  {
    var rest, t := turns[..|turns|-1], turns[|turns|-1];
    PartwayInv(rest);
    hide Partway;
    var c := CursorAt(turns, |turns|-1);
    assert c == CursorAt(rest, |rest|);
    JoinAscends(AllSent(rest), t.sent, c);
    forall k | Throughout(turns, k) ensures k in AllSent(rest) + t.sent {
      assert Throughout(rest, k) && k in t.keys;
    }
  }

  /** The names matter: the cursor cannot stand for the empty key, so a snapshot
      truncated just after it starts over. */
  lemma EmptyKeyRepeats()
    ensures var t := Turn({0, 5}, 1, [0], 0);
      Partway([t, t]) && AllSent([t, t]) == [0, 0] && Throughout([t, t], 5)
  {
    var t := Turn({0, 5}, 1, [0], 0);
    assert IsCycle(t, 0, false) by { assert 5 in t.keys && Pending(0, 5) && 5 !in t.sent; }
    assert AllSent([t]) == [0];
    assert [t, t][..1] == [t];
  }

  // ---- how long a snapshot takes ----

  /** The table and the budget do not change while the snapshot runs. */
  ghost predicate Steady(turns: seq<Turn>, keys: set<Key>, budget: nat) {
    0 !in keys && forall i :: 0 <= i < |turns| ==> turns[i].keys == keys && turns[i].room == budget
  }

  /** A snapshot truncated m times has sent m full budgets, and not everything. */
  lemma {:induction false} SteadyPartway(turns: seq<Turn>, keys: set<Key>, budget: nat)
    requires Partway(turns) && Steady(turns, keys, budget)
    ensures |AllSent(turns)| == Times(|turns|, budget) && forall k :: k in AllSent(turns) ==> k in keys
    ensures turns != [] ==> Times(|turns|, budget) < |keys|
  {
    if turns != [] {
      var rest, t := turns[..|turns|-1], turns[|turns|-1];
      PartwayShorter(turns);
      SteadyPartway(rest, keys, budget);
      PartwayInv(turns);
      PartwayInv(rest);
      hide Partway, Ascending, Throughout;
      SteadyStep(AllSent(rest), t, CursorAt(turns, |rest|), keys);
    }
  }

  function Times(m: nat, b: nat): nat {
    if m == 0 then 0 else Times(m - 1, b) + b
  }

  lemma {:induction false} TimesIs(m: nat, b: nat)
    ensures Times(m, b) == m * b
  {
    if m > 0 { TimesIs(m - 1, b); }
  }

  lemma SteadyStep(sent: seq<Key>, t: Turn, cursor: Key, keys: set<Key>)
    requires IsCycle(t, cursor, false) && t.keys == keys
    requires Ascending(sent + t.sent) && (forall k :: k in sent ==> k in keys && k != 0)
    requires Ascending(sent) && cursor == LastSent(sent)
    ensures |sent + t.sent| < |keys| && |t.sent| == t.room && forall k :: k in sent + t.sent ==> k in keys
  {
    var k :| k in keys && Pending(cursor, k) && k !in t.sent;
    NotYet(sent, cursor, k);
    hide Ascending;
    AscendingSize(sent + t.sent, keys - {k});
    assert |keys| == |keys - {k}| + 1;
  }

  lemma NotYet(s: seq<Key>, cursor: Key, k: Key)
    requires Ascending(s) && cursor == LastSent(s) && Pending(cursor, k)
    requires forall j :: j in s ==> j != 0
    ensures k !in s
  {
    if s != [] { assert s[|s|-1] in s; }
  }

  lemma {:induction false} AscendingSize(s: seq<Key>, within: set<Key>)
    requires Ascending(s) && forall k :: k in s ==> k in within
    ensures |s| <= |within|
    ensures |s| == |within| ==> forall k :: k in within ==> k in s
  {
    if s != [] {
      var rest, last := s[..|s|-1], s[|s|-1];
      assert s == rest + [last] && last !in rest && last in s;
      assert |within| == |within - {last}| + 1;
      AscendingSize(rest, within - {last});
    } else if |within| == 0 {
      assert within == {};
    }
  }

  /** On an unchanged table of n entities a snapshot under budget b takes
      ceil(n / b) cycles, or the one it takes to find nothing to send. */
  lemma CyclesNeeded(turns: seq<Turn>, keys: set<Key>, budget: nat)
    requires Finished(turns) && Steady(turns, keys, budget) && budget > 0
    ensures |turns| == if keys == {} then 1 else (|keys| + budget - 1) / budget
  {
    var rest, t := turns[..|turns|-1], turns[|turns|-1];
    SteadyPartway(rest, keys, budget);
    TimesIs(|rest|, budget);
    assert |t.sent| <= budget && Elems(AllSent(turns)) == keys by { SteadySent(turns, keys, budget); }
    AscendingIsDistinct(AllSent(turns)) by { SentExactlyOnce(turns); }
    assert |AllSent(turns)| == |AllSent(rest)| + |t.sent|;
    hide *;
    if keys != {} {
      assert |keys| > 0;
      OnePlusCeiling(|keys|, budget, |rest|);
    }
  }

  lemma SteadySent(turns: seq<Turn>, keys: set<Key>, budget: nat)
    requires Finished(turns) && Steady(turns, keys, budget)
    ensures |turns[|turns|-1].sent| <= budget && Elems(AllSent(turns)) == keys
  {
    SentExactlyOnce(turns);
    SteadyPartway(turns[..|turns|-1], keys, budget);
    assert forall k :: k in keys ==> Throughout(turns, k);
    hide Partway;
  }

  lemma AscendingIsDistinct(s: seq<Key>)
    requires Ascending(s)
    ensures |Elems(s)| == |s|
  {
    AscendingSize(s, Elems(s));
    if |s| < |Elems(s)| { TooMany(s); }
  }

  lemma {:induction false} TooMany(s: seq<Key>)
    ensures |Elems(s)| <= |s|
  {
    if s != [] {
      TooMany(s[..|s|-1]);
      assert s == s[..|s|-1] + [s[|s|-1]];
      assert Elems(s) == Elems(s[..|s|-1]) + {s[|s|-1]};
    }
  }

  lemma OnePlusCeiling(n: nat, b: nat, m: nat)
    requires b > 0 && m * b < n <= m * b + b
    ensures (n + b - 1) / b == m + 1
  {
    var r := n - m * b - 1;
    assert n + b - 1 == (m + 1) * b + r && 0 <= r < b;
    Quotient((m + 1), b, r);
  }

  lemma Quotient(q: nat, b: nat, r: nat)
    requires r < b
    ensures (q * b + r) / b == q
  {
    var d := (q * b + r) / b;
    assert d * b <= q * b + r < d * b + b;
    assert d < q ==> (d + 1) * b <= q * b;
    assert d > q ==> (q + 1) * b <= d * b;
  }
}
