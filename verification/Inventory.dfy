/** A host's inventory in the fleet store (internal/fleet/inventory.go): entity
    events are folded into a capped table, and folding a batch again changes
    nothing. */
module Inventory {

  /** Entity keys, kinds and names; 0 is the empty one. */
  type Key = nat

  datatype Entity = Entity(kind: nat, name: nat, detail: nat, gone: bool)

  type Table = map<Key, Entity>

  datatype Event = Discovered(key: Key, entity: Entity) | Changed(key: Key, entity: Entity) | Removed(key: Key) | OtherEvent

  /** The event tells of an entity that can be filed. */
  predicate IsReport(ev: Event) {
    (ev.Discovered? || ev.Changed?) && ev.key != 0 && ev.entity.kind != 0 && ev.entity.name != 0
  }

  predicate IsRemoval(ev: Event) {
    ev.Removed? && ev.key != 0
  }

  /** Past the cap a new key is turned away, an old one is not. */
  predicate HasRoom(t: Table, k: Key, cap: nat) {
    k in t || |t| < cap
  }

  function Step(t: Table, ev: Event, cap: nat): Table {
    if IsReport(ev) then
      if HasRoom(t, ev.key, cap) then t[ev.key := ev.entity] else t
    else if IsRemoval(ev) && ev.key in t then t[ev.key := t[ev.key].(gone := true)]
    else t
  }

  function Fold(t: Table, evs: seq<Event>, cap: nat): Table {
    if evs == [] then t else Step(Fold(t, evs[..|evs|-1], cap), evs[|evs|-1], cap)
  }

  function Drops(t: Table, evs: seq<Event>, cap: nat): nat {
    if evs == [] then 0
    else
      var p, ev := Fold(t, evs[..|evs|-1], cap), evs[|evs|-1];
      Drops(t, evs[..|evs|-1], cap) + if IsReport(ev) && !HasRoom(p, ev.key, cap) then 1 else 0
  }

  class Host {
    const entitiesPerHost: nat
    var entities: Table
    var dropped: nat

    constructor (entitiesPerHost: nat)
      ensures this.entitiesPerHost == entitiesPerHost && entities == map[] && dropped == 0
    {
      this.entitiesPerHost, entities, dropped := entitiesPerHost, map[], 0;
    }

    method IngestEvents(events: seq<Event>)
      modifies this
      ensures entities == Fold(old(entities), events, entitiesPerHost)
      ensures dropped == old(dropped) + Drops(old(entities), events, entitiesPerHost)
    {
      ghost var t, base := entities, dropped;
      for i := 0 to |events|
        invariant entities == Fold(t, events[..i], entitiesPerHost)
        invariant dropped == base + Drops(t, events[..i], entitiesPerHost)
      {
        var ev := events[i];
        assert events[..i+1][..i] == events[..i];
        if ev.OtherEvent? || ev.key == 0 { continue; }
        if ev.Discovered? || ev.Changed? {
          if ev.entity.kind == 0 || ev.entity.name == 0 { continue; }
          if ev.key !in entities && |entities| >= entitiesPerHost {
            dropped := dropped + 1;
            continue;
          }
          entities := entities[ev.key := ev.entity];
        } else if ev.key in entities {
          entities := entities[ev.key := entities[ev.key].(gone := true)];
        }
      }
      assert events[..|events|] == events;
    }
  }

  // ---- the table only grows ----

  lemma {:induction false} FoldGrows(t: Table, evs: seq<Event>, cap: nat)
    ensures t.Keys <= Fold(t, evs, cap).Keys
    ensures |t| <= |Fold(t, evs, cap)|
    ensures |t| <= cap ==> |Fold(t, evs, cap)| <= cap
  {
    if evs != [] {
      FoldGrows(t, evs[..|evs|-1], cap);
    }
  }

  lemma SplitFold(t: Table, a: seq<Event>, b: seq<Event>, cap: nat)
    ensures Fold(t, a + b, cap) == Fold(Fold(t, a, cap), b, cap)
    decreases b
  {
    if b == [] {
      assert a + b == a;
    } else {
      SplitFold(t, a, b[..|b|-1], cap);
      assert (a + b)[..|a+b|-1] == a + b[..|b|-1];
    }
  }

  // ---- what a batch leaves of one key ----

  /** The last word of a batch on a key that stays in the table throughout:
      the last report, marked gone if a removal follows it. */
  function LastWord(evs: seq<Event>, k: Key, e: Entity): Entity {
    if evs == [] then e
    else
      var was, ev := LastWord(evs[..|evs|-1], k, e), evs[|evs|-1];
      if IsReport(ev) && ev.key == k then ev.entity
      else if IsRemoval(ev) && ev.key == k then was.(gone := true)
      else was
  }

  lemma {:induction false} TrackedKey(t: Table, evs: seq<Event>, cap: nat, k: Key)
    requires k in t
    ensures k in Fold(t, evs, cap) && Fold(t, evs, cap)[k] == LastWord(evs, k, t[k])
  {
    if evs != [] {
      TrackedKey(t, evs[..|evs|-1], cap, k);
    }
  }

  /** A batch's last word is the same when it is heard twice. */
  lemma {:induction false} LastWordTwice(evs: seq<Event>, k: Key, e: Entity)
    ensures LastWord(evs, k, LastWord(evs, k, e)) == LastWord(evs, k, e)
    ensures (forall i :: 0 <= i < |evs| ==> !(IsReport(evs[i]) && evs[i].key == k)) ==>
      LastWord(evs, k, e) == e || LastWord(evs, k, e) == e.(gone := true)
    ensures (exists i :: 0 <= i < |evs| && IsReport(evs[i]) && evs[i].key == k) ==>
      forall e' :: LastWord(evs, k, e') == LastWord(evs, k, e)
  {
    if evs != [] {
      var rest, ev := evs[..|evs|-1], evs[|evs|-1];
      LastWordTwice(rest, k, e);
      assert evs == rest + [ev];
      if IsReport(ev) && ev.key == k {
      } else if exists i :: 0 <= i < |evs| && IsReport(evs[i]) && evs[i].key == k {
        var i :| 0 <= i < |evs| && IsReport(evs[i]) && evs[i].key == k;
        assert rest[i] == evs[i];
      } else {
        assert forall i :: 0 <= i < |rest| ==> rest[i] == evs[i];
        LastWordQuiet(rest, k, e);
        LastWordQuiet(rest, k, LastWord(evs, k, e));
      }
    }
  }

  lemma {:induction false} LastWordQuiet(evs: seq<Event>, k: Key, e: Entity)
    requires forall i :: 0 <= i < |evs| ==> !(IsReport(evs[i]) && evs[i].key == k)
    ensures LastWord(evs, k, e) == if exists i :: 0 <= i < |evs| && IsRemoval(evs[i]) && evs[i].key == k then e.(gone := true) else e
  {
    if evs != [] {
      var rest, ev := evs[..|evs|-1], evs[|evs|-1];
      assert evs == rest + [ev];
      assert forall i :: 0 <= i < |rest| ==> rest[i] == evs[i];
      LastWordQuiet(rest, k, e);
      if exists i :: 0 <= i < |rest| && IsRemoval(rest[i]) && rest[i].key == k {
        var i :| 0 <= i < |rest| && IsRemoval(rest[i]) && rest[i].key == k;
        assert IsRemoval(evs[i]);
      }
      if IsRemoval(ev) && ev.key == k { assert evs[|rest|] == ev; }
    }
  }

  // ---- folding a batch twice ----

  /** A key the batch brought in carries the batch's last word on it. */
  lemma {:induction false} NewKey(t: Table, evs: seq<Event>, cap: nat, k: Key, e: Entity)
    requires k !in t && k in Fold(t, evs, cap)
    ensures Fold(t, evs, cap)[k] == LastWord(evs, k, e)
  {
    var rest := evs[..|evs|-1];
    if k in Fold(t, rest, cap) { NewKey(t, rest, cap, k, e); }
  }

  /** If a report's key is not in the table afterwards, the table is full. */
  lemma RejectedMeansFull(t: Table, evs: seq<Event>, cap: nat, i: nat)
    requires i < |evs| && IsReport(evs[i]) && evs[i].key !in Fold(t, evs, cap)
    ensures |Fold(t, evs, cap)| >= cap
  {
    var upTo, rest := evs[..i+1], evs[i+1..];
    assert evs == upTo + rest && upTo[..i] == evs[..i];
    SplitFold(t, upTo, rest, cap);
    FoldGrows(Fold(t, upTo, cap), rest, cap);
    assert Fold(t, upTo, cap) == Step(Fold(t, evs[..i], cap), evs[i], cap);
  }

  /** The second time, the batch brings no key in. */
  lemma {:induction false} NoNewKeys(t: Table, evs: seq<Event>, cap: nat, i: nat)
    requires i <= |evs|
    ensures Fold(Fold(t, evs, cap), evs[..i], cap).Keys == Fold(t, evs, cap).Keys
  {
    var once := Fold(t, evs, cap);
    if i > 0 {
      NoNewKeys(t, evs, cap, i - 1);
      var p, ev := Fold(once, evs[..i-1], cap), evs[i-1];
      assert evs[..i][..i-1] == evs[..i-1];
      assert Fold(once, evs[..i], cap) == Step(p, ev, cap);
      assert |p| == |p.Keys| && |once| == |once.Keys|;
      if IsReport(ev) && ev.key !in once { RejectedMeansFull(t, evs, cap, i - 1); }
      hide Fold;
    }
  }

  /** Folding a batch a second time leaves the table as the first time left it,
      also at the cap, and however reports and removals of one entity are mixed. */
  lemma FoldIsIdempotent(t: Table, evs: seq<Event>, cap: nat)
    ensures Fold(Fold(t, evs, cap), evs, cap) == Fold(t, evs, cap)
  {
    var once := Fold(t, evs, cap);
    var twice := Fold(once, evs, cap);
    NoNewKeys(t, evs, cap, |evs|);
    assert evs[..|evs|] == evs;
    forall k | k in once ensures twice[k] == once[k] {
      TrackedKey(once, evs, cap, k);
      if k in t {
        TrackedKey(t, evs, cap, k);
        LastWordTwice(evs, k, t[k]);
      } else {
        NewKey(t, evs, cap, k, once[k]);
      }
    }
  }

  // ---- what a batch leaves, in the words of the events ----

  /** `evs[i]` reports the entity with key `k`. */
  ghost predicate ReportsAt(evs: seq<Event>, k: Key, i: int) {
    && 0 <= i < |evs| && k != 0
    && ((evs[i].Discovered? && evs[i].key == k) || (evs[i].Changed? && evs[i].key == k))
    && evs[i].entity.kind != 0 && evs[i].entity.name != 0
  }

  ghost predicate LastReport(evs: seq<Event>, k: Key, i: int) {
    ReportsAt(evs, k, i) && forall j :: i < j < |evs| ==> !ReportsAt(evs, k, j)
  }

  ghost predicate RemovedAfter(evs: seq<Event>, k: Key, i: int) {
    exists j :: i < j < |evs| && 0 <= j && k != 0 && evs[j] == Removed(k)
  }

  lemma {:induction false} LastWordIs(evs: seq<Event>, k: Key, e: Entity, i: int)
    requires LastReport(evs, k, i)
    ensures LastWord(evs, k, e) == if RemovedAfter(evs, k, i) then evs[i].entity.(gone := true) else evs[i].entity
  {
    var n := |evs| - 1;
    var rest := evs[..n];
    if i < n {
      assert !ReportsAt(evs, k, n);
      forall j | i < j < n ensures !ReportsAt(rest, k, j) { assert !ReportsAt(evs, k, j); }
      LastWordIs(rest, k, e, i);
      RemovedMore(evs, k, i);
      assert evs[n].Removed? && evs[n].key == k ==> evs[n] == Removed(k);
    } else {
      assert !RemovedAfter(evs, k, i);
    }
  }

  lemma RemovedMore(evs: seq<Event>, k: Key, i: int)
    requires 0 <= i < |evs| - 1
    ensures RemovedAfter(evs, k, i) <==> RemovedAfter(evs[..|evs|-1], k, i) || (k != 0 && evs[|evs|-1] == Removed(k))
  {
    var rest := evs[..|evs|-1];
    if RemovedAfter(rest, k, i) {
      var j :| i < j < |rest| && 0 <= j && rest[j] == Removed(k);
      assert evs[j] == Removed(k);
    }
    if RemovedAfter(evs, k, i) {
      var j :| i < j < |evs| && 0 <= j && evs[j] == Removed(k);
      if j < |rest| { assert rest[j] == Removed(k); }
    }
  }

  /** A tracked entity is as its last discovered or changed event described it, and
      gone exactly if it was described so or a removal came after. */
  lemma LastReportStands(t: Table, evs: seq<Event>, cap: nat, k: Key, i: int)
    requires LastReport(evs, k, i) && k in Fold(t, evs, cap)
    ensures Fold(t, evs, cap)[k] == if RemovedAfter(evs, k, i) then evs[i].entity.(gone := true) else evs[i].entity
  {
    var e := evs[i].entity;
    hide Fold, LastWord;
    if k in t {
      TrackedKey(t, evs, cap, k);
      LastWordIs(evs, k, t[k], i);
    } else {
      NewKey(t, evs, cap, k, e);
      LastWordIs(evs, k, e, i);
    }
  }

  /** A reported entity is tracked afterwards, unless the table is full. */
  lemma ReportedIsTracked(t: Table, evs: seq<Event>, cap: nat, k: Key, i: int)
    requires ReportsAt(evs, k, i)
    ensures k in Fold(t, evs, cap) || |Fold(t, evs, cap)| >= cap
  {
    if k !in Fold(t, evs, cap) { RejectedMeansFull(t, evs, cap, i); }
  }

  /** The report at `i` found no place: its key is not tracked right after it. */
  ghost predicate TurnedAway(t: Table, evs: seq<Event>, cap: nat, i: int) {
    0 <= i < |evs| && !evs[i].OtherEvent? && ReportsAt(evs, evs[i].key, i) && evs[i].key !in Fold(t, evs[..i+1], cap)
  }

  ghost function PlacesTurnedAway(t: Table, evs: seq<Event>, cap: nat): set<int> {
    set i | 0 <= i < |evs| && TurnedAway(t, evs, cap, i)
  }

  lemma LastTurnedAway(t: Table, evs: seq<Event>, cap: nat)
    requires evs != []
    ensures var n := |evs| - 1; var p := Fold(t, evs[..n], cap);
      TurnedAway(t, evs, cap, n) <==> IsReport(evs[n]) && !HasRoom(p, evs[n].key, cap)
  {
    assert evs[..|evs|] == evs;
  }

  lemma EarlierTurnedAway(t: Table, evs: seq<Event>, cap: nat, i: int)
    requires 0 <= i < |evs| - 1
    ensures TurnedAway(t, evs[..|evs|-1], cap, i) <==> TurnedAway(t, evs, cap, i)
  {
    assert evs[..|evs|-1][..i+1] == evs[..i+1];
    hide Fold;
  }

  /** The drops are the reports that found no place. */
  lemma {:induction false} DropsAreTurnedAway(t: Table, evs: seq<Event>, cap: nat)
    ensures Drops(t, evs, cap) == |PlacesTurnedAway(t, evs, cap)|
  {
    hide Fold, TurnedAway, HasRoom, IsReport;
    if evs == [] {
      assert PlacesTurnedAway(t, evs, cap) == {};
    } else {
      var n := |evs| - 1;
      DropsAreTurnedAway(t, evs[..n], cap);
      LastTurnedAway(t, evs, cap);
      forall i | 0 <= i < n ensures TurnedAway(t, evs[..n], cap, i) <==> TurnedAway(t, evs, cap, i) { EarlierTurnedAway(t, evs, cap, i); }
      var before := PlacesTurnedAway(t, evs[..n], cap);
      assert PlacesTurnedAway(t, evs, cap) == if TurnedAway(t, evs, cap, n) then before + {n} else before;
    }
  }

  /** A tracked entity the batch does not report is as it was, and gone if removed;
      nothing but a report makes a key tracked. */
  lemma {:induction false} UnreportedKeys(t: Table, evs: seq<Event>, cap: nat, k: Key)
    requires forall i :: !ReportsAt(evs, k, i)
    ensures k in Fold(t, evs, cap) <==> k in t
    ensures k in t ==> Fold(t, evs, cap)[k] == if RemovedAfter(evs, k, -1) then t[k].(gone := true) else t[k]
  {
    if evs != [] {
      var n := |evs| - 1;
      forall i ensures !ReportsAt(evs[..n], k, i) { assert !ReportsAt(evs, k, i); }
      assert !ReportsAt(evs, k, n);
      UnreportedKeys(t, evs[..n], cap, k);
      RemovedSinceStart(evs, k);
    }
  }

  lemma RemovedSinceStart(evs: seq<Event>, k: Key)
    requires evs != []
    ensures RemovedAfter(evs, k, -1) <==> RemovedAfter(evs[..|evs|-1], k, -1) || (k != 0 && evs[|evs|-1] == Removed(k))
  {
    var rest := evs[..|evs|-1];
    if RemovedAfter(rest, k, -1) {
      var j :| -1 < j < |rest| && 0 <= j && rest[j] == Removed(k);
      assert evs[j] == Removed(k);
    }
    if RemovedAfter(evs, k, -1) {
      var j :| -1 < j < |evs| && 0 <= j && evs[j] == Removed(k);
      if j < |rest| { assert rest[j] == Removed(k); }
    }
  }

  // ---- the view and its counts ----

  datatype Group = Containers | Services | Endpoints | Filesystems | Processes | Other

  /** Where an entity is listed. */
  datatype Kinds = Kinds(container: nat, service: nat, endpoint: nat, filesystem: nat, process: nat)

  predicate IsShown(e: Entity) {
    !e.gone && e.name != 0
  }

  /** The group an entity is listed in, unless an application row covers it. */
  function GroupOf(kinds: Kinds, e: Entity): Group {
    if e.kind == kinds.container then Containers
    else if e.kind == kinds.service then Services
    else if e.kind == kinds.endpoint then Endpoints
    else if e.kind == kinds.filesystem then Filesystems
    else if e.kind == kinds.process then Processes
    else Other
  }

  predicate IsListed(kinds: Kinds, covered: set<nat>, e: Entity, g: Group) {
    IsShown(e) && GroupOf(kinds, e) == g && (g == Processes ==> e.name !in covered)
  }

  /** The keys a full scan lists in one group. */
  ghost function Listed(kinds: Kinds, covered: set<nat>, t: Table, g: Group): set<Key> {
    set k | k in t && IsListed(kinds, covered, t[k], g)
  }

  /** How many rows a full scan puts in one group. */
  ghost function Shown(kinds: Kinds, covered: set<nat>, t: Table, apps: seq<nat>, g: Group): nat {
    |Listed(kinds, covered, t, g)| + if g == Processes then |apps| else 0
  }

  lemma ShownAtFirst(kinds: Kinds, covered: set<nat>, apps: seq<nat>)
    ensures forall g :: Shown(kinds, covered, map[], apps, g) == if g == Processes then |apps| else 0
  {
    forall g ensures Listed(kinds, covered, map[], g) == {} { }
  }

  /** The entity adds a row to exactly the group it is listed in. */
  lemma ShownMore(kinds: Kinds, covered: set<nat>, done: Table, apps: seq<nat>, k: Key, e: Entity)
    requires k !in done
    ensures forall g ::
      Shown(kinds, covered, done[k := e], apps, g) == Shown(kinds, covered, done, apps, g) + if IsListed(kinds, covered, e, g) then 1 else 0
  {
    ListedMore(kinds, covered, done, k, e);
    hide Listed;
  }

  /** How many rows of group `g` a full scan gives the name `n`. */
  ghost function Rows(kinds: Kinds, covered: set<nat>, t: Table, apps: seq<nat>, g: Group, n: nat): nat {
    |NamedRows(kinds, covered, t, g, n)| + if g == Processes then multiset(apps)[n] else 0
  }

  ghost function NamedRows(kinds: Kinds, covered: set<nat>, t: Table, g: Group, n: nat): set<Key> {
    set k | k in t && IsListed(kinds, covered, t[k], g) && t[k].name == n
  }

  lemma NoRows(kinds: Kinds, covered: set<nat>, apps: seq<nat>)
    ensures forall g, n :: Rows(kinds, covered, map[], apps, g, n) == if g == Processes then multiset(apps)[n] else 0
  {
    forall g, n ensures NamedRows(kinds, covered, map[], g, n) == {} { }
  }

  lemma RowsMore(kinds: Kinds, covered: set<nat>, done: Table, apps: seq<nat>, k: Key, e: Entity)
    requires k !in done
    ensures forall g, n ::
      Rows(kinds, covered, done[k := e], apps, g, n) == Rows(kinds, covered, done, apps, g, n) + if IsListed(kinds, covered, e, g) && e.name == n then 1 else 0
  {
    hide IsListed;
    forall g, n ensures |NamedRows(kinds, covered, done[k := e], g, n)|
      == |NamedRows(kinds, covered, done, g, n)| + if IsListed(kinds, covered, e, g) && e.name == n then 1 else 0
    {
      var before := NamedRows(kinds, covered, done, g, n);
      assert NamedRows(kinds, covered, done[k := e], g, n) == if IsListed(kinds, covered, e, g) && e.name == n then before + {k} else before;
    }
  }

  /** Which entities a group shows, by their kind: none that is gone or has no name,
      and no process an application row covers. */
  lemma GroupsByKind(kinds: Kinds, covered: set<nat>, e: Entity)
    requires Distinct([kinds.container, kinds.service, kinds.endpoint, kinds.filesystem, kinds.process])
    ensures e.gone || e.name == 0 ==> forall g :: !IsListed(kinds, covered, e, g)
    ensures !e.gone && e.name != 0 ==>
      && (IsListed(kinds, covered, e, Containers) <==> e.kind == kinds.container)
      && (IsListed(kinds, covered, e, Services) <==> e.kind == kinds.service)
      && (IsListed(kinds, covered, e, Endpoints) <==> e.kind == kinds.endpoint)
      && (IsListed(kinds, covered, e, Filesystems) <==> e.kind == kinds.filesystem)
      && (IsListed(kinds, covered, e, Processes) <==> e.kind == kinds.process && e.name !in covered)
      && (IsListed(kinds, covered, e, Other) <==>
            e.kind !in {kinds.container, kinds.service, kinds.endpoint, kinds.filesystem, kinds.process})
  {
    var all := [kinds.container, kinds.service, kinds.endpoint, kinds.filesystem, kinds.process];
    assert all[0] != all[1] && all[0] != all[2] && all[0] != all[3] && all[0] != all[4] && all[1] != all[2];
    assert all[1] != all[3] && all[1] != all[4] && all[2] != all[3] && all[2] != all[4] && all[3] != all[4];
  }

  predicate Distinct(s: seq<nat>) {
    forall i, j :: 0 <= i < j < |s| ==> s[i] != s[j]
  }

  /** The part of a table that has been scanned. */
  ghost predicate Halves(t: Table, done: Table, rest: Table) {
    done.Keys !! rest.Keys && t == done + rest
  }

  lemma HalvesMore(t: Table, done: Table, rest: Table, k: Key)
    requires Halves(t, done, rest) && k in rest
    ensures Halves(t, done[k := rest[k]], rest - {k}) && k !in done
  {
    assert done + rest == done[k := rest[k]] + (rest - {k});
  }

  /** The lists have the rows of a full scan. */
  ghost predicate Tabulates(view: map<Group, seq<nat>>, kinds: Kinds, covered: set<nat>, t: Table, apps: seq<nat>) {
    && (forall g :: g in view && |view[g]| == Shown(kinds, covered, t, apps, g))
    && (forall g, n :: g in view && multiset(view[g])[n] == Rows(kinds, covered, t, apps, g, n))
  }

  lemma TabulatesNothing(view: map<Group, seq<nat>>, kinds: Kinds, covered: set<nat>, apps: seq<nat>)
    requires view == map[Containers := [], Services := [], Endpoints := [], Filesystems := [], Processes := apps, Other := []]
    ensures Tabulates(view, kinds, covered, map[], apps)
  {
    hide Shown, Rows;
    ShownAtFirst(kinds, covered, apps);
    NoRows(kinds, covered, apps);
    forall g ensures g in view && view[g] == if g == Processes then apps else [] { match g case Processes => case _ => }
  }

  lemma NoRow(view: map<Group, seq<nat>>, kinds: Kinds, covered: set<nat>, done: Table, apps: seq<nat>, k: Key, e: Entity)
    requires Tabulates(view, kinds, covered, done, apps) && k !in done && forall g :: !IsListed(kinds, covered, e, g)
    ensures Tabulates(view, kinds, covered, done[k := e], apps)
  {
    hide IsListed, Shown, Rows;
    ShownMore(kinds, covered, done, apps, k, e);
    RowsMore(kinds, covered, done, apps, k, e);
  }

  lemma OneRow(view: map<Group, seq<nat>>, kinds: Kinds, covered: set<nat>, done: Table, apps: seq<nat>, k: Key, e: Entity, g: Group)
    requires Tabulates(view, kinds, covered, done, apps) && k !in done && forall h :: IsListed(kinds, covered, e, h) <==> h == g
    ensures g in view && Tabulates(view[g := view[g] + [e.name]], kinds, covered, done[k := e], apps)
  {
    hide IsListed, Shown, Rows;
    ShownMore(kinds, covered, done, apps, k, e);
    RowsMore(kinds, covered, done, apps, k, e);
  }

  /** The grouped lists the drill-down shows, before they are sorted; application
      rows come first among the processes. */
  method Inventory(kinds: Kinds, covered: set<nat>, t: Table, apps: seq<nat>) returns (view: map<Group, seq<nat>>)
    ensures forall g :: g in view && |view[g]| == Shown(kinds, covered, t, apps, g)
    ensures forall g, n :: g in view && multiset(view[g])[n] == Rows(kinds, covered, t, apps, g, n)
  {
    hide GroupOf, IsListed, IsShown, Shown, Rows;
    view := map[Containers := [], Services := [], Endpoints := [], Filesystems := [], Processes := apps, Other := []];
    var rest := t;
    ghost var done: Table := map[];
    TabulatesNothing(view, kinds, covered, apps);
    assert Halves(t, done, rest);
    while rest.Keys != {}
      invariant Halves(t, done, rest) && Tabulates(view, kinds, covered, done, apps)
      decreases rest.Keys
    {
      var k :| k in rest;
      var e := rest[k];
      HalvesMore(t, done, rest, k);
      ListedIn(kinds, covered, e);
      var g := GroupOf(kinds, e);
      if IsShown(e) && !(g == Processes && e.name in covered) {
        OneRow(view, kinds, covered, done, apps, k, e, g);
        view := view[g := view[g] + [e.name]];
      } else {
        NoRow(view, kinds, covered, done, apps, k, e);
      }
      done, rest := done[k := e], rest - {k};
    }
    assert done == t;
  }

  /** An entity is listed in at most the group it belongs to. */
  lemma ListedIn(kinds: Kinds, covered: set<nat>, e: Entity)
    ensures forall g :: IsListed(kinds, covered, e, g) <==>
      IsShown(e) && g == GroupOf(kinds, e) && !(g == Processes && e.name in covered)
  {
  }

  lemma ListedMore(kinds: Kinds, covered: set<nat>, done: Table, k: Key, e: Entity)
    requires k !in done
    ensures forall g :: |Listed(kinds, covered, done[k := e], g)| == |Listed(kinds, covered, done, g)| + if IsListed(kinds, covered, e, g) then 1 else 0
  {
    forall g ensures |Listed(kinds, covered, done[k := e], g)| == |Listed(kinds, covered, done, g)| + if IsListed(kinds, covered, e, g) then 1 else 0 {
      var before := Listed(kinds, covered, done, g);
      assert Listed(kinds, covered, done[k := e], g) == if IsListed(kinds, covered, e, g) then before + {k} else before;
    }
  }

  /** One more row in the group an entity is listed in. */
  method CountEntity(kinds: Kinds, covered: set<nat>, e: Entity, before: map<Group, nat>) returns (counts: map<Group, nat>)
    ensures forall g :: CountOf(counts, g) == CountOf(before, g) + if IsListed(kinds, covered, e, g) then 1 else 0
  {
    counts := before;
    if IsShown(e) {
      var g := GroupOf(kinds, e);
      if !(g == Processes && e.name in covered) {
        counts := counts[g := CountOf(counts, g) + 1];
      }
    }
  }

  /** The number on each chip of the overview; an empty group has no chip. */
  method InventoryCounts(kinds: Kinds, covered: set<nat>, t: Table, apps: seq<nat>) returns (counts: map<Group, nat>)
    ensures forall g :: g in counts <==> Shown(kinds, covered, t, apps, g) > 0
    ensures forall g :: g in counts ==> counts[g] == Shown(kinds, covered, t, apps, g)
  {
    counts := map[Processes := |apps|];
    var rest := t;
    ghost var done: Table := map[];
    ShownAtFirst(kinds, covered, apps);
    assert Halves(t, done, rest);
    assert forall g :: CountOf(counts, g) == Shown(kinds, covered, done, apps, g);
    hide CountOf, IsListed, NonZero, Shown;
    while rest.Keys != {}
      invariant Halves(t, done, rest)
      invariant forall g :: CountOf(counts, g) == Shown(kinds, covered, done, apps, g)
      decreases rest.Keys
    {
      var k :| k in rest;
      var e := rest[k];
      HalvesMore(t, done, rest, k);
      ShownMore(kinds, covered, done, apps, k, e);
      counts := CountEntity(kinds, covered, e, counts);
      done, rest := done[k := e], rest - {k};
    }
    assert done == t;
    counts := NonZero(counts);
  }

  /** Empty groups are left out. */
  function NonZero(counts: map<Group, nat>): (r: map<Group, nat>)
    ensures forall g :: g in r <==> CountOf(counts, g) > 0
    ensures forall g :: g in r ==> r[g] == CountOf(counts, g)
  {
    map g | g in counts && counts[g] > 0 :: counts[g]
  }

  /** A Go map read: a missing group counts zero. */
  function CountOf(counts: map<Group, nat>, g: Group): nat {
    if g in counts then counts[g] else 0
  }

  /** The drill-down lists exactly as many entities as the overview promises. */
  method CountsMatchTheView(kinds: Kinds, covered: set<nat>, t: Table, apps: seq<nat>)
    returns (view: map<Group, seq<nat>>, counts: map<Group, nat>)
    ensures forall g :: g in view && |view[g]| == CountOf(counts, g)
  {
    view := Inventory(kinds, covered, t, apps);
    counts := InventoryCounts(kinds, covered, t, apps);
  }
}
