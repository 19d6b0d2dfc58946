/** One host's series in the fleet store (internal/fleet/store.go): a cap on the
    series, two budgets for sample rings, and rings that hold the newest samples. */
module FleetSeries {

  type Time = int

  /** A series is identified by its metric name and its attributes. */
  datatype SeriesKey = SeriesKey(name: string, attrs: map<string, string>)

  datatype Sample = Sample(time: Time, value: int)

  datatype Series = Series(value: int, updated: Time, history: seq<Sample>, seen: nat, counter: bool)

  type Table = map<SeriesKey, Series>

  datatype Limits = Limits(seriesPerHost: nat, historySeries: nat, historyExtra: nat, historyPoints: nat, seriesStaleAfter: nat)

  datatype ChartClass = ChartNone | ChartCore | ChartExtra

  predicate IsHostMetric(name: string) {
    "host." <= name
  }

  /** Which history budget a metric draws on. */
  function ChartClassOf(name: string): ChartClass {
    if IsHostMetric(name) then ChartCore
    else if name == "container.instance.memory_bytes" || name == "container.instance.cpu_utilization" then ChartCore
    else if "process." <= name then ChartNone
    else if "container.instance.network." <= name then ChartNone
    else ChartExtra
  }

  // ---- recounting ----

  /** The series of one class that hold a ring. */
  ghost function Rings(t: Table, c: ChartClass): set<SeriesKey> {
    set k | k in t && t[k].history != [] && ChartClassOf(k.name) == c
  }

  lemma RingsRemoved(t: Table, k: SeriesKey, c: ChartClass)
    requires k in t
    ensures Rings(t - {k}, c) == Rings(t, c) - {k}
    ensures |Rings(t - {k}, c)| == |Rings(t, c)| - if k in Rings(t, c) then 1 else 0
  {
    hide ChartClassOf;
    assert Rings(t - {k}, c) == Rings(t, c) - {k};
  }

  lemma RingsPut(t: Table, k: SeriesKey, s: Series, c: ChartClass)
    ensures var had := k in Rings(t, c);
      var has := s.history != [] && ChartClassOf(k.name) == c;
      |Rings(t[k := s], c)| == |Rings(t, c)| + (if has && !had then 1 else 0) - (if had && !has then 1 else 0)
  {
    hide ChartClassOf;
    var has := s.history != [] && ChartClassOf(k.name) == c;
    assert Rings(t[k := s], c) == if has then Rings(t, c) + {k} else Rings(t, c) - {k};
  }

  /** The newest `n` entries of a stream. */
  function Newest(s: seq<Sample>, n: nat): seq<Sample> {
    if |s| <= n then s else s[|s|-n..]
  }

  lemma NewestMore(s: seq<Sample>, x: Sample, n: nat)
    requires n > 0
    ensures Newest(s + [x], n) == Newest(Newest(s, n) + [x], n) && Newest(s + [x], n) != []
  {
  }

  type Streams = map<SeriesKey, seq<Sample>>

  /** Only the two chartable classes have rings; a ring is the newest samples
      since it was granted; an extra series has reported twice before it has one. */
  ghost predicate RingIsSuffix(k: SeriesKey, s: Series, since: seq<Sample>, points: nat) {
    && s.history == Newest(since, points)
    && (s.history == [] <==> since == [])
    && (ChartClassOf(k.name) == ChartNone ==> s.history == [])
    && (ChartClassOf(k.name) == ChartExtra && s.history != [] ==> s.seen >= 2)
  }

  ghost predicate RingsAreSuffixes(t: Table, since: Streams, points: nat) {
    since.Keys == t.Keys && forall k :: k in t ==> RingIsSuffix(k, t[k], since[k], points)
  }

  lemma SuffixesRemoved(t: Table, since: Streams, points: nat, k: SeriesKey)
    requires RingsAreSuffixes(t, since, points)
    ensures RingsAreSuffixes(t - {k}, since - {k}, points)
  {
    hide RingIsSuffix;
  }

  lemma SuffixesPut(t: Table, since: Streams, points: nat, k: SeriesKey, s: Series, stream: seq<Sample>)
    requires RingsAreSuffixes(t, since, points) && RingIsSuffix(k, s, stream, points)
    ensures RingsAreSuffixes(t[k := s], since[k := stream], points)
  {
    hide RingIsSuffix;
  }

  /** The maintained counters are what a scan would count, and within their caps. */
  ghost predicate Counted(t: Table, historySeries: int, historyExtra: int, limits: Limits) {
    && historySeries == |Rings(t, ChartCore)| && historyExtra == |Rings(t, ChartExtra)|
    && historySeries <= limits.historySeries && historyExtra <= limits.historyExtra
    && |t| <= limits.seriesPerHost
  }

  /** What reclaiming one series gives back. */
  lemma CountedRemoved(t: Table, hs: int, he: int, limits: Limits, since: Streams, k: SeriesKey)
    requires Counted(t, hs, he, limits) && RingsAreSuffixes(t, since, limits.historyPoints) && k in t
    ensures var core := t[k].history != [] && ChartClassOf(k.name) == ChartCore;
      var extra := t[k].history != [] && ChartClassOf(k.name) == ChartExtra;
      Counted(t - {k}, hs - (if core then 1 else 0), he - (if extra then 1 else 0), limits)
    ensures t[k].history != [] ==> ChartClassOf(k.name) != ChartNone
  {
    hide ChartClassOf, RingsAreSuffixes, Rings, Newest;
    RingAt(t, since, limits.historyPoints, k);
    RingsRemoved(t, k, ChartCore);
    RingsRemoved(t, k, ChartExtra);
    RingsHold(t, k, ChartCore);
    RingsHold(t, k, ChartExtra);
    OneLess(t, k);
  }

  lemma RingAt(t: Table, since: Streams, points: nat, k: SeriesKey)
    requires RingsAreSuffixes(t, since, points) && k in t
    ensures k in since && RingIsSuffix(k, t[k], since[k], points)
  {
  }

  lemma RingsHold(t: Table, k: SeriesKey, c: ChartClass)
    ensures k in Rings(t, c) <==> k in t && t[k].history != [] && ChartClassOf(k.name) == c
  {
  }

  lemma OneLess(t: Table, k: SeriesKey)
    requires k in t
    ensures |t - {k}| <= |t|
  {
    assert t.Keys == (t - {k}).Keys + {k};
  }

  // ---- reclaiming ----

  predicate IsStale(s: Series, cutoff: Time) {
    s.updated < cutoff
  }

  /** A charted host series is never reclaimed, however stale. */
  predicate IsProtected(k: SeriesKey, s: Series) {
    s.history != [] && IsHostMetric(k.name)
  }

  predicate IsReclaimable(k: SeriesKey, s: Series, cutoff: Time) {
    IsStale(s, cutoff) && !IsProtected(k, s)
  }

  function Reclaimed(t: Table, cutoff: Time): Table {
    map k | k in t && !IsReclaimable(k, t[k], cutoff) :: t[k]
  }

  // ---- one observation, by recounting ----

  datatype Point = Point(key: SeriesKey, value: int, counter: bool)

  /** The table a new series has to fit in: reclaimed first if it is full. */
  ghost function MadeRoom(t: Table, k: SeriesKey, ts: Time, limits: Limits): Table {
    if k !in t && |t| >= limits.seriesPerHost then Reclaimed(t, ts - limits.seriesStaleAfter) else t
  }

  ghost predicate IsAdmitted(t: Table, k: SeriesKey, limits: Limits) {
    k in t || |t| < limits.seriesPerHost
  }

  /** The series before this observation. */
  ghost function Entry(t: Table, m: Point, ts: Time): Series {
    if m.key in t then t[m.key] else Series(m.value, ts, [], 0, m.counter)
  }

  /** A ring once granted keeps growing; a core series is granted one from first
      sight, an extra one from its second report, each within its own budget. */
  ghost predicate Charts(t: Table, k: SeriesKey, before: Series, limits: Limits) {
    match ChartClassOf(k.name)
    case ChartNone => false
    case ChartCore => before.history != [] || |Rings(t, ChartCore)| < limits.historySeries
    case ChartExtra => before.history != [] || (before.seen + 1 >= 2 && |Rings(t, ChartExtra)| < limits.historyExtra)
  }

  /** The same question put to the maintained counters. */
  predicate MayChart(name: string, before: Series, historySeries: int, historyExtra: int, limits: Limits) {
    match ChartClassOf(name)
    case ChartNone => false
    case ChartCore => before.history != [] || historySeries < limits.historySeries
    case ChartExtra => before.history != [] || (before.seen + 1 >= 2 && historyExtra < limits.historyExtra)
  }

  ghost function StreamOf(since: Streams, k: SeriesKey): seq<Sample> {
    if k in since then since[k] else []
  }

  ghost function Observed(t: Table, m: Point, ts: Time, limits: Limits): Series {
    var before := Entry(t, m, ts);
    Series(m.value, ts,
      if Charts(t, m.key, before, limits) then Newest(before.history + [Sample(ts, m.value)], limits.historyPoints) else before.history,
      before.seen + 1, before.counter)
  }

  /** The counters answer as a recount would, and stay exact. */
  lemma PutFacts(t: Table, since: Streams, m: Point, ts: Time, limits: Limits, hs: int, he: int)
    requires Counted(t, hs, he, limits) && RingsAreSuffixes(t, since, limits.historyPoints) && limits.historyPoints > 0
    requires IsAdmitted(t, m.key, limits)
    ensures var before, s := Entry(t, m, ts), Observed(t, m, ts, limits);
      var c, grows := ChartClassOf(m.key.name), Charts(t, m.key, before, limits);
      var gained := grows && before.history == [];
      && MayChart(m.key.name, before, hs, he, limits) == grows
      && s == before.(value := m.value, updated := ts, seen := before.seen + 1,
           history := if grows then Newest(before.history + [Sample(ts, m.value)], limits.historyPoints) else before.history)
      && Counted(t[m.key := s], hs + (if gained && c == ChartCore then 1 else 0), he + (if gained && c == ChartExtra then 1 else 0), limits)
      && RingsAreSuffixes(t[m.key := s],
           since[m.key := if grows then StreamOf(since, m.key) + [Sample(ts, m.value)] else StreamOf(since, m.key)], limits.historyPoints)
  {
    hide ChartClassOf, RingsAreSuffixes, Newest;
    var before, s := Entry(t, m, ts), Observed(t, m, ts, limits);
    var stream := StreamOf(since, m.key);
    EntryIsSuffix(t, since, m, ts, limits.historyPoints);
    NewestMore(stream, Sample(ts, m.value), limits.historyPoints);
    RingsPut(t, m.key, s, ChartCore);
    RingsPut(t, m.key, s, ChartExtra);
    var grows := Charts(t, m.key, before, limits);
    SuffixesPut(t, since, limits.historyPoints, m.key, s, if grows then stream + [Sample(ts, m.value)] else stream);
    OneMore(t, m.key, s);
  }

  lemma EntryIsSuffix(t: Table, since: Streams, m: Point, ts: Time, points: nat)
    requires RingsAreSuffixes(t, since, points)
    ensures RingIsSuffix(m.key, Entry(t, m, ts), StreamOf(since, m.key), points)
  {
    hide ChartClassOf;
  }

  lemma OneMore(t: Table, k: SeriesKey, s: Series)
    ensures |t[k := s]| == |t| + if k in t then 0 else 1
  {
  }

  /** The table after one observation. */
  ghost function AfterPoint(t: Table, m: Point, ts: Time, limits: Limits): Table {
    var room := MadeRoom(t, m.key, ts, limits);
    if m.key.name == "" then t
    else if IsAdmitted(room, m.key, limits) then room[m.key := Observed(room, m, ts, limits)]
    else room
  }

  ghost predicate IsDropped(t: Table, m: Point, ts: Time, limits: Limits) {
    m.key.name != "" && !IsAdmitted(MadeRoom(t, m.key, ts, limits), m.key, limits)
  }

  // ---- charted host series ----

  /** No observation ever loses a series whose name begins with "host." once it is
      charted. */
  lemma ChartedHostStays(t: Table, m: Point, ts: Time, limits: Limits, k: SeriesKey)
    requires "host." <= k.name && k in t && t[k].history != [] && limits.historyPoints > 0
    ensures k in AfterPoint(t, m, ts, limits) && AfterPoint(t, m, ts, limits)[k].history != []
  {
    var room := MadeRoom(t, m.key, ts, limits);
    assert k in room && room[k].history != [];
    if k == m.key {
      var h := room[k].history;
      assert Newest(h + [Sample(ts, m.value)], limits.historyPoints) != [];
    }
    hide ChartClassOf, Rings;
  }

  /** Any run of observations, each with its own time stamp. */
  ghost function AfterAll(t: Table, run: seq<(Point, Time)>, limits: Limits): Table {
    if run == [] then t
    else
      var last := run[|run|-1];
      AfterPoint(AfterAll(t, run[..|run|-1], limits), last.0, last.1, limits)
  }

  /** Nor does any run of them, with any time stamps. */
  lemma {:induction false} ChartedHostIsForever(t: Table, run: seq<(Point, Time)>, limits: Limits, k: SeriesKey)
    requires "host." <= k.name && k in t && t[k].history != [] && limits.historyPoints > 0
    ensures k in AfterAll(t, run, limits) && AfterAll(t, run, limits)[k].history != []
  {
    if run != [] {
      var last := run[|run|-1];
      ChartedHostIsForever(t, run[..|run|-1], limits, k);
      ChartedHostStays(AfterAll(t, run[..|run|-1], limits), last.0, last.1, limits, k);
    }
  }

  /** What a point leaves of its own series, and that no series reported lately is
      reclaimed to make room for it. */
  lemma PointIsRecorded(t: Table, m: Point, ts: Time, limits: Limits, k: SeriesKey)
    requires m.key.name != ""
    ensures m.key in t || |t| < limits.seriesPerHost ==>
      var s := AfterPoint(t, m, ts, limits);
      m.key in s && s[m.key].value == m.value && s[m.key].updated == ts && s[m.key].seen == (if m.key in t then t[m.key].seen else 0) + 1
    ensures k in t && k != m.key && (t[k].updated >= ts - limits.seriesStaleAfter || m.key in t || |t| < limits.seriesPerHost) ==>
      k in AfterPoint(t, m, ts, limits) && AfterPoint(t, m, ts, limits)[k] == t[k]
    ensures m.key !in t && |t| >= limits.seriesPerHost ==>
      forall j :: j in AfterPoint(t, m, ts, limits) && j != m.key ==>
        j in t && (t[j].updated >= ts - limits.seriesStaleAfter || ("host." <= j.name && t[j].history != []))
  {
    hide ChartClassOf, Rings, Newest;
    WhatIsReclaimed(t, ts - limits.seriesStaleAfter);
  }

  /** A point is dropped exactly when its series is missing afterwards although it
      has a name; then the table is full. A point without a name changes nothing. */
  lemma DroppedMeansFull(t: Table, m: Point, ts: Time, limits: Limits)
    ensures IsDropped(t, m, ts, limits) <==> m.key.name != "" && m.key !in AfterPoint(t, m, ts, limits)
    ensures IsDropped(t, m, ts, limits) ==> |AfterPoint(t, m, ts, limits)| >= limits.seriesPerHost
    ensures m.key.name == "" ==> AfterPoint(t, m, ts, limits) == t
  {
    hide Observed;
  }

  /** When the table is full, a stale series makes room for a new one. */
  lemma StaleMakesRoom(t: Table, m: Point, ts: Time, limits: Limits, k: SeriesKey)
    requires m.key.name != "" && m.key !in t && |t| == limits.seriesPerHost
    requires k in t && t[k].updated < ts - limits.seriesStaleAfter && (!("host." <= k.name) || t[k].history == [])
    ensures m.key in AfterPoint(t, m, ts, limits) && k !in AfterPoint(t, m, ts, limits)
  {
    hide ChartClassOf, Rings, Newest;
    var room := Reclaimed(t, ts - limits.seriesStaleAfter);
    WhatIsReclaimed(t, ts - limits.seriesStaleAfter);
    assert k !in room && room.Keys <= t.Keys - {k};
    Fewer(room.Keys, t.Keys - {k});
  }

  lemma {:induction false} Fewer(a: set<SeriesKey>, b: set<SeriesKey>)
    requires a <= b
    ensures |a| <= |b|
  {
    if a != {} {
      var x :| x in a;
      Fewer(a - {x}, b - {x});
    }
  }

  // ---- which series are charted, by name ----

  /** Names that draw on the first budget. */
  predicate CoreName(name: string) {
    "host." <= name || name in {"container.instance.memory_bytes", "container.instance.cpu_utilization"}
  }

  /** Names that are never charted. */
  predicate UnchartedName(name: string) {
    "process." <= name || "container.instance.network." <= name
  }

  /** How many series with such a name have a ring. */
  ghost function CoreRings(t: Table): nat {
    |set k | k in t && t[k].history != [] && CoreName(k.name)|
  }

  ghost function OtherRings(t: Table): nat {
    |set k | k in t && t[k].history != [] && !CoreName(k.name) && !UnchartedName(k.name)|
  }

  lemma PrefixesDiffer(name: string)
    ensures UnchartedName(name) ==> !CoreName(name)
  {
    if "process." <= name { assert name[0] == 'p'; }
    if "container.instance.network." <= name { assert name[19] == 'n'; }
    assert "host." <= name ==> name[0] == 'h';
  }

  lemma ClassByName(t: Table, name: string)
    ensures ChartClassOf(name) == if CoreName(name) then ChartCore else if UnchartedName(name) then ChartNone else ChartExtra
    ensures |Rings(t, ChartCore)| == CoreRings(t) && |Rings(t, ChartExtra)| == OtherRings(t)
  {
    forall k ensures ChartClassOf(k) == if CoreName(k) then ChartCore else if UnchartedName(k) then ChartNone else ChartExtra {
      PrefixesDiffer(k);
    }
    hide ChartClassOf, CoreName, UnchartedName;
    assert Rings(t, ChartCore) == set k | k in t && t[k].history != [] && CoreName(k.name);
    forall k | k in t && CoreName(k.name) ensures !UnchartedName(k.name) { PrefixesDiffer(k.name); }
    assert Rings(t, ChartExtra) == set k | k in t && t[k].history != [] && !CoreName(k.name) && !UnchartedName(k.name);
  }

  /** A new core series is charted from its first sample, while the first budget
      has room. */
  lemma CoreFromFirstSample(t: Table, m: Point, ts: Time, limits: Limits)
    requires CoreName(m.key.name) && m.key !in t && |t| < limits.seriesPerHost && limits.historyPoints > 0
    ensures m.key in AfterPoint(t, m, ts, limits)
    ensures AfterPoint(t, m, ts, limits)[m.key].history == if CoreRings(t) < limits.historySeries then [Sample(ts, m.value)] else []
  {
    assert m.key.name != "" by { NamedOrEmpty(m.key.name); }
    ClassByName(t, m.key.name);
    hide ChartClassOf, CoreName, Rings;
  }

  lemma NamedOrEmpty(name: string)
    requires CoreName(name)
    ensures name != ""
  {
  }

  /** Any other new series, unless its name is never charted, is charted from its
      second sample, while the second budget has room. */
  lemma OthersFromSecondSample(t: Table, m: Point, n: Point, ts: Time, ts': Time, limits: Limits)
    requires !CoreName(m.key.name) && !UnchartedName(m.key.name) && m.key.name != "" && n.key == m.key
    requires m.key !in t && |t| < limits.seriesPerHost && limits.historyPoints > 0
    ensures var once := AfterPoint(t, m, ts, limits);
      && m.key in once && once[m.key].history == []
      && var twice := AfterPoint(once, n, ts', limits);
         m.key in twice && twice[m.key].history == if OtherRings(t) < limits.historyExtra then [Sample(ts', n.value)] else []
  {
    var once := AfterPoint(t, m, ts, limits);
    ClassByName(t, m.key.name);
    ClassByName(once, m.key.name);
    hide ChartClassOf, CoreName, UnchartedName, Rings;
    OneMoreUncharted(t, once, m.key);
  }

  lemma OneMoreUncharted(t: Table, t': Table, k: SeriesKey)
    requires k !in t && t'.Keys == t.Keys + {k} && t'[k].history == [] && forall j :: j in t ==> t'[j] == t[j]
    ensures OtherRings(t') == OtherRings(t)
  {
    hide CoreName, UnchartedName;
    assert (set j | j in t' && t'[j].history != [] && !CoreName(j.name) && !UnchartedName(j.name))
        == (set j | j in t && t[j].history != [] && !CoreName(j.name) && !UnchartedName(j.name));
  }

  /** A series whose name is never charted has no ring after any run. */
  lemma {:induction false} UnchartedNever(t: Table, run: seq<(Point, Time)>, limits: Limits, k: SeriesKey)
    requires UnchartedName(k.name) && (k in t ==> t[k].history == [])
    ensures k in AfterAll(t, run, limits) ==> AfterAll(t, run, limits)[k].history == []
  {
    if run != [] {
      UnchartedNever(t, run[..|run|-1], limits, k);
      ClassByName(t, k.name);
      PrefixesDiffer(k.name);
      hide ChartClassOf, CoreName, UnchartedName, Rings;
    }
  }

  /** The samples a run records for one series. */
  ghost function SamplesOf(run: seq<(Point, Time)>, k: SeriesKey): seq<Sample> {
    if run == [] then []
    else
      var last := run[|run|-1];
      SamplesOf(run[..|run|-1], k) + if last.0.key == k then [Sample(last.1, last.0.value)] else []
  }

  /** A charted host series holds the newest samples of the whole run. */
  lemma HostHistory(t: Table, run: seq<(Point, Time)>, limits: Limits, k: SeriesKey)
    requires "host." <= k.name && k in t && t[k].history != [] && limits.historyPoints >= |t[k].history|
    ensures var all, n := t[k].history + SamplesOf(run, k), limits.historyPoints;
      k in AfterAll(t, run, limits) && AfterAll(t, run, limits)[k].history == if |all| <= n then all else all[|all|-n..]
  {
    hide AfterAll, SamplesOf;
    HostKeepsNewest(t, run, limits, k);
  }

  lemma {:induction false} HostKeepsNewest(t: Table, run: seq<(Point, Time)>, limits: Limits, k: SeriesKey)
    requires "host." <= k.name && k in t && t[k].history != [] && limits.historyPoints >= |t[k].history|
    ensures k in AfterAll(t, run, limits)
    ensures AfterAll(t, run, limits)[k].history == Newest(t[k].history + SamplesOf(run, k), limits.historyPoints)
  {
    hide AfterPoint, SamplesOf, Newest;
    SamplesMore(t[k].history, run, k);
    if run == [] {
      NewestOfFew(t[k].history, limits.historyPoints);
    } else {
      var last := run[|run|-1];
      HostKeepsNewest(t, run[..|run|-1], limits, k);
      ChartedHostIsForever(t, run[..|run|-1], limits, k);
      HostPoint(AfterAll(t, run[..|run|-1], limits), last.0, last.1, limits, k);
      NewestMore(t[k].history + SamplesOf(run[..|run|-1], k), Sample(last.1, last.0.value), limits.historyPoints);
    }
  }

  lemma NewestOfFew(s: seq<Sample>, n: nat)
    requires |s| <= n
    ensures Newest(s, n) == s
  {
  }

  lemma SamplesMore(h: seq<Sample>, run: seq<(Point, Time)>, k: SeriesKey)
    ensures run == [] ==> h + SamplesOf(run, k) == h
    ensures run != [] ==>
      var last, before := run[|run|-1], h + SamplesOf(run[..|run|-1], k);
      h + SamplesOf(run, k) == if last.0.key == k then before + [Sample(last.1, last.0.value)] else before
  {
    if run != [] {
      var last, rest := run[|run|-1], SamplesOf(run[..|run|-1], k);
      assert SamplesOf(run, k) == if last.0.key == k then rest + [Sample(last.1, last.0.value)] else rest;
    }
  }

  lemma HostPoint(t: Table, m: Point, ts: Time, limits: Limits, k: SeriesKey)
    requires "host." <= k.name && k in t && t[k].history != [] && limits.historyPoints > 0
    ensures k in AfterPoint(t, m, ts, limits)
    ensures AfterPoint(t, m, ts, limits)[k].history ==
      if m.key == k then Newest(t[k].history + [Sample(ts, m.value)], limits.historyPoints) else t[k].history
  {
    hide Rings, Newest;
  }

  class Host {
    const limits: Limits
    var series: Table
    var historySeries: int
    var historyExtra: int
    var dropped: nat
    /** Every sample since a series' ring was granted. */
    ghost var since: map<SeriesKey, seq<Sample>>

    constructor (limits: Limits)
      requires limits.historyPoints > 0
      ensures this.limits == limits && Valid() && series == map[] && dropped == 0
    {
      this.limits, series, historySeries, historyExtra, dropped := limits, map[], 0, 0, 0;
      since := map[];
      new;
      assert Rings(map[], ChartCore) == {} && Rings(map[], ChartExtra) == {};
    }

    ghost predicate Valid()
      reads this`series, this`historySeries, this`historyExtra, this`since
    {
      && limits.historyPoints > 0
      && Counted(series, historySeries, historyExtra, limits)
      && RingsAreSuffixes(series, since, limits.historyPoints)
    }

    /** Drop what nothing has reported lately, giving rings back to the budget
        they came from. */
    method PruneSeries(now: Time)
      requires Valid()
      modifies this`series, this`historySeries, this`historyExtra, this`since
      ensures Valid() && series == Reclaimed(old(series), now - limits.seriesStaleAfter)
      ensures forall k :: k in series <==>
        && k in old(series)
        && (old(series)[k].updated >= now - limits.seriesStaleAfter || ("host." <= k.name && old(series)[k].history != []))
      ensures forall k :: k in series ==> series[k] == old(series)[k]
      ensures forall k :: k in series ==> k in since && k in old(since) && since[k] == old(since)[k]
    {
      hide Counted, IsReclaimable, Reclaimed, RingIsSuffix;
      var cutoff := now - limits.seriesStaleAfter;
      var rest := series.Keys;
      ghost var was, streams := series, since;
      assert since.Keys == series.Keys;
      while rest != {}
        invariant Valid() && rest <= series.Keys && series.Keys <= was.Keys == streams.Keys
        invariant forall k :: k in series ==> series[k] == was[k] && k in since && since[k] == streams[k]
        invariant forall k :: k in was ==> (k in series <==> k in rest || !IsReclaimable(k, was[k], cutoff))
        decreases rest
      {
        var k :| k in rest;
        rest := rest - {k};
        PruneOne(k, cutoff);
      }
      ReclaimedIs(series, was, cutoff);
      WhatIsReclaimed(was, cutoff);
    }

    /** Record one metric point. */
    method Observe(m: Point, ts: Time)
      requires Valid()
      modifies this
      ensures Valid() && series == AfterPoint(old(series), m, ts, limits)
      ensures dropped == old(dropped) + if IsDropped(old(series), m, ts, limits) then 1 else 0
    {
      hide Observed, Reclaimed, Valid;
      if m.key.name == "" { return; }
      var k := m.key;
      if k !in series && |series| >= limits.seriesPerHost {
        PruneSeries(ts);
      }
      ghost var room := series;
      if k !in series && |series| >= limits.seriesPerHost {
        dropped := dropped + 1;
        return;
      }
      var before := if k in series then series[k] else Series(m.value, ts, [], 0, m.counter);
      Fold(m, ts, before);
    }

    /** Fold a point into a series that is tracked, or has room. */
    method Fold(m: Point, ts: Time, before: Series)
      requires Valid() && before == Entry(series, m, ts) && IsAdmitted(series, m.key, limits)
      modifies this`series, this`historySeries, this`historyExtra, this`since
      ensures Valid() && series == old(series)[m.key := Observed(old(series), m, ts, limits)]
    {
      hide ChartClassOf, Charts, Counted, Entry, IsAdmitted, MayChart, Newest, Observed, RingsAreSuffixes, StreamOf;
      ghost var stream := StreamOf(since, m.key);
      PutFacts(series, since, m, ts, limits, historySeries, historyExtra);
      var granted := Grant(m.key.name, before);
      if granted { stream := stream + [Sample(ts, m.value)]; }
      var history := before.history;
      if granted { history := Trim(history + [Sample(ts, m.value)]); }
      series := series[m.key := before.(value := m.value, updated := ts, seen := before.seen + 1, history := history)];
      since := since[m.key := stream];
    }

    /** Whether this observation is charted; a first sample takes a slot from the
        budget of its class. */
    method Grant(name: string, before: Series) returns (granted: bool)
      modifies this`historySeries, this`historyExtra
      ensures granted == MayChart(name, before, old(historySeries), old(historyExtra), limits)
      ensures historySeries == old(historySeries) + if granted && before.history == [] && ChartClassOf(name) == ChartCore then 1 else 0
      ensures historyExtra == old(historyExtra) + if granted && before.history == [] && ChartClassOf(name) == ChartExtra then 1 else 0
    {
      hide ChartClassOf;
      granted := false;
      match ChartClassOf(name)
      case ChartNone => return;
      case ChartCore =>
        if |before.history| == 0 {
          if historySeries >= limits.historySeries { return; }
          historySeries := historySeries + 1;
        }
        granted := true;
      case ChartExtra =>
        if |before.history| == 0 {
          if before.seen + 1 < 2 { return; }
          if historyExtra >= limits.historyExtra { return; }
          historyExtra := historyExtra + 1;
        }
        granted := true;
    }

    /** Keep the newest samples. */
    method Trim(history: seq<Sample>) returns (kept: seq<Sample>)
      ensures kept == Newest(history, limits.historyPoints)
    {
      kept := history;
      var over := |history| - limits.historyPoints;
      if over > 0 { kept := history[over..]; }
    }

    method PruneOne(k: SeriesKey, cutoff: Time)
      requires Valid() && k in series
      modifies this`series, this`historySeries, this`historyExtra, this`since
      ensures Valid()
      ensures series == if IsReclaimable(k, old(series)[k], cutoff) then old(series) - {k} else old(series)
      ensures since == if IsReclaimable(k, old(series)[k], cutoff) then old(since) - {k} else old(since)
    {
      hide ChartClassOf, Counted, IsHostMetric, RingsAreSuffixes;
      var ser := series[k];
      if !(ser.updated < cutoff) { return; }
      CountedRemoved(series, historySeries, historyExtra, limits, since, k);
      SuffixesRemoved(series, since, limits.historyPoints, k);
      if |ser.history| > 0 {
        if IsHostMetric(k.name) { return; }
        if ChartClassOf(k.name) == ChartExtra {
          historyExtra := historyExtra - 1;
        } else {
          historySeries := historySeries - 1;
        }
      }
      series := series - {k};
      since := since - {k};
    }
  }

  /** A prune keeps what was reported lately, and the charted host series. */
  lemma WhatIsReclaimed(t: Table, cutoff: Time)
    ensures forall k :: k in Reclaimed(t, cutoff) <==> k in t && (t[k].updated >= cutoff || ("host." <= k.name && t[k].history != []))
    ensures forall k :: k in Reclaimed(t, cutoff) ==> Reclaimed(t, cutoff)[k] == t[k]
  {
  }

  lemma ReclaimedIs(t: Table, was: Table, cutoff: Time)
    requires t.Keys <= was.Keys && forall k :: k in t ==> t[k] == was[k]
    requires forall k :: k in was ==> (k in t <==> !IsReclaimable(k, was[k], cutoff))
    ensures t == Reclaimed(was, cutoff)
  {
  }
}
