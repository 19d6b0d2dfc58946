/** A configuration reload as a transaction: prepare every affected module, roll
    all of them back at the first refusal, commit them all otherwise, and only
    then swap the supervisor's configuration (internal/supervisor/reload.go, and
    the participant side in internal/modules/discovery/discovery.go). */
module Reloads {
  import opened Wrappers
  import opened Sorting
  import opened Lifecycle
  import opened StartOrders
  import opened Graph
  import opened Resolve
  import R = Runners
  import opened Supervision
  import opened Supervisors

  /** What a participant was asked and how it ended: a prepare in time, one that
      refused, one that overran its deadline, such a one staging its fragment at
      last, a commit, a rollback. */
  datatype Call = Staged(value: int) | Refused | Overran | Landed(value: int) | Committed | RolledBack

  datatype PartState = PartState(settings: int, staged: Option<int>, calls: seq<Call>)

  /** A configurable module: what it runs with, and what it has staged. */
  class Participant {
    const parse: R.ModuleConfig -> Option<int>
    var settings: int
    var staged: Option<int>
    ghost var calls: seq<Call>

    constructor (parse: R.ModuleConfig -> Option<int>, settings: int)
      ensures this.parse == parse && View() == PartState(settings, None, [])
    {
      this.parse, this.settings, staged, calls := parse, settings, None, [];
    }

    ghost function View(): PartState
      reads this
    {
      PartState(settings, staged, calls)
    }

    /** Validate and stage; live behaviour is untouched. */
    method PrepareConfig(cfg: R.ModuleConfig) returns (ok: bool)
      modifies this
      ensures ok == parse(cfg).Some?
      ensures View() == After(old(View()), if ok then Staged(parse(cfg).value) else Refused)
    {
      var parsed := parse(cfg);
      ok := parsed.Some?;
      if ok { staged := parsed; }
      calls := calls + [if ok then Staged(parsed.value) else Refused];
    }

    /** The caller gives the prepare up; it is still executing. */
    method Overrun(cfg: R.ModuleConfig) returns (parsed: Option<int>)
      modifies this`calls
      ensures parsed == parse(cfg) && View() == After(old(View()), Overran)
    {
      parsed := parse(cfg);
      calls := calls + [Overran];
    }

    /** A prepare that was given up stages its fragment after all. */
    method Land(v: int)
      modifies this
      ensures View() == After(old(View()), Landed(v))
    {
      staged := Some(v);
      calls := calls + [Landed(v)];
    }

    /** Switch to what is staged, if anything is. */
    method CommitConfig()
      modifies this
      ensures View() == After(old(View()), Committed)
    {
      if staged.Some? {
        settings := staged.value;
        staged := None;
      }
      calls := calls + [Committed];
    }

    method RollbackConfig()
      modifies this
      ensures View() == After(old(View()), RolledBack)
    {
      staged := None;
      calls := calls + [RolledBack];
    }
  }

  // ---- what a history of calls leaves ----

  function After(p: PartState, c: Call): PartState {
    match c
    case Staged(v) => PartState(p.settings, Some(v), p.calls + [c])
    case Landed(v) => PartState(p.settings, Some(v), p.calls + [c])
    case Committed => PartState(if p.staged.Some? then p.staged.value else p.settings, None, p.calls + [c])
    case RolledBack => PartState(p.settings, None, p.calls + [c])
    case _ => PartState(p.settings, p.staged, p.calls + [c])
  }

  function Play(p: PartState, h: seq<Call>): PartState {
    if h == [] then p else After(Play(p, h[..|h|-1]), h[|h|-1])
  }

  /** The calls the transaction made, without what landed on its own. */
  function Asks(h: seq<Call>): seq<Call> {
    if h == [] then [] else Asks(h[..|h|-1]) + if h[|h|-1].Landed? then [] else [h[|h|-1]]
  }

  /** The last fragment to land. */
  function LastLanding(h: seq<Call>): Option<int> {
    if h == [] then None
    else if h[|h|-1].Landed? then Some(h[|h|-1].value)
    else LastLanding(h[..|h|-1])
  }

  function Since(p: PartState, q: PartState): seq<Call>
    requires |p.calls| <= |q.calls|
  {
    q.calls[|p.calls|..]
  }

  /** From `p` to `q` the participant was asked exactly `asks`; anything may have
      landed in between. */
  ghost predicate Asked(p: PartState, q: PartState, asks: seq<Call>) {
    p.calls <= q.calls && q == Play(p, Since(p, q)) && Asks(Since(p, q)) == asks
  }

  lemma AskMore(p: PartState, q: PartState, asks: seq<Call>, c: Call)
    requires Asked(p, q, asks)
    ensures Asked(p, After(q, c), if c.Landed? then asks else asks + [c])
    ensures Since(p, After(q, c)) == Since(p, q) + [c]
  {
    var r, h := After(q, c), Since(p, q);
    assert Since(p, r) == h + [c];
    assert (h + [c])[..|h|] == h;
  }

  lemma {:induction false} PlayJoins(p: PartState, a: seq<Call>, b: seq<Call>)
    ensures Play(p, a + b) == Play(Play(p, a), b) && Asks(a + b) == Asks(a) + Asks(b)
    decreases |b|
  {
    if b == [] {
      assert a + b == a;
    } else {
      assert (a + b)[..|a + b| - 1] == a + b[..|b|-1];
      PlayJoins(p, a, b[..|b|-1]);
    }
  }

  /** Calls that neither commit nor roll back nor stage in time leave the settings
      alone, and staged is what landed last. */
  lemma {:induction false} OnlyLandings(p: PartState, h: seq<Call>)
    requires forall c :: c in Asks(h) ==> c in {Refused, Overran}
    ensures Play(p, h).settings == p.settings
    ensures Play(p, h).staged == if LastLanding(h).Some? then LastLanding(h) else p.staged
  {
    if h != [] {
      var rest, last := h[..|h|-1], h[|h|-1];
      assert forall c :: c in Asks(rest) ==> c in Asks(h);
      assert !last.Landed? ==> last in Asks(h);
      OnlyLandings(p, rest);
    }
  }

  lemma {:induction false} AskAt(h: seq<Call>, j: nat)
    requires j < |h| && !h[j].Landed?
    ensures Asks(h) == Asks(h[..j]) + [h[j]] + Asks(h[j+1..])
  {
    assert h == h[..j] + ([h[j]] + h[j+1..]);
    var p := PartState(0, None, []);
    PlayJoins(p, h[..j], [h[j]] + h[j+1..]);
    PlayJoins(p, [h[j]], h[j+1..]);
    assert Asks([h[j]]) == [h[j]];
  }

  /** The calls of one transaction: a prepare in time, then its end. */
  lemma {:induction false} EndSplits(h: seq<Call>, v: int, end: Call, j: nat)
    requires Asks(h) == [Staged(v), end] && end in {Committed, RolledBack} && j < |h| && h[j] == end
    ensures Asks(h[..j]) == [Staged(v)] && Asks(h[j+1..]) == []
  {
    AskAt(h, j);
    var a, b := Asks(h[..j]), Asks(h[j+1..]);
    var all := a + [end] + b;
    assert all == [Staged(v), end];
    assert all[|a|] == end;
    assert |a| > 0 ==> all[0] == a[0];
  }

  /** What the participant would commit is the last thing staged or landed. */
  lemma {:induction false} LastIsStaged(p: PartState, h: seq<Call>, v: int)
    requires Asks(h) == [Staged(v)]
    ensures h != [] && Play(p, h).settings == p.settings
    ensures h[|h|-1].Landed? || h[|h|-1] == Staged(v)
    ensures Play(p, h).staged == Some(h[|h|-1].value)
  {
    var rest, last := h[..|h|-1], h[|h|-1];
    assert !last.Landed? ==> Asks(h)[|Asks(rest)|] == last;
    if last.Landed? {
      LastIsStaged(p, rest, v);
    } else {
      assert Asks(rest) == [];
      OnlyLandings(p, rest);
    }
  }

  lemma PlayOne(p: PartState, c: Call)
    ensures Play(p, [c]) == After(p, c)
  {
    assert [c][..0] == [];
  }

  /** What the end of a transaction leaves, and what lands after it. */
  lemma EndLeaves(p: PartState, q: PartState, v: int, end: Call, j: nat)
    requires Asked(p, q, [Staged(v), end]) && end in {Committed, RolledBack} && j < |Since(p, q)| && Since(p, q)[j] == end
    ensures var h := Since(p, q);
      && q.settings == After(Play(p, h[..j]), end).settings
      && q.staged == LastLanding(h[j+1..])
  {
    hide After, Asks, Play, LastLanding;
    var h := Since(p, q);
    EndSplits(h, v, end, j);
    var mid, rest := Play(p, h[..j]), h[j+1..];
    assert h == h[..j] + ([end] + rest);
    PlayJoins(p, h[..j], [end] + rest);
    PlayJoins(mid, [end], rest);
    PlayOne(mid, end);
    OnlyLandings(After(mid, end), rest);
    EndStagesNothing(mid, end);
  }

  lemma EndStagesNothing(p: PartState, end: Call)
    requires end in {Committed, RolledBack}
    ensures After(p, end).staged == None
  {
  }

  lemma BeforeEnd(p: PartState, h: seq<Call>, v: int, end: Call, j: nat)
    requires Asks(h) == [Staged(v), end] && end in {Committed, RolledBack} && j < |h| && h[j] == end
    ensures j > 0 && (h[j-1].Landed? || h[j-1] == Staged(v))
    ensures Play(p, h[..j]).settings == p.settings && Play(p, h[..j]).staged == Some(h[j-1].value)
  {
    EndSplits(h, v, end, j);
    LastIsStaged(p, h[..j], v);
    assert h[..j][j-1] == h[j-1];
  }

  /** A commit switches to the fragment its own reload prepared if and only if
      nothing else landed between the prepare and the commit, or what landed last
      is the same fragment. */
  lemma CommitSwitches(p: PartState, q: PartState, v: int, j: nat)
    requires Asked(p, q, [Staged(v), Committed]) && j < |Since(p, q)| && Since(p, q)[j] == Committed
    ensures j > 0
    ensures q.settings == v <==> Since(p, q)[j-1] in {Staged(v), Landed(v)}
    ensures q.staged == LastLanding(Since(p, q)[j+1..])
  {
    hide Asks, Play, LastLanding;
    EndLeaves(p, q, v, Committed, j);
    BeforeEnd(p, Since(p, q), v, Committed, j);
  }

  /** A module that was rolled back has something staged if and only if a prepare
      that had been given up landed there after the rollback. */
  lemma RollbackClears(p: PartState, q: PartState, v: int, j: nat)
    requires Asked(p, q, [Staged(v), RolledBack]) && j < |Since(p, q)| && Since(p, q)[j] == RolledBack
    ensures q.settings == p.settings && q.staged == LastLanding(Since(p, q)[j+1..])
  {
    hide Asks, Play, LastLanding;
    EndLeaves(p, q, v, RolledBack, j);
    BeforeEnd(p, Since(p, q), v, RolledBack, j);
  }

  /** A commit took something else than its own reload prepared. */
  ghost predicate Overtaken(p: PartState, q: PartState, v: int) {
    && p.calls <= q.calls
    && exists j :: 0 < j < |Since(p, q)| && Since(p, q)[j] == Committed && Since(p, q)[j-1] !in {Staged(v), Landed(v)}
  }

  lemma {:induction false} AskIsThere(h: seq<Call>, c: Call) returns (j: nat)
    requires c in Asks(h)
    ensures j < |h| && h[j] == c
  {
    if h[|h|-1] == c { j := |h| - 1; } else { j := AskIsThere(h[..|h|-1], c); }
  }

  lemma OvertakenOrSwitched(p: PartState, q: PartState, v: int)
    requires Asked(p, q, [Staged(v), Committed])
    ensures q.settings == v <==> !Overtaken(p, q, v)
  {
    var j := AskIsThere(Since(p, q), Committed);
    CommitSwitches(p, q, v, j);
    forall k | 0 < k < |Since(p, q)| && Since(p, q)[k] == Committed ensures q.settings == v <==> Since(p, q)[k-1] in {Staged(v), Landed(v)} {
      CommitSwitches(p, q, v, k);
    }
  }

  /** Nothing but its last commit decides what a module runs. */
  lemma RejectedKeepsSettings(p: PartState, q: PartState, asks: seq<Call>)
    requires Asked(p, q, asks)
    requires (asks == []) || (asks == [Refused]) || (asks == [Overran]) || (|asks| == 2 && asks[0].Staged? && asks[1] == RolledBack)
    ensures q.settings == p.settings
  {
    if |asks| == 2 {
      var j := AskIsThere(Since(p, q), RolledBack);
      RollbackClears(p, q, asks[0].value, j);
    } else {
      OnlyLandings(p, Since(p, q));
    }
  }

  type Parts = map<Id, PartState>

  /** A prepare that was given up and will still stage `value`. */
  datatype Late = Late(id: Id, value: int)

  // ---- all participants together ----

  /** Each participant was asked exactly what `f` says. */
  ghost predicate AllAsked(was: Parts, now: Parts, f: map<Id, seq<Call>>) {
    was.Keys == now.Keys == f.Keys && forall id :: id in was ==> Asked(was[id], now[id], f[id])
  }

  /** What landed was owed, and what was owed has landed or still is. */
  ghost predicate Landings(was: Parts, now: Parts, pool: set<Late>, overdue: seq<Late>) {
    && was.Keys == now.Keys && (forall id :: id in was ==> was[id].calls <= now[id].calls)
    && (forall l :: l in overdue ==> l in pool)
    && (forall id, v :: id in was && Landed(v) in Since(was[id], now[id]) ==> Late(id, v) in pool)
    && (forall l :: l in pool ==> l.id in was && (l in overdue || Landed(l.value) in Since(was[l.id], now[l.id])))
  }

  lemma AllAskMore(was: Parts, now: Parts, f: map<Id, seq<Call>>, id: Id, c: Call)
    requires AllAsked(was, now, f) && id in now
    ensures AllAsked(was, now[id := After(now[id], c)], if c.Landed? then f else f[id := f[id] + [c]])
  {
    AskMore(was[id], now[id], f[id], c);
    hide Asked, After;
  }

  lemma LandingsMore(was: Parts, now: Parts, pool: set<Late>, overdue: seq<Late>, id: Id, c: Call)
    requires Landings(was, now, pool, overdue) && id in now && !c.Landed?
    ensures Landings(was, now[id := After(now[id], c)], pool, overdue)
  {
    var now' := now[id := After(now[id], c)];
    assert Since(was[id], now'[id]) == Since(was[id], now[id]) + [c];
    hide After;
  }

  lemma Lands(was: Parts, now: Parts, pool: set<Late>, overdue: seq<Late>, i: nat)
    requires Landings(was, now, pool, overdue) && i < |overdue|
    ensures overdue[i].id in now
    ensures Landings(was, now[overdue[i].id := After(now[overdue[i].id], Landed(overdue[i].value))], pool, overdue[..i] + overdue[i+1..])
  {
    var l := overdue[i];
    assert l in pool;
    var now' := now[l.id := After(now[l.id], Landed(l.value))];
    assert Since(was[l.id], now'[l.id]) == Since(was[l.id], now[l.id]) + [Landed(l.value)];
    hide After;
    var rest := overdue[..i] + overdue[i+1..];
    forall x | x in overdue && x != l ensures x in rest {
      var k :| 0 <= k < |overdue| && overdue[k] == x;
      if k < i { assert rest[k] == x; } else { assert rest[k-1] == x; }
    }
    forall x | x in rest ensures x in overdue { }
  }

  lemma OwedMore(was: Parts, now: Parts, pool: set<Late>, overdue: seq<Late>, l: Late)
    requires Landings(was, now, pool, overdue) && l.id in was
    ensures Landings(was, now, pool + {l}, overdue + [l])
  {
  }

  // ---- what the transaction asks ----

  /** Members of `ended` were prepared and ended with `end`, those of `prepared`
      only prepared, and nobody else was asked. */
  ghost function Line(parsed: map<Id, Option<int>>, prepared: set<Id>, ended: set<Id>, end: Call): map<Id, seq<Call>> {
    map id | id in parsed ::
      if id in prepared && parsed[id].Some? then [Staged(parsed[id].value)] + (if id in ended then [end] else []) else []
  }

  /** Every module of `ids` was prepared and committed once; nobody else was asked. */
  ghost predicate Applied(was: Parts, now: Parts, parsed: map<Id, Option<int>>, ids: set<Id>) {
    && ids <= parsed.Keys && (forall id :: id in ids ==> parsed[id].Some?)
    && AllAsked(was, now, Line(parsed, ids, ids, Committed))
  }

  /** Every module of `ids` was prepared and rolled back once; `bad` refused, or
      overran its deadline; nobody else was asked, and none was committed. */
  ghost predicate Reverted(was: Parts, now: Parts, parsed: map<Id, Option<int>>, ids: set<Id>, bad: Id, overran: bool) {
    && ids <= parsed.Keys && (forall id :: id in ids ==> parsed[id].Some?) && bad in parsed && bad !in ids
    && AllAsked(was, now, Line(parsed, ids, ids, RolledBack)[bad := [if overran then Overran else Refused]])
  }

  /** An accepted reload leaves a module on its new fragment if and only if no
      prepare given up earlier overtook the commit. */
  lemma AppliedUnlessOvertaken(was: Parts, now: Parts, parsed: map<Id, Option<int>>, ids: set<Id>, id: Id)
    requires Applied(was, now, parsed, ids) && id in was
    ensures id in ids ==> (now[id].settings == parsed[id].value <==> !Overtaken(was[id], now[id], parsed[id].value))
    ensures id !in ids ==> now[id].settings == was[id].settings
  {
    if id in ids {
      OvertakenOrSwitched(was[id], now[id], parsed[id].value);
    } else {
      RejectedKeepsSettings(was[id], now[id], []);
    }
  }

  /** A rejected reload changes no module's settings, whatever lands meanwhile. */
  lemma RevertedKeepsSettings(was: Parts, now: Parts, parsed: map<Id, Option<int>>, ids: set<Id>, bad: Id, overran: bool, id: Id)
    requires Reverted(was, now, parsed, ids, bad, overran) && id in was
    ensures now[id].settings == was[id].settings
  {
    var f := Line(parsed, ids, ids, RolledBack)[bad := [if overran then Overran else Refused]];
    RejectedKeepsSettings(was[id], now[id], f[id]);
  }

  lemma {:induction false} NoLanding(h: seq<Call>)
    requires forall v :: Landed(v) !in h
    ensures LastLanding(h) == None
  {
    if h != [] { NoLanding(h[..|h|-1]); }
  }

  lemma {:induction false} SomeLanding(h: seq<Call>, w: int)
    requires Landed(w) in h && forall v :: Landed(v) in h ==> v == w
    ensures LastLanding(h) == Some(w)
  {
    if !h[|h|-1].Landed? {
      SomeLanding(h[..|h|-1], w);
    } else {
      assert h[|h|-1] == Landed(h[|h|-1].value);
    }
  }

  /** When nothing was owed before a rejected reload, and everything has landed
      since, a module has something new staged if and only if it is the one that
      rejected the reload by overrunning its deadline, its fragment parses, and
      the parsed value is not what it had staged before. */
  lemma OnlyAnOverrunStaysStaged(was: Parts, now: Parts, parsed: map<Id, Option<int>>, ids: set<Id>, bad: Id, overran: bool, id: Id)
    requires Reverted(was, now, parsed, ids, bad, overran) && id in was
    requires Landings(was, now, if overran && parsed[bad].Some? then {Late(bad, parsed[bad].value)} else {}, [])
    ensures (now[id].staged.Some? && now[id].staged != was[id].staged) <==>
      (id == bad && overran && parsed[bad].Some? && parsed[bad] != was[bad].staged)
  {
    hide Asked, Line, LastLanding, Landings;
    AskedAt(was, now, parsed, ids, bad, overran, id);
    if id == bad {
      OverrunStages(was, now, parsed, ids, bad, overran);
    } else {
      OthersStageNothing(was, now, parsed, ids, bad, overran, id);
    }
  }

  lemma AskedAt(was: Parts, now: Parts, parsed: map<Id, Option<int>>, ids: set<Id>, bad: Id, overran: bool, id: Id)
    requires Reverted(was, now, parsed, ids, bad, overran) && id in was
    ensures bad in was && bad in parsed && id in now && id in parsed && (id in ids ==> id != bad && parsed[id].Some?)
    ensures Asked(was[id], now[id],
      if id == bad then [if overran then Overran else Refused]
      else if id in ids then [Staged(parsed[id].value), RolledBack] else [])
  {
    hide Asked;
    var f := Line(parsed, ids, ids, RolledBack)[bad := [if overran then Overran else Refused]];
    assert Asked(was[id], now[id], f[id]);
    if id != bad && id in ids { assert f[id] == [Staged(parsed[id].value), RolledBack]; }
  }

  lemma LandedAt(was: Parts, now: Parts, pool: set<Late>, id: Id)
    requires Landings(was, now, pool, []) && id in was
    ensures id in now && was[id].calls <= now[id].calls
    ensures forall v :: Landed(v) in Since(was[id], now[id]) <==> Late(id, v) in pool
  {
    forall v | Late(id, v) in pool ensures Landed(v) in Since(was[id], now[id]) { assert Late(id, v).id in was; }
  }

  lemma OverrunStages(was: Parts, now: Parts, parsed: map<Id, Option<int>>, ids: set<Id>, bad: Id, overran: bool)
    requires Reverted(was, now, parsed, ids, bad, overran) && bad in was
    requires Landings(was, now, if overran && parsed[bad].Some? then {Late(bad, parsed[bad].value)} else {}, [])
    ensures now[bad].staged == if overran && parsed[bad].Some? then parsed[bad] else was[bad].staged
  {
    hide Landings, LastLanding, Play, Reverted;
    AskedAt(was, now, parsed, ids, bad, overran, bad);
    LandedAt(was, now, if overran && parsed[bad].Some? then {Late(bad, parsed[bad].value)} else {}, bad);
    var h := Since(was[bad], now[bad]);
    OnlyLandings(was[bad], h);
    if overran && parsed[bad].Some? { SomeLanding(h, parsed[bad].value); } else { NoLanding(h); }
  }

  lemma OthersStageNothing(was: Parts, now: Parts, parsed: map<Id, Option<int>>, ids: set<Id>, bad: Id, overran: bool, id: Id)
    requires Reverted(was, now, parsed, ids, bad, overran) && id in was && id != bad
    requires Landings(was, now, if overran && parsed[bad].Some? then {Late(bad, parsed[bad].value)} else {}, [])
    ensures now[id].staged == if id in ids then None else was[id].staged
  {
    hide Landings, LastLanding, Play, Reverted, Asks;
    AskedAt(was, now, parsed, ids, bad, overran, id);
    LandedAt(was, now, if overran && parsed[bad].Some? then {Late(bad, parsed[bad].value)} else {}, id);
    var h := Since(was[id], now[id]);
    if id in ids {
      var j := AskIsThere(h, RolledBack);
      RollbackClears(was[id], now[id], parsed[id].value, j);
      NoLanding(h[j+1..]);
    } else {
      NothingAskedHere(was[id], now[id]);
    }
  }

  lemma NothingAskedHere(p: PartState, q: PartState)
    requires Asked(p, q, []) && forall v :: Landed(v) !in Since(p, q)
    ensures q.staged == p.staged
  {
    OnlyLandings(p, Since(p, q));
    NoLanding(Since(p, q));
  }

  // ---- the transaction as a function of what lands when ----

  /** All participants, and the prepares that were given up and still execute. */
  datatype Parties = Parties(parts: Parts, overdue: seq<Late>)

  function Called(s: Parties, id: Id, c: Call): Parties {
    if id in s.parts then s.(parts := s.parts[id := After(s.parts[id], c)]) else s
  }

  /** The `i`-th prepare that was given up finishes. */
  function LandAt(s: Parties, i: nat): Parties {
    if i >= |s.overdue| then s
    else
      var l := s.overdue[i];
      Called(s, l.id, Landed(l.value)).(overdue := s.overdue[..i] + s.overdue[i+1..])
  }

  /** Those that `plan` lists finish, in that order. */
  function Settled(s: Parties, plan: seq<nat>): Parties {
    if plan == [] then s else LandAt(Settled(s, plan[..|plan|-1]), plan[|plan|-1])
  }

  /** A prepare overruns its deadline; it will stage its fragment if that parses. */
  function GivenUp(s: Parties, id: Id, parsed: Option<int>): Parties {
    var s' := Called(s, id, Overran);
    if parsed.Some? then s'.(overdue := s'.overdue + [Late(id, parsed.value)]) else s'
  }

  /** Which prepares finish in each gap between two calls of the transaction. */
  type Schedule = nat -> seq<nat>

  /** The first `k` modules have been asked, and have agreed in time. */
  ghost function Asking(s: Parties, ids: seq<Id>, parsed: map<Id, Option<int>>, plans: Schedule, k: nat): Parties
    requires k <= |ids| && forall i :: 0 <= i < k ==> ids[i] in parsed && parsed[ids[i]].Some?
  {
    if k == 0 then s
    else Called(Settled(Asking(s, ids, parsed, plans, k - 1), plans(k - 1)), ids[k-1], Staged(parsed[ids[k-1]].value))
  }

  /** The first `k` of them have been told `end`. */
  ghost function Ending(s: Parties, ids: seq<Id>, end: Call, plans: Schedule, gap: nat, k: nat): Parties
    requires k <= |ids|
  {
    if k == 0 then s else Called(Settled(Ending(s, ids, end, plans, gap, k - 1), plans(gap + k - 1)), ids[k-1], end)
  }

  ghost function Ended(s: Parties, ids: seq<Id>, end: Call, plans: Schedule, gap: nat): Parties {
    Settled(Ending(s, ids, end, plans, gap, |ids|), plans(gap + |ids|))
  }

  /** Every module agrees in time. */
  ghost function Accepted(s: Parties, ids: seq<Id>, parsed: map<Id, Option<int>>, plans: Schedule): Parties
    requires forall i :: 0 <= i < |ids| ==> ids[i] in parsed && parsed[ids[i]].Some?
  {
    Ended(Asking(s, ids, parsed, plans, |ids|), ids, Committed, plans, |ids|)
  }

  /** The `k`-th module is the first that does not. */
  ghost function Rejecting(s: Parties, ids: seq<Id>, parsed: map<Id, Option<int>>, overran: bool, plans: Schedule, k: nat): Parties
    requires k < |ids| && ids[k] in parsed && forall i :: 0 <= i < k ==> ids[i] in parsed && parsed[ids[i]].Some?
  {
    var asked := Settled(Asking(s, ids, parsed, plans, k), plans(k));
    if overran then GivenUp(asked, ids[k], parsed[ids[k]]) else Called(asked, ids[k], Refused)
  }

  ghost function RejectedAt(s: Parties, ids: seq<Id>, parsed: map<Id, Option<int>>, overran: bool, plans: Schedule, k: nat): Parties
    requires k < |ids| && ids[k] in parsed && forall i :: 0 <= i < k ==> ids[i] in parsed && parsed[ids[i]].Some?
  {
    Ended(Rejecting(s, ids, parsed, overran, plans, k), ids[..k], RolledBack, plans, k + 1)
  }

  /** Every module was asked what `f` says, and landings are accounted for. */
  ghost predicate Tracks(was: Parts, s: Parties, f: map<Id, seq<Call>>, pool: set<Late>) {
    AllAsked(was, s.parts, f) && Landings(was, s.parts, pool, s.overdue)
  }

  ghost function Owed(s: Parties): set<Late> { set l | l in s.overdue }

  ghost predicate Known(s: Parties) { forall l :: l in s.overdue ==> l.id in s.parts }

  lemma CalledTracks(was: Parts, s: Parties, f: map<Id, seq<Call>>, pool: set<Late>, id: Id, c: Call)
    requires Tracks(was, s, f, pool) && id in f && !c.Landed?
    ensures Tracks(was, Called(s, id, c), f[id := f[id] + [c]], pool)
  {
    AllAskMore(was, s.parts, f, id, c);
    LandingsMore(was, s.parts, pool, s.overdue, id, c);
    hide After, Asked, Landings;
  }

  lemma {:induction false} SettledTracks(was: Parts, s: Parties, f: map<Id, seq<Call>>, pool: set<Late>, plan: seq<nat>)
    requires Tracks(was, s, f, pool)
    ensures Tracks(was, Settled(s, plan), f, pool)
  {
    hide After, Asked, Landings;
    if plan != [] {
      var s1, i := Settled(s, plan[..|plan|-1]), plan[|plan|-1];
      SettledTracks(was, s, f, pool, plan[..|plan|-1]);
      if i < |s1.overdue| {
        Lands(was, s1.parts, pool, s1.overdue, i);
        AllAskMore(was, s1.parts, f, s1.overdue[i].id, Landed(s1.overdue[i].value));
      }
    }
  }

  lemma GivenUpTracks(was: Parts, s: Parties, f: map<Id, seq<Call>>, pool: set<Late>, id: Id, parsed: Option<int>)
    requires Tracks(was, s, f, pool) && id in f
    ensures Tracks(was, GivenUp(s, id, parsed), f[id := f[id] + [Overran]],
      pool + if parsed.Some? then {Late(id, parsed.value)} else {})
  {
    hide After, Asked, Landings, AllAsked;
    CalledTracks(was, s, f, pool, id, Overran);
    assert id in was by { KeysOfAsked(was, s.parts, f); }
    var s' := Called(s, id, Overran);
    if parsed.Some? { OwedMore(was, s'.parts, pool, s'.overdue, Late(id, parsed.value)); } else { assert pool + {} == pool; }
  }

  lemma KeysOfAsked(was: Parts, now: Parts, f: map<Id, seq<Call>>)
    requires AllAsked(was, now, f)
    ensures was.Keys == now.Keys == f.Keys
  {
  }

  lemma LineMore(parsed: map<Id, Option<int>>, done: set<Id>, id: Id)
    requires id in parsed && parsed[id].Some? && id !in done
    ensures Line(parsed, done + {id}, {}, RolledBack) ==
      Line(parsed, done, {}, RolledBack)[id := Line(parsed, done, {}, RolledBack)[id] + [Staged(parsed[id].value)]]
  {
    assert [Staged(parsed[id].value)] + [] == [Staged(parsed[id].value)] == [] + [Staged(parsed[id].value)];
  }

  lemma LineEnds(parsed: map<Id, Option<int>>, ids: set<Id>, done: set<Id>, end: Call, id: Id)
    requires id in parsed && parsed[id].Some? && id !in done && id in ids
    ensures Line(parsed, ids, done + {id}, end) == Line(parsed, ids, done, end)[id := Line(parsed, ids, done, end)[id] + [end]]
  {
    assert [Staged(parsed[id].value)] + [] == [Staged(parsed[id].value)];
  }

  lemma LineBegins(parsed: map<Id, Option<int>>, ids: set<Id>)
    ensures Line(parsed, ids, {}, RolledBack) == Line(parsed, ids, {}, Committed)
  {
  }

  lemma {:induction false} AskingTracks(s: Parties, ids: seq<Id>, parsed: map<Id, Option<int>>, plans: Schedule, k: nat)
    requires k <= |ids| && Distinct(ids) && forall i :: 0 <= i < k ==> ids[i] in parsed && parsed[ids[i]].Some?
    requires Known(s) && s.parts.Keys == parsed.Keys
    ensures Tracks(s.parts, Asking(s, ids, parsed, plans, k), Line(parsed, Elems(ids[..k]), {}, RolledBack), Owed(s))
  {
    hide AllAsked, Landings, Line, Called, Settled;
    if k == 0 {
      NothingTracks(s, parsed);
      assert Elems(ids[..0]) == {};
    } else {
      var done, id := Elems(ids[..k-1]), ids[k-1];
      var s1 := Asking(s, ids, parsed, plans, k - 1);
      AskingTracks(s, ids, parsed, plans, k - 1);
      SettledTracks(s.parts, s1, Line(parsed, done, {}, RolledBack), Owed(s), plans(k - 1));
      PrefixMore(ids, k);
      LineKeys(parsed, done, {}, RolledBack);
      LineMore(parsed, done, id);
      CalledTracks(s.parts, Settled(s1, plans(k - 1)), Line(parsed, done, {}, RolledBack), Owed(s), id, Staged(parsed[id].value));
    }
  }

  lemma NothingTracks(s: Parties, parsed: map<Id, Option<int>>)
    requires Known(s) && s.parts.Keys == parsed.Keys
    ensures Tracks(s.parts, s, Line(parsed, {}, {}, RolledBack), Owed(s))
  {
    forall id | id in s.parts ensures Since(s.parts[id], s.parts[id]) == [] { }
  }

  lemma LineKeys(parsed: map<Id, Option<int>>, prepared: set<Id>, ended: set<Id>, end: Call)
    ensures Line(parsed, prepared, ended, end).Keys == parsed.Keys
  {
  }

  lemma PrefixMore(ids: seq<Id>, k: nat)
    requires 0 < k <= |ids| && Distinct(ids)
    ensures ids[k-1] !in Elems(ids[..k-1]) && Elems(ids[..k]) == Elems(ids[..k-1]) + {ids[k-1]}
    ensures Distinct(ids[..k-1]) && Elems(ids[..k]) <= Elems(ids)
  {
    assert ids[..k] == ids[..k-1] + [ids[k-1]];
  }

  /** `extra` is what the transaction asked besides. */
  lemma {:induction false} EndingTracks(was: Parts, s: Parties, ids: seq<Id>, parsed: map<Id, Option<int>>, end: Call,
      extra: map<Id, seq<Call>>, pool: set<Late>, plans: Schedule, gap: nat, k: nat)
    requires k <= |ids| && Distinct(ids) && end in {Committed, RolledBack}
    requires Elems(ids) <= parsed.Keys && (forall id :: id in Elems(ids) ==> parsed[id].Some? && id !in extra)
    requires Tracks(was, s, Line(parsed, Elems(ids), {}, end) + extra, pool)
    ensures Tracks(was, Ending(s, ids, end, plans, gap, k), Line(parsed, Elems(ids), Elems(ids[..k]), end) + extra, pool)
  {
    hide Tracks, Line, Called, Settled;
    if k == 0 {
      assert Elems(ids[..0]) == {};
    } else {
      var all, done, id := Elems(ids), Elems(ids[..k-1]), ids[k-1];
      var s1, f := Ending(s, ids, end, plans, gap, k - 1), Line(parsed, all, done, end) + extra;
      EndingTracks(was, s, ids, parsed, end, extra, pool, plans, gap, k - 1);
      SettledTracks(was, s1, f, pool, plans(gap + k - 1));
      PrefixMore(ids, k);
      LineKeys(parsed, all, done, end);
      LineEnds(parsed, all, done, end, id);
      CalledTracks(was, Settled(s1, plans(gap + k - 1)), f, pool, id, end);
      assert f[id := f[id] + [end]] == Line(parsed, all, done + {id}, end) + extra;
    }
  }

  lemma EndedTracks(was: Parts, s: Parties, ids: seq<Id>, parsed: map<Id, Option<int>>, end: Call,
      extra: map<Id, seq<Call>>, pool: set<Late>, plans: Schedule, gap: nat)
    requires Distinct(ids) && end in {Committed, RolledBack}
    requires Elems(ids) <= parsed.Keys && (forall id :: id in Elems(ids) ==> parsed[id].Some? && id !in extra)
    requires Tracks(was, s, Line(parsed, Elems(ids), {}, end) + extra, pool)
    ensures Tracks(was, Ended(s, ids, end, plans, gap), Line(parsed, Elems(ids), Elems(ids), end) + extra, pool)
  {
    hide Tracks, Line, Called, Settled, Ending;
    EndingTracks(was, s, ids, parsed, end, extra, pool, plans, gap, |ids|);
    assert ids[..|ids|] == ids;
    SettledTracks(was, Ending(s, ids, end, plans, gap, |ids|), Line(parsed, Elems(ids), Elems(ids), end) + extra, pool, plans(gap + |ids|));
  }

  /** When all agree, whatever lands when, each is prepared and committed once. */
  lemma AcceptedIsApplied(s: Parties, ids: seq<Id>, parsed: map<Id, Option<int>>, plans: Schedule)
    requires Distinct(ids) && Known(s) && s.parts.Keys == parsed.Keys
    requires forall i :: 0 <= i < |ids| ==> ids[i] in parsed && parsed[ids[i]].Some?
    ensures var s' := Accepted(s, ids, parsed, plans);
      Applied(s.parts, s'.parts, parsed, Elems(ids)) && Landings(s.parts, s'.parts, Owed(s), s'.overdue)
  {
    hide AllAsked, Landings, Line, Asking, Ended;
    var s1, all := Asking(s, ids, parsed, plans, |ids|), Elems(ids);
    AskingTracks(s, ids, parsed, plans, |ids|);
    assert ids[..|ids|] == ids;
    LineBegins(parsed, all);
    var f: map<Id, seq<Call>> := map[];
    assert Line(parsed, all, {}, Committed) + f == Line(parsed, all, {}, Committed);
    assert Line(parsed, all, all, Committed) + f == Line(parsed, all, all, Committed);
    EndedTracks(s.parts, s1, ids, parsed, Committed, f, Owed(s), plans, |ids|);
  }

  /** When the `k`-th does not agree, all before it are rolled back once, none is
      committed, and nobody after it is asked. */
  lemma RejectedIsReverted(s: Parties, ids: seq<Id>, parsed: map<Id, Option<int>>, overran: bool, plans: Schedule, k: nat)
    requires Distinct(ids) && Known(s) && s.parts.Keys == parsed.Keys && k < |ids| && ids[k] in parsed
    requires forall i :: 0 <= i < k ==> ids[i] in parsed && parsed[ids[i]].Some?
    ensures var s', bad := RejectedAt(s, ids, parsed, overran, plans, k), ids[k];
      && Reverted(s.parts, s'.parts, parsed, Elems(ids[..k]), bad, overran)
      && Landings(s.parts, s'.parts, Owed(s) + (if overran && parsed[bad].Some? then {Late(bad, parsed[bad].value)} else {}), s'.overdue)
  {
    hide AllAsked, Landings, Line, Asking, Ended, Called, GivenUp, Settled, Distinct;
    var bad, all, was := ids[k], Elems(ids[..k]), s.parts;
    var s1 := Asking(s, ids, parsed, plans, k);
    var f := Line(parsed, all, {}, RolledBack);
    AskingTracks(s, ids, parsed, plans, k);
    SettledTracks(was, s1, f, Owed(s), plans(k));
    PrefixMore(ids, k + 1);
    LineKeys(parsed, all, {}, RolledBack);
    LineKeys(parsed, all, all, RolledBack);
    NotPrepared(parsed, all, {}, RolledBack, bad);
    var s2 := Settled(s1, plans(k));
    var extra := map[bad := [if overran then Overran else Refused]];
    var pool := Owed(s) + if overran && parsed[bad].Some? then {Late(bad, parsed[bad].value)} else {};
    if overran {
      GivenUpTracks(was, s2, f, Owed(s), bad, parsed[bad]);
    } else {
      CalledTracks(was, s2, f, Owed(s), bad, Refused);
      assert pool == Owed(s);
    }
    assert f[bad] + extra[bad] == extra[bad];
    assert f[bad := extra[bad]] == f + extra;
    EndedTracks(was, Rejecting(s, ids, parsed, overran, plans, k), ids[..k], parsed, RolledBack, extra, pool, plans, k + 1);
    assert Line(parsed, all, all, RolledBack) + extra == Line(parsed, all, all, RolledBack)[bad := extra[bad]];
  }

  lemma NotPrepared(parsed: map<Id, Option<int>>, prepared: set<Id>, ended: set<Id>, end: Call, id: Id)
    requires id in parsed && id !in prepared
    ensures Line(parsed, prepared, ended, end)[id] == []
  {
  }

  // ---- a rejected fragment that is committed ----

  /** Nothing finishes late, or the `i`-th prepare owed finishes in gap `gap`. */
  function Never(): Schedule { _ => [] }

  function Once(gap: nat, i: nat): Schedule { g => if g == gap then [i] else [] }

  /** One module: its prepare overruns, so the first reload is rejected; it
      finishes between prepare and commit of the next reload, which is accepted,
      and whose commit switches to the fragment that was rejected. */
  lemma RejectedFragmentIsCommitted(s: Parties, id: Id, v1: int, v2: int)
    requires id in s.parts && s.overdue == []
    ensures var first := RejectedAt(s, [id], map[id := Some(v1)], true, Never(), 0);
      var second := Accepted(first, [id], map[id := Some(v2)], Once(1, 0));
      && id in first.parts && first.parts[id].settings == s.parts[id].settings
      && id in second.parts && second.parts[id].settings == v1
  {
    var ids, parsed1, parsed2 := [id], map[id := Some(v1)], map[id := Some(v2)];
    var r := Rejecting(s, ids, parsed1, true, Never(), 0);
    assert r == s.(parts := s.parts[id := After(s.parts[id], Overran)], overdue := [Late(id, v1)]);
    assert ids[..0] == [];
    var first := RejectedAt(s, ids, parsed1, true, Never(), 0);
    assert first == r;
    var a := Asking(first, ids, parsed2, Once(1, 0), 1);
    assert Once(1, 0)(0) == [] && Asking(first, ids, parsed2, Once(1, 0), 0) == first && Settled(first, []) == first;
    assert a == Called(first, id, Staged(v2));
    OneLands(a, 0);
    var b := Settled(a, [0]);
    assert Ending(a, ids, Committed, Once(1, 0), 1, 0) == a;
    assert Ending(a, ids, Committed, Once(1, 0), 1, 1) == Called(b, id, Committed);
    assert Accepted(first, ids, parsed2, Once(1, 0)) == Called(b, id, Committed);
  }

  lemma NothingLands(s: Parties, i: nat)
    requires i >= |s.overdue|
    ensures LandAt(s, i) == s
  {
  }

  lemma OneLands(s: Parties, i: nat)
    ensures Settled(s, [i]) == LandAt(s, i)
  {
    assert Settled(s, [i][..0]) == s;
  }

  // ---- what is owed before a reload decides what it can leave ----

  /** The transaction can be carried out: known modules, each once. */
  ghost predicate Fits(s: Parties, ids: seq<Id>, parsed: map<Id, Option<int>>) {
    Distinct(ids) && Known(s) && s.parts.Keys == parsed.Keys && forall id :: id in ids ==> id in parsed
  }

  ghost predicate AllParse(ids: seq<Id>, parsed: map<Id, Option<int>>) {
    forall i :: 0 <= i < |ids| ==> ids[i] in parsed && parsed[ids[i]].Some?
  }

  /** A prepare given up earlier will stage something else than `v` at `id`. */
  ghost predicate Conflicts(s: Parties, id: Id, v: int) {
    exists l :: l in s.overdue && l.id == id && l.value != v
  }

  lemma AppliedAt(was: Parts, now: Parts, parsed: map<Id, Option<int>>, ids: set<Id>, id: Id)
    requires Applied(was, now, parsed, ids) && id in ids
    ensures id in was && id in now && id in parsed && parsed[id].Some?
    ensures Asked(was[id], now[id], [Staged(parsed[id].value), Committed])
  {
    hide Asked;
    assert Line(parsed, ids, ids, Committed)[id] == [Staged(parsed[id].value), Committed];
  }

  lemma LandedIsOwed(was: Parts, now: Parts, pool: set<Late>, overdue: seq<Late>, id: Id)
    requires Landings(was, now, pool, overdue) && id in was
    ensures id in now && was[id].calls <= now[id].calls
    ensures forall v :: Landed(v) in Since(was[id], now[id]) ==> Late(id, v) in pool
  {
  }

  /** Nothing owed conflicts: whatever lands when, the module ends on its new fragment. */
  lemma NothingConflicts(s: Parties, ids: seq<Id>, parsed: map<Id, Option<int>>, plans: Schedule, id: Id)
    requires Fits(s, ids, parsed) && AllParse(ids, parsed) && id in ids && !Conflicts(s, id, parsed[id].value)
    ensures var now := Accepted(s, ids, parsed, plans).parts;
      id in now && now[id].settings == parsed[id].value
  {
    hide Accepted, Applied, Landings, Asked, Asks, Play;
    AcceptedIsApplied(s, ids, parsed, plans);
    var now, v := Accepted(s, ids, parsed, plans), parsed[id].value;
    assert id in Elems(ids);
    AppliedAt(s.parts, now.parts, parsed, Elems(ids), id);
    LandedIsOwed(s.parts, now.parts, Owed(s), now.overdue, id);
    SwitchesIfOwn(s.parts[id], now.parts[id], v);
  }

  lemma SwitchesIfOwn(p: PartState, q: PartState, v: int)
    requires Asked(p, q, [Staged(v), Committed]) && forall w :: Landed(w) in Since(p, q) ==> w == v
    ensures q.settings == v
  {
    var h := Since(p, q);
    var j := AskIsThere(h, Committed);
    CommitSwitches(p, q, v, j);
    EndSplits(h, v, Committed, j);
    LastIsStaged(p, h[..j], v);
    assert h[..j][j-1] == h[j-1];
    assert h[j-1].Landed? ==> h[j-1] == Landed(h[j-1].value);
  }

  lemma NobodyLands(s: Parties)
    ensures Settled(s, []) == s
  {
  }

  lemma StagesOne(s: Parties, id: Id, v: int)
    requires id in s.parts
    ensures var s' := Called(s, id, Staged(v));
      && s'.overdue == s.overdue && s'.parts.Keys == s.parts.Keys
      && forall j :: j in s.parts ==>
           && s'.parts[j].settings == s.parts[j].settings
           && s'.parts[j].staged == if j == id then Some(v) else s.parts[j].staged
  {
  }

  /** Until something lands, asking only stages. */
  lemma {:induction false} QuietAsking(s: Parties, ids: seq<Id>, parsed: map<Id, Option<int>>, plans: Schedule, k: nat)
    requires k <= |ids| && forall id :: id in ids ==> id in s.parts
    requires forall i :: 0 <= i < k ==> plans(i) == [] && ids[i] in parsed && parsed[ids[i]].Some?
    ensures var s' := Asking(s, ids, parsed, plans, k);
      && s'.overdue == s.overdue && s'.parts.Keys == s.parts.Keys
      && forall id :: id in s.parts ==>
           && s'.parts[id].settings == s.parts[id].settings
           && s'.parts[id].staged == if id in ids[..k] then parsed[id] else s.parts[id].staged
  {
    hide After, Called, LandAt, Settled;
    if k > 0 {
      var before := Asking(s, ids, parsed, plans, k - 1);
      QuietAsking(s, ids, parsed, plans, k - 1);
      NobodyLands(before);
      StagesOne(before, ids[k-1], parsed[ids[k-1]].value);
      assert ids[..k] == ids[..k-1] + [ids[k-1]];
    }
  }

  /** Until something lands, each module told `end` has just been told that. */
  lemma {:induction false} QuietEnding(s: Parties, ids: seq<Id>, end: Call, plans: Schedule, gap: nat, k: nat)
    requires k <= |ids| && Distinct(ids) && forall g: nat :: gap <= g < gap + k ==> plans(g) == []
    ensures var s' := Ending(s, ids, end, plans, gap, k);
      && s'.overdue == s.overdue && s'.parts.Keys == s.parts.Keys
      && forall id :: id in s.parts ==> s'.parts[id] == if id in ids[..k] then After(s.parts[id], end) else s.parts[id]
  {
    hide After, LandAt, Settled;
    if k > 0 {
      QuietEnding(s, ids, end, plans, gap, k - 1);
      var before := Ending(s, ids, end, plans, gap, k - 1);
      NobodyLands(before);
      assert Ending(s, ids, end, plans, gap, k) == Called(before, ids[k-1], end);
      assert ids[..k] == ids[..k-1] + [ids[k-1]];
      assert ids[k-1] !in ids[..k-1];
    }
  }

  /** What lands before the first module is told `end` may as well have landed before. */
  lemma {:induction false} LandsFirst(s: Parties, ids: seq<Id>, end: Call, gap: nat, i: nat, k: nat)
    requires 0 < k <= |ids|
    ensures Ending(s, ids, end, Once(gap, i), gap, k) == Ending(LandAt(s, i), ids, end, Never(), gap, k)
  {
    hide LandAt, Called;
    var plan := Once(gap, i);
    if k > 1 {
      LandsFirst(s, ids, end, gap, i, k - 1);
      assert plan(gap + k - 1) == [];
    } else {
      OneLands(s, i);
      assert plan(gap) == [i];
      assert Ending(s, ids, end, plan, gap, 0) == s && Ending(LandAt(s, i), ids, end, Never(), gap, 0) == LandAt(s, i);
    }
  }

  /** Something owed conflicts: if it lands just before the commits, it is committed. */
  lemma ConflictOvertakes(s: Parties, ids: seq<Id>, parsed: map<Id, Option<int>>, i: nat)
    requires Fits(s, ids, parsed) && AllParse(ids, parsed) && i < |s.overdue| && s.overdue[i].id in ids
    ensures var now, l := Accepted(s, ids, parsed, Once(|ids|, i)).parts, s.overdue[i];
      l.id in now && now[l.id].settings == l.value
  {
    var n, l, plan := |ids|, s.overdue[i], Once(|ids|, i);
    hide Asking, Ending, Fits;
    FitsMeans(s, ids, parsed);
    QuietAsking(s, ids, parsed, plan, n);
    var a := Asking(s, ids, parsed, plan, n);
    LandsFirst(a, ids, Committed, n, i, n);
    var b := LandAt(a, i);
    QuietEnding(b, ids, Committed, Never(), n, n);
    assert ids[..n] == ids && plan(n + n) == [];
    assert Settled(Ending(a, ids, Committed, plan, n, n), []) == Ending(a, ids, Committed, plan, n, n);
  }

  lemma FitsMeans(s: Parties, ids: seq<Id>, parsed: map<Id, Option<int>>)
    requires Fits(s, ids, parsed)
    ensures Distinct(ids) && s.parts.Keys == parsed.Keys && forall id :: id in ids ==> id in parsed && id in s.parts
  {
  }

  /** An accepted reload is sure to leave a module on its new fragment if and only
      if no prepare given up before it has something else to stage there. */
  lemma SureToSwitch(s: Parties, ids: seq<Id>, parsed: map<Id, Option<int>>, id: Id)
    requires Fits(s, ids, parsed) && AllParse(ids, parsed) && id in ids
    ensures (forall plans: Schedule :: var now := Accepted(s, ids, parsed, plans).parts; id in now && now[id].settings == parsed[id].value)
      <==> !Conflicts(s, id, parsed[id].value)
  {
    hide Accepted, Fits;
    if Conflicts(s, id, parsed[id].value) {
      var l :| l in s.overdue && l.id == id && l.value != parsed[id].value;
      var i :| 0 <= i < |s.overdue| && s.overdue[i] == l;
      ConflictOvertakes(s, ids, parsed, i);
    } else {
      forall plans: Schedule ensures var now := Accepted(s, ids, parsed, plans).parts; id in now && now[id].settings == parsed[id].value {
        NothingConflicts(s, ids, parsed, plans, id);
      }
    }
  }

  /** Nothing owed conflicts with any module the reload asks. */
  ghost predicate NoConflict(overdue: seq<Late>, ids: seq<Id>, parsed: map<Id, Option<int>>) {
    forall l :: l in overdue && l.id in ids ==> l.id in parsed && parsed[l.id] == Some(l.value)
  }

  /** So all of them are sure to switch if and only if nothing owed conflicts. */
  lemma AllSureToSwitch(s: Parties, ids: seq<Id>, parsed: map<Id, Option<int>>)
    requires Fits(s, ids, parsed) && AllParse(ids, parsed)
    ensures (forall plans: Schedule, id :: id in ids ==>
        var now := Accepted(s, ids, parsed, plans).parts; id in now && now[id].settings == parsed[id].value)
      <==> NoConflict(s.overdue, ids, parsed)
  {
    hide Accepted, Fits;
    forall id | id in ids ensures Conflicts(s, id, parsed[id].value) ==> !NoConflict(s.overdue, ids, parsed) { }
    if NoConflict(s.overdue, ids, parsed) {
      forall plans: Schedule, id | id in ids
        ensures var now := Accepted(s, ids, parsed, plans).parts; id in now && now[id].settings == parsed[id].value
      {
        NothingConflicts(s, ids, parsed, plans, id);
      }
    } else {
      var l :| l in s.overdue && l.id in ids && !(l.id in parsed && parsed[l.id] == Some(l.value));
      var i :| 0 <= i < |s.overdue| && s.overdue[i] == l;
      ConflictOvertakes(s, ids, parsed, i);
    }
  }

  // ---- what a rejected reload can leave staged ----

  ghost predicate NewlyStaged(s: Parties, s': Parties, id: Id) {
    id in s.parts && id in s'.parts && s'.parts[id].staged.Some? && s'.parts[id].staged != s.parts[id].staged
  }

  /** What is owed once the `bad` module has rejected the reload. */
  ghost function OwedAfter(s: Parties, parsed: map<Id, Option<int>>, bad: Id, overran: bool): set<Late>
    requires bad in parsed
  {
    Owed(s) + if overran && parsed[bad].Some? then {Late(bad, parsed[bad].value)} else {}
  }

  lemma {:induction false} LandingIsThere(h: seq<Call>)
    ensures LastLanding(h).Some? ==> Landed(LastLanding(h).value) in h
  {
    if h != [] { LandingIsThere(h[..|h|-1]); }
  }

  /** What is staged anew after a rejection has landed, so it was owed. */
  lemma NewlyStagedWasOwed(s: Parties, ids: seq<Id>, parsed: map<Id, Option<int>>, overran: bool, plans: Schedule, k: nat, id: Id)
    requires Fits(s, ids, parsed) && k < |ids| && AllParse(ids[..k], parsed)
    requires NewlyStaged(s, RejectedAt(s, ids, parsed, overran, plans, k), id)
    ensures Late(id, RejectedAt(s, ids, parsed, overran, plans, k).parts[id].staged.value) in OwedAfter(s, parsed, ids[k], overran)
  {
    hide RejectedAt, Reverted, Landings, Play, Asks, LastLanding, Asked;
    FitsMeans(s, ids, parsed);
    RejectedIsReverted(s, ids, parsed, overran, plans, k);
    var now, done := RejectedAt(s, ids, parsed, overran, plans, k), Elems(ids[..k]);
    AskedAt(s.parts, now.parts, parsed, done, ids[k], overran, id);
    LandedIsOwed(s.parts, now.parts, OwedAfter(s, parsed, ids[k], overran), now.overdue, id);
    StagedHasLanded(s.parts[id], now.parts[id],
      if id == ids[k] then [if overran then Overran else Refused]
      else if id in done then [Staged(parsed[id].value), RolledBack] else []);
  }

  lemma StagedHasLanded(p: PartState, q: PartState, asks: seq<Call>)
    requires Asked(p, q, asks)
    requires (asks == []) || (asks == [Refused]) || (asks == [Overran]) || (|asks| == 2 && asks[0].Staged? && asks[1] == RolledBack)
    requires q.staged.Some? && q.staged != p.staged
    ensures Landed(q.staged.value) in Since(p, q)
  {
    var h := Since(p, q);
    if |asks| == 2 {
      assert RolledBack in Asks(h);
      var j := AskIsThere(h, RolledBack);
      RollbackClears(p, q, asks[0].value, j);
      LandingIsThere(h[j+1..]);
    } else {
      OnlyLandings(p, h);
      LandingIsThere(h);
    }
  }

  /** The schedule by which one owed prepare lands last of all, and nothing else does. */
  lemma LandsLast(s: Parties, ids: seq<Id>, parsed: map<Id, Option<int>>, overran: bool, k: nat, l: Late) returns (plans: Schedule)
    requires Fits(s, ids, parsed) && k < |ids| && AllParse(ids[..k], parsed) && l in OwedAfter(s, parsed, ids[k], overran)
    ensures var now := RejectedAt(s, ids, parsed, overran, plans, k).parts;
      l.id in now && now[l.id].staged == Some(l.value)
  {
    hide Fits, Asking, Ending, After, LandAt, OwedAfter, Rejecting;
    FitsMeans(s, ids, parsed);
    var owed := if overran && parsed[ids[k]].Some? then s.overdue + [Late(ids[k], parsed[ids[k]].value)] else s.overdue;
    assert l in owed && l.id in s.parts by { OwedIsKnown(s, ids, parsed, overran, k, l, owed); }
    var i: nat :| i < |owed| && owed[i] == l;
    plans := Once(k + 1 + k, i);
    QuietRejection(s, ids, parsed, overran, plans, k);
    var r := Rejecting(s, ids, parsed, overran, plans, k);
    PrefixDistinct(ids, k);
    QuietEnding(r, ids[..k], RolledBack, plans, k + 1, k);
    var e := Ending(r, ids[..k], RolledBack, plans, k + 1, k);
    OneLands(e, i);
    LandedStages(e, i);
  }

  lemma LandedStages(s: Parties, i: nat)
    requires i < |s.overdue| && s.overdue[i].id in s.parts
    ensures var l := s.overdue[i]; l.id in LandAt(s, i).parts && LandAt(s, i).parts[l.id].staged == Some(l.value)
  {
  }

  lemma PrefixDistinct(ids: seq<Id>, k: nat)
    requires k <= |ids| && Distinct(ids)
    ensures Distinct(ids[..k])
  {
  }

  lemma OwedIsKnown(s: Parties, ids: seq<Id>, parsed: map<Id, Option<int>>, overran: bool, k: nat, l: Late, owed: seq<Late>)
    requires Fits(s, ids, parsed) && k < |ids| && l in OwedAfter(s, parsed, ids[k], overran)
    requires owed == if overran && parsed[ids[k]].Some? then s.overdue + [Late(ids[k], parsed[ids[k]].value)] else s.overdue
    ensures l in owed && l.id in s.parts
  {
  }

  lemma QuietRejection(s: Parties, ids: seq<Id>, parsed: map<Id, Option<int>>, overran: bool, plans: Schedule, k: nat)
    requires Fits(s, ids, parsed) && k < |ids| && AllParse(ids[..k], parsed)
    requires forall g: nat :: g <= k ==> plans(g) == []
    ensures forall i :: 0 <= i < k ==> ids[i] in parsed && parsed[ids[i]].Some?
    ensures var r := Rejecting(s, ids, parsed, overran, plans, k);
      && r.parts.Keys == s.parts.Keys
      && r.overdue == if overran && parsed[ids[k]].Some? then s.overdue + [Late(ids[k], parsed[ids[k]].value)] else s.overdue
  {
    FitsMeans(s, ids, parsed);
    hide Fits, After, Settled;
    assert forall i :: 0 <= i < k ==> ids[..k][i] == ids[i];
    QuietAsking(s, ids, parsed, plans, k);
    NobodyLands(Asking(s, ids, parsed, plans, k));
  }

  /** A rejected reload can leave something new staged at a module if and only if a
      prepare is owed there, by an earlier reload or by the overrun that rejected
      this one, whose fragment is not the one staged before. */
  lemma CanStageAnew(s: Parties, ids: seq<Id>, parsed: map<Id, Option<int>>, overran: bool, k: nat, id: Id)
    requires Fits(s, ids, parsed) && k < |ids| && AllParse(ids[..k], parsed) && id in s.parts
    requires forall i :: 0 <= i < k ==> ids[i] in parsed && parsed[ids[i]].Some?
    ensures ids[k] in parsed
    ensures (exists plans: Schedule :: NewlyStaged(s, RejectedAt(s, ids, parsed, overran, plans, k), id)) <==>
      exists l :: l in OwedAfter(s, parsed, ids[k], overran) && l.id == id && Some(l.value) != s.parts[id].staged
  {
    FitsMeans(s, ids, parsed);
    hide RejectedAt, Fits, OwedAfter;
    if exists l :: l in OwedAfter(s, parsed, ids[k], overran) && l.id == id && Some(l.value) != s.parts[id].staged {
      var l :| l in OwedAfter(s, parsed, ids[k], overran) && l.id == id && Some(l.value) != s.parts[id].staged;
      var plans := LandsLast(s, ids, parsed, overran, k, l);
      assert NewlyStaged(s, RejectedAt(s, ids, parsed, overran, plans, k), id);
    }
    if exists plans: Schedule :: NewlyStaged(s, RejectedAt(s, ids, parsed, overran, plans, k), id) {
      var plans: Schedule :| NewlyStaged(s, RejectedAt(s, ids, parsed, overran, plans, k), id);
      NewlyStagedWasOwed(s, ids, parsed, overran, plans, k, id);
    }
  }

  // ---- the reload ----

  datatype Config = Config(modules: map<Id, R.ModuleConfig>, policy: R.Policy)

  /** A module the configuration does not name is off. */
  function ModuleFor(c: Config, id: Id): (m: R.ModuleConfig)
    ensures id !in c.modules ==> !m.enabled && !m.required
  {
    if id in c.modules then c.modules[id] else R.ModuleConfig(false, false, 0)
  }

  datatype ReloadError =
    | Invalid
    | NotRunning
    | UnknownModules
    | Unresolvable(error: ResolveError)
    | Rejected(id: Id)

  class Reloader {
    const sup: Supervisor
    const mods: map<Id, Participant>
    /** Prepares that were given up and still execute. */
    var overdue: seq<Late>

    constructor (sup: Supervisor, mods: map<Id, Participant>)
      ensures this.sup == sup && this.mods == mods && overdue == []
    {
      this.sup, this.mods, overdue := sup, mods, [];
    }

    ghost predicate Apart() {
      forall i, j :: i in mods && j in mods && i != j ==> mods[i] != mods[j]
    }

    ghost function Mine(): set<object> {
      set id | id in mods :: mods[id]
    }

    ghost function Parts(): Parts
      reads Mine()
    {
      map id | id in mods :: mods[id].View()
    }

    ghost function State(): Parties
      reads this, Mine()
    {
      Parties(Parts(), overdue)
    }

    /** What each module's parser makes of its fragment. */
    ghost function Parsed(c: Config): map<Id, Option<int>> {
      map id | id in mods :: mods[id].parse(ModuleFor(c, id))
    }

    lemma PartsChanged(id: Id, was: Parts)
      requires id in mods && was.Keys == mods.Keys
      requires forall j :: j in mods && j != id ==> mods[j].View() == was[j]
      ensures Parts() == was[id := mods[id].View()]
    {
    }

    method Prepare(id: Id, c: Config) returns (ok: bool)
      requires Apart() && id in mods
      modifies Mine()
      ensures ok == Parsed(c)[id].Some?
      ensures State() == Called(old(State()), id, if ok then Staged(Parsed(c)[id].value) else Refused)
    {
      ghost var was := Parts();
      ok := mods[id].PrepareConfig(ModuleFor(c, id));
      PartsChanged(id, was);
    }

    /** The prepare overruns its deadline and goes on executing. */
    method GiveUp(id: Id, c: Config)
      requires Apart() && id in mods
      modifies this`overdue, Mine()
      ensures State() == GivenUp(old(State()), id, Parsed(c)[id])
    {
      ghost var was := Parts();
      var parsed := mods[id].Overrun(ModuleFor(c, id));
      PartsChanged(id, was);
      if parsed.Some? { overdue := overdue + [Late(id, parsed.value)]; }
    }

    method RollBack(id: Id)
      requires Apart() && id in mods
      modifies Mine()
      ensures State() == Called(old(State()), id, RolledBack)
    {
      ghost var was := Parts();
      mods[id].RollbackConfig();
      PartsChanged(id, was);
    }

    method CommitOne(id: Id)
      requires Apart() && id in mods
      modifies Mine()
      ensures State() == Called(old(State()), id, Committed)
    {
      ghost var was := Parts();
      mods[id].CommitConfig();
      PartsChanged(id, was);
    }

    /** A prepare that was given up finishes. */
    method LandOne(i: nat)
      requires Apart() && i < |overdue|
      modifies this`overdue, Mine()
      ensures State() == LandAt(old(State()), i)
    {
      ghost var was := Parts();
      var l := overdue[i];
      if l.id in mods {
        mods[l.id].Land(l.value);
        PartsChanged(l.id, was);
      }
      overdue := overdue[..i] + overdue[i+1..];
    }

    /** Between two calls, those that `plan` lists finish. */
    method Settle(plan: seq<nat>)
      requires Apart()
      modifies this`overdue, Mine()
      ensures State() == Settled(old(State()), plan)
    {
      hide Apart, LandAt, Mine, Parts;
      for i := 0 to |plan|
        invariant State() == Settled(old(State()), plan[..i])
      {
        assert plan[..i+1][..i] == plan[..i];
        if plan[i] < |overdue| { LandOne(plan[i]); } else { NothingLands(State(), plan[i]); }
      }
      assert plan[..|plan|] == plan;
    }

    method RollbackAll(prepared: seq<Id>, plans: Schedule, gap: nat)
      requires Apart() && Elems(prepared) <= mods.Keys
      modifies this`overdue, Mine()
      ensures State() == Ended(old(State()), prepared, RolledBack, plans, gap)
    {
      hide Apart, Called, Mine, Parts, Settled;
      for i := 0 to |prepared|
        invariant State() == Ending(old(State()), prepared, RolledBack, plans, gap, i)
      {
        assert prepared[i] in Elems(prepared);
        Settle(plans(gap + i));
        RollBack(prepared[i]);
      }
      Settle(plans(gap + |prepared|));
    }

    method CommitAll(prepared: seq<Id>, plans: Schedule, gap: nat)
      requires Apart() && Elems(prepared) <= mods.Keys
      modifies this`overdue, Mine()
      ensures State() == Ended(old(State()), prepared, Committed, plans, gap)
    {
      hide Apart, Called, Mine, Parts, Settled;
      for i := 0 to |prepared|
        invariant State() == Ending(old(State()), prepared, Committed, plans, gap, i)
      {
        assert prepared[i] in Elems(prepared);
        Settle(plans(gap + i));
        CommitOne(prepared[i]);
      }
      Settle(plans(gap + |prepared|));
    }

    /** Phases one and two.  A prepare in `late` overruns its deadline, is taken
        for a refusal, and finishes in a gap between later calls, of this
        transaction or of another; `plans` says which finish in which gap. */
    method Transact(ids: seq<Id>, c: Config, late: set<Id>, plans: Schedule) returns (bad: Option<Id>, k: nat)
      requires Apart() && Elems(ids) <= mods.Keys
      modifies this`overdue, Mine()
      ensures Answered(old(State()), State(), c, ids, late, plans, bad, k)
    {
      hide Apart, Called, Ended, GivenUp, Mine, Parsed, Parts, Settled;
      ghost var was, parsed := State(), Parsed(c);
      ParsedKeys(c);
      bad, k := None, 0;
      while k < |ids|
        invariant k <= |ids| && forall i :: 0 <= i < k ==> ids[i] !in late && Parses(c, ids[i])
        invariant State() == Asking(was, ids, parsed, plans, k)
      {
        var id := ids[k];
        assert id in Elems(ids);
        Settle(plans(k));
        if id in late {
          GiveUp(id, c);
          PrefixIsMine(ids, k);
          RollbackAll(ids[..k], plans, k + 1);
          return Some(id), k;
        }
        var ok := Prepare(id, c);
        if !ok {
          PrefixIsMine(ids, k);
          RollbackAll(ids[..k], plans, k + 1);
          return Some(id), k;
        }
        k := k + 1;
      }
      CommitAll(ids, plans, |ids|);
    }

    lemma PrefixIsMine(ids: seq<Id>, k: nat)
      requires k <= |ids|
      ensures Elems(ids[..k]) <= Elems(ids)
    {
    }

    lemma ParsedKeys(c: Config)
      ensures Parsed(c).Keys == mods.Keys && forall id :: id in mods ==> Parses(c, id) == Parsed(c)[id].Some?
    {
    }

    ghost predicate Parses(c: Config, id: Id) {
      id in mods && mods[id].parse(ModuleFor(c, id)).Some?
    }

    /** How asking the modules of `ids` in turn ends: all of them agreed in time and
        are committed, or the `k`-th was the first not to, and all before it are
        rolled back. */
    ghost predicate Answered(was: Parties, now: Parties, c: Config, ids: seq<Id>, late: set<Id>, plans: Schedule, bad: Option<Id>, k: nat)
    {
      && (forall i :: 0 <= i < (if bad.None? then |ids| else k) ==> i < |ids| && ids[i] !in late && Parses(c, ids[i]))
      && match bad
         case None => now == Accepted(was, ids, Parsed(c), plans)
         case Some(b) =>
           && k < |ids| && ids[k] == b && b in mods && (b in late || !Parses(c, b))
           && now == RejectedAt(was, ids, Parsed(c), b in late, plans, k)
    }

    // ---- the whole reload, with nothing interleaved ----

    /** Every running configurable module runs its configured fragment. */
    ghost predicate InSync(s: Sys, parts: Parts) {
      forall id :: id in mods && id in s.mods && id in parts && s.mods[id].runner.state == Running ==>
        mods[id].parse(s.mods[id].runner.cfg) == Some(parts[id].settings)
    }

    /** Running configurable modules whose fragment the candidate changes. */
    ghost function AffectedBy(s: Sys, c: Config): set<Id> {
      set id | id in mods && id in s.mods && s.mods[id].runner.state == Running && s.mods[id].runner.cfg != ModuleFor(c, id)
    }

    ghost predicate Ready()
      reads this, Mine(), sup, sup.Repr()
    {
      && sup.Valid() && Apart() && Known(State())
      && sup !in sup.Repr() && sup !in Mine() && Mine() !! sup.Repr() && this !in sup.Repr()
    }

    /** The dependencies of the modules the candidate enables. */
    ghost function Candidates(c: Config): Manifests
      reads sup`runners
    {
      map id | id in sup.runners && ModuleFor(c, id).enabled :: sup.runners[id].dependencies
    }

    /** The supervisor can take the candidate, whatever its modules say. */
    ghost predicate Acceptable(c: Config)
      reads sup`runners, sup`started, sup`stopped
    {
      && sup.started && !sup.stopped && c.modules.Keys <= sup.runners.Keys
      && Clean(RelationOf(Candidates(c))) && Acyclic(RelationOf(Candidates(c)))
    }

    /** Everything that is rejected before any module is asked. */
    method Check(c: Config, valid: bool) returns (r: Result<Graph, ReloadError>)
      requires Ready()
      ensures Ready() && unchanged(sup) && Candidates(c) == old(Candidates(c)) && State() == old(State()) && sup.Views() == old(sup.Views())
      ensures r.Success? ==> sup.started && !sup.stopped && GraphOf(Some(r.value), RelationOf(Candidates(c)))
      ensures r.Success? <==> valid && Acceptable(c)
      ensures r.Failure? ==> !r.error.Rejected?
    {
      hide SysInv, Init, Acyclic, Clean, Resolved, RelationOf, Supervisor.Separate, Supervisor.SameFlags, ModuleFor;
      if !valid { return Failure(Invalid); }
      if !sup.started || sup.stopped { return Failure(NotRunning); }
      if !(c.modules.Keys <= sup.runners.Keys) { return Failure(UnknownModules); }
      var manifests := map id | id in sup.runners && ModuleFor(c, id).enabled :: sup.runners[id].dependencies;
      assert manifests == Candidates(c);
      var resolved := Resolve.Resolve(manifests);
      assert manifests == Candidates(c);
      if resolved.Failure? { return Failure(Unresolvable(resolved.error)); }
      assert GraphOf(Some(resolved.value), RelationOf(manifests));
      r := Success(resolved.value);
    }

    /** The modules to prepare, in registration order. */
    method Affected(c: Config) returns (ids: seq<Id>)
      requires Ready()
      ensures Ready() && unchanged(sup) && State() == old(State()) && sup.Views() == old(sup.Views())
      ensures Lists(ids, AffectedBy(sup.model, c))
    {
      hide AffectedBy, Apart, DepsOf, Init, Lists, Parts, Supervisor.SameFlags, Supervisor.SameRunners,
        Supervisor.Separate, Supervisor.Views, SysInv;
      ids := ScanAffected(c);
    }

    method ScanAffected(c: Config) returns (ids: seq<Id>)
      requires sup.Separate() && sup.SameRunners(sup.model)
      ensures Lists(ids, AffectedBy(sup.model, c))
    {
      ListBegins(sup.regOrder, sup.runners.Keys);
      assert Lists([], {});
      ids := [];
      ghost var all := AffectedBy(sup.model, c);
      for i := 0 to |sup.regOrder|
        invariant Lists(ids, all * Elems(sup.regOrder[..i]))
      {
        var id := sup.regOrder[i];
        NextInOrder(sup.regOrder, i, Elems(sup.regOrder[..i]), sup.runners.Keys);
        var r := sup.runners[id];
        assert r.View() == sup.model.mods[id].runner;
        if r.cfg != ModuleFor(c, id) && r.state == Running && id in mods {
          assert id in all;
          ListsMore(ids, all * Elems(sup.regOrder[..i]), id);
          ids := ids + [id];
        } else {
          assert id !in all;
        }
      }
      assert sup.regOrder[..|sup.regOrder|] == sup.regOrder;
    }

    function Fragments(c: Config): map<Id, R.ModuleConfig>
      reads sup`runners
    {
      map id | id in sup.runners :: ModuleFor(c, id)
    }

    /** Phases one and two leave the supervisor alone. */
    method Ask(asked: seq<Id>, c: Config, late: set<Id>, plans: Schedule) returns (bad: Option<Id>, k: nat)
      requires Ready() && Distinct(asked) && Elems(asked) <= mods.Keys
      modifies this`overdue, Mine()
      ensures Ready() && unchanged(sup) && sup.Views() == old(sup.Views())
      ensures Answered(old(State()), State(), c, asked, late, plans, bad, k)
      ensures Outcome(old(State()), State(), c, asked, late, bad, k)
      ensures bad.None? && NoConflict(old(overdue), asked, Parsed(c)) ==> NoneOvertaken(old(Parts()), Parts(), Parsed(c), asked)
    {
      hide NoConflict, NoneOvertaken, Parsed, Answered, Apart, DepsOf, Distinct, Elems, Known, Mine, Outcome, Parts, Supervisor.Valid, Supervisor.Views;
      PartsKeys();
      ghost var was := State();
      bad, k := Transact(asked, c, late, plans);
      AnsweredMeans(was, State(), c, asked, late, plans, bad, k);
    }

    /** What the answer means for the modules, whatever landed when. */
    ghost predicate Outcome(was: Parties, now: Parties, c: Config, ids: seq<Id>, late: set<Id>, bad: Option<Id>, k: nat) {
      && Landings(was.parts, now.parts, Owed(was) + NewlyOwed(c, late, bad), now.overdue)
      && match bad
         case None => Applied(was.parts, now.parts, Parsed(c), Elems(ids))
         case Some(b) => k < |ids| && Reverted(was.parts, now.parts, Parsed(c), Elems(ids[..k]), b, b in late)
    }

    /** The prepare that overran, if its fragment parses. */
    ghost function NewlyOwed(c: Config, late: set<Id>, bad: Option<Id>): set<Late> {
      if bad.Some? && bad.value in late && Parses(c, bad.value) then {Late(bad.value, mods[bad.value].parse(ModuleFor(c, bad.value)).value)}
      else {}
    }

    lemma NothingOvertakes(was: Parties, c: Config, ids: seq<Id>, plans: Schedule)
      requires Fits(was, ids, Parsed(c)) && AllParse(ids, Parsed(c)) && NoConflict(was.overdue, ids, Parsed(c))
      ensures NoneOvertaken(was.parts, Accepted(was, ids, Parsed(c), plans).parts, Parsed(c), ids)
    {
      hide Accepted, Applied, Landings, Overtaken, Parsed;
      AcceptedIsApplied(was, ids, Parsed(c), plans);
      var now := Accepted(was, ids, Parsed(c), plans).parts;
      forall id | id in ids
        ensures id in was.parts && id in now && id in Parsed(c) && Parsed(c)[id].Some? && !Overtaken(was.parts[id], now[id], Parsed(c)[id].value)
      {
        assert id in Elems(ids);
        NothingConflicts(was, ids, Parsed(c), plans, id);
        AppliedUnlessOvertaken(was.parts, now, Parsed(c), Elems(ids), id);
      }
    }

    lemma AnsweredMeans(was: Parties, now: Parties, c: Config, ids: seq<Id>, late: set<Id>, plans: Schedule, bad: Option<Id>, k: nat)
      requires Answered(was, now, c, ids, late, plans, bad, k) && Distinct(ids) && Known(was) && was.parts.Keys == mods.Keys
      ensures Outcome(was, now, c, ids, late, bad, k) && Known(now) && now.parts.Keys == mods.Keys
      ensures bad.None? && NoConflict(was.overdue, ids, Parsed(c)) ==> NoneOvertaken(was.parts, now.parts, Parsed(c), ids)
    {
      hide NoConflict, NoneOvertaken, Accepted, RejectedAt, Applied, Reverted, Landings, Distinct, Known;
      if bad.None? {
        AcceptedIsApplied(was, ids, Parsed(c), plans);
        if NoConflict(was.overdue, ids, Parsed(c)) { NothingOvertakes(was, c, ids, plans); }
        assert Owed(was) + {} == Owed(was);
      } else {
        RejectedIsReverted(was, ids, Parsed(c), bad.value in late, plans, k);
      }
      LandingsKnown(was.parts, now.parts, Owed(was) + NewlyOwed(c, late, bad), now.overdue);
    }

    /** Phase three leaves the participants alone. */
    method Apply(c: Config, g: Graph, now: Time) returns (toStop: seq<Id>, toStart: seq<Id>)
      requires Ready() && sup.started && NoReload(sup.model) && sup.model.env.now <= now
      requires GraphOf(Some(g), RelationOf(Candidates(c)))
      modifies sup`policy, sup`graph, sup`emitted, sup`model, sup.Repr()
      ensures Ready() && State() == old(State()) && sup.runners == old(sup.runners)
      ensures sup.model == Moved(old(sup.model), now, SysStep.ApplyReload(Fragments(c), RelationOf(Candidates(c)), c.policy))
    {
      hide Apart, Candidates, DepsOf, Fragments, GraphOf, Moved, NoReload, Parts, RelationOf, Supervisor.Repr,
        Supervisor.SameRunners, Supervisor.Valid;
      FragmentsKeys(c);
      toStop, toStart := sup.ApplyReload(Fragments(c), g, c.policy, now, RelationOf(Candidates(c)));
    }

    /** A rejected reload changes no configuration, no graph and no module's
        settings; an accepted one is committed by every module it affects, and
        applied to the supervisor.  It is accepted exactly when the supervisor can
        take it, every affected module parses its fragment, and none overruns.
        Running modules that run their configured fragments still do after a
        rejection, and after an acceptance unless a prepare given up earlier
        overtook a commit, which needs one that is still executing when the reload
        begins and conflicts with it. */
    method Reload(c: Config, valid: bool, now: Time, late: set<Id>, plans: Schedule)
      returns (r: Result<(seq<Id>, seq<Id>), ReloadError>, asked: seq<Id>, k: nat)
      requires Ready() && NoReload(sup.model) && sup.model.env.now <= now
      modifies this`overdue, sup`policy, sup`graph, sup`emitted, sup`model, sup.Repr(), Mine()
      ensures Ready()
      ensures Lists(asked, if valid && old(Acceptable(c)) then AffectedBy(old(sup.model), c) else {})
      ensures r.Success? <==> valid && old(Acceptable(c)) && forall id :: id in asked ==> id !in late && Parses(c, id)
      ensures r.Success? ==> sup.model == Moved(old(sup.model), now, SysStep.ApplyReload(Fragments(c), RelationOf(Candidates(c)), c.policy))
      ensures r.Success? ==> Outcome(old(State()), State(), c, asked, late, None, k)
      ensures r.Success? && old(InSync(sup.model, Parts())) ==>
        (InSync(sup.model, Parts()) <==> NoneOvertaken(old(Parts()), Parts(), Parsed(c), asked))
      ensures r.Success? && old(InSync(sup.model, Parts())) && NoConflict(old(overdue), asked, Parsed(c)) ==> InSync(sup.model, Parts())
      ensures r.Failure? ==> sup.model == old(sup.model) && sup.Views() == old(sup.Views())
      ensures r.Failure? && !r.error.Rejected? ==> State() == old(State())
      ensures r.Failure? && r.error.Rejected? ==> k < |asked| && asked[k] == r.error.id
      ensures r.Failure? && r.error.Rejected? ==> Outcome(old(State()), State(), c, asked, late, Some(r.error.id), k)
      ensures r.Failure? && old(InSync(sup.model, Parts())) ==> InSync(sup.model, Parts())
    {
      hide Acceptable, AffectedBy, Apart, Candidates, DepsOf, Fragments, GraphOf, InSync, Init, Known, Mine, Moved,
        NoReload, NoConflict, NoneOvertaken, Outcome, Parsed, Parses, Parts, RelationOf, Supervisor.Repr, Supervisor.SameFlags,
        Supervisor.SameRunners, Supervisor.Separate, Supervisor.Views, SysInv;
      asked, k := [], 0;
      assert Lists([], {});
      ghost var s0, was := sup.model, State();
      PartsKeys();
      var checked := Check(c, valid);
      if checked.Failure? { return Failure(checked.error), [], 0; }
      asked := Affected(c);
      AskedAreMine(c, asked);
      var bad;
      bad, k := Ask(asked, c, late, plans);
      if bad.Some? {
        if InSync(s0, was.parts) { RevertedInSync(s0, was, State(), c, asked, late, bad.value, k); }
        return Failure(Rejected(bad.value)), asked, k;
      }
      FragmentsKeys(c);
      assert sup.SameRunners(sup.model);
      var toStop, toStart := Apply(c, checked.value, now);
      if InSync(s0, was.parts) {
        AppliedInSync(c, s0, sup.model, was, State(), asked, late, k, now, RelationOf(Candidates(c)));
      }
      r := Success((toStop, toStart));
    }

    lemma PartsKeys()
      ensures Parts().Keys == mods.Keys
    {
    }

    lemma FragmentsKeys(c: Config)
      ensures Fragments(c).Keys == sup.runners.Keys
      ensures sup.SameRunners(sup.model) ==> sup.runners.Keys == sup.model.mods.Keys
    {
    }

    lemma AskedAreMine(c: Config, asked: seq<Id>)
      requires Lists(asked, AffectedBy(sup.model, c))
      ensures Distinct(asked) && Elems(asked) == AffectedBy(sup.model, c) && Elems(asked) <= mods.Keys
    {
    }

    lemma RevertedInSync(s: Sys, was: Parties, now: Parties, c: Config, ids: seq<Id>, late: set<Id>, bad: Id, k: nat)
      requires InSync(s, was.parts) && Outcome(was, now, c, ids, late, Some(bad), k)
      ensures InSync(s, now.parts)
    {
      hide Reverted, Landings, Parsed, AllAsked, Parses;
      forall id | id in was.parts && id in now.parts ensures now.parts[id].settings == was.parts[id].settings {
        RevertedKeepsSettings(was.parts, now.parts, Parsed(c), Elems(ids[..k]), bad, bad in late, id);
      }
      assert was.parts.Keys == now.parts.Keys by { LandingsKeys(was.parts, now.parts, Owed(was) + NewlyOwed(c, late, Some(bad)), now.overdue); }
    }

    /** No commit of this reload was overtaken. */
    ghost predicate NoneOvertaken(was: Parts, now: Parts, parsed: map<Id, Option<int>>, ids: seq<Id>) {
      forall id :: id in ids ==>
        id in was && id in now && id in parsed && parsed[id].Some? && !Overtaken(was[id], now[id], parsed[id].value)
    }

    lemma AppliedInSync(c: Config, s: Sys, s': Sys, was: Parties, now: Parties, ids: seq<Id>, late: set<Id>, k: nat, time: Time, rel: Relation)
      requires InSync(s, was.parts) && Outcome(was, now, c, ids, late, None, k) && was.parts.Keys == mods.Keys
      requires Lists(ids, AffectedBy(s, c))
      requires s.env.now <= time && NoReload(s) && Fragments(c).Keys == s.mods.Keys
      requires s' == Moved(s, time, SysStep.ApplyReload(Fragments(c), rel, c.policy))
      ensures InSync(s', now.parts) <==> NoneOvertaken(was.parts, now.parts, Parsed(c), ids)
    {
      hide Moved, R.Reconfigure, Overtaken, AllAsked, Landings, Applied, InSync, NoReload;
      ReloadActs(s, time, Fragments(c), rel, c.policy);
      LandingsKeys(was.parts, now.parts, Owed(was) + NewlyOwed(c, late, None), now.overdue);
      AppliedAll(was.parts, now.parts, Parsed(c), Elems(ids));
      Reconfigured(c, s, s', time);
      SyncAfter(c, s, s', was.parts, now.parts, ids);
    }

    /** The same modules run, under the candidate's configuration. */
    ghost predicate SameRunning(c: Config, s: Sys, s': Sys) {
      s'.mods.Keys == s.mods.Keys && forall id :: id in s.mods ==>
        s'.mods[id].runner.cfg == ModuleFor(c, id) && (s'.mods[id].runner.state == Running <==> s.mods[id].runner.state == Running)
    }

    lemma Reconfigured(c: Config, s: Sys, s': Sys, time: Time)
      requires s'.mods.Keys == s.mods.Keys && Fragments(c).Keys == s.mods.Keys
      requires forall id :: id in s.mods ==> s'.mods[id].runner == R.Reconfigure(s.mods[id].runner, Fragments(c)[id], time).runner
      ensures SameRunning(c, s, s')
    {
      hide R.Reconfigure;
      forall id | id in s.mods
        ensures s'.mods[id].runner.cfg == ModuleFor(c, id) && (s'.mods[id].runner.state == Running <==> s.mods[id].runner.state == Running)
      {
        RunningStays(s.mods[id].runner, Fragments(c)[id], time);
      }
    }

    lemma SyncAfter(c: Config, s: Sys, s': Sys, was: Parts, now: Parts, ids: seq<Id>)
      requires InSync(s, was) && Lists(ids, AffectedBy(s, c)) && was.Keys == now.Keys == mods.Keys
      requires s'.mods.Keys == s.mods.Keys && Fragments(c).Keys == s.mods.Keys
      requires SameRunning(c, s, s')
      requires forall id :: id in Elems(ids) ==>
        && id in now && id in Parsed(c) && Parsed(c)[id].Some?
        && (now[id].settings == Parsed(c)[id].value <==> !Overtaken(was[id], now[id], Parsed(c)[id].value))
      requires forall id :: id in was && id !in Elems(ids) ==> now[id].settings == was[id].settings
      ensures InSync(s', now) <==> NoneOvertaken(was, now, Parsed(c), ids)
    {
      hide AffectedBy, Overtaken, Parsed, ModuleFor, Lists;
      ListBegins(ids, AffectedBy(s, c));
      forall id | id in mods && id in s.mods
        ensures (s'.mods[id].runner.state == Running ==> mods[id].parse(s'.mods[id].runner.cfg) == Some(now[id].settings)) <==>
          (id in Elems(ids) ==> !Overtaken(was[id], now[id], Parsed(c)[id].value))
      {
        SyncAt(c, s, s', was, now, ids, id);
      }
      forall id | id in Elems(ids) ensures id in mods && id in s.mods { AffectedIsKnown(s, c, id); }
      assert forall id :: id in ids <==> id in Elems(ids);
    }

    lemma AffectedIsKnown(s: Sys, c: Config, id: Id)
      requires id in AffectedBy(s, c)
      ensures id in mods && id in s.mods
    {
    }

    lemma SyncAt(c: Config, s: Sys, s': Sys, was: Parts, now: Parts, ids: seq<Id>, id: Id)
      requires InSync(s, was) && Elems(ids) == AffectedBy(s, c) && was.Keys == now.Keys == mods.Keys
      requires SameRunning(c, s, s') && id in mods && id in s.mods
      requires id in Elems(ids) ==>
        && id in Parsed(c) && Parsed(c)[id].Some?
        && (now[id].settings == Parsed(c)[id].value <==> !Overtaken(was[id], now[id], Parsed(c)[id].value))
      requires id !in Elems(ids) ==> now[id].settings == was[id].settings
      ensures id in Elems(ids) ==> id in Parsed(c) && Parsed(c)[id].Some?
      ensures (s'.mods[id].runner.state == Running ==> mods[id].parse(s'.mods[id].runner.cfg) == Some(now[id].settings)) <==>
        (id in Elems(ids) ==> !Overtaken(was[id], now[id], Parsed(c)[id].value))
    {
      hide Overtaken, Elems;
    }
  }

  lemma AppliedAll(was: Parts, now: Parts, parsed: map<Id, Option<int>>, ids: set<Id>)
    requires Applied(was, now, parsed, ids) && was.Keys == now.Keys == parsed.Keys
    ensures forall id :: id in ids ==>
      && id in now && id in parsed && parsed[id].Some?
      && (now[id].settings == parsed[id].value <==> !Overtaken(was[id], now[id], parsed[id].value))
    ensures forall id :: id in was && id !in ids ==> now[id].settings == was[id].settings
  {
    hide AllAsked, Overtaken;
    forall id | id in was
      ensures id in ids ==> (now[id].settings == parsed[id].value <==> !Overtaken(was[id], now[id], parsed[id].value))
      ensures id !in ids ==> now[id].settings == was[id].settings
    {
      AppliedUnlessOvertaken(was, now, parsed, ids, id);
    }
  }

  lemma LandingsKeys(was: Parts, now: Parts, pool: set<Late>, overdue: seq<Late>)
    requires Landings(was, now, pool, overdue)
    ensures was.Keys == now.Keys
  {
  }

  lemma LandingsKnown(was: Parts, now: Parts, pool: set<Late>, overdue: seq<Late>)
    requires Landings(was, now, pool, overdue)
    ensures Known(Parties(now, overdue)) && was.Keys == now.Keys
  {
  }

  /** Reconfiguring never moves a module into or out of Running. */
  lemma RunningStays(r: R.RunnerState, cfg: R.ModuleConfig, now: Time)
    ensures R.Reconfigure(r, cfg, now).runner.cfg == cfg
    ensures R.Reconfigure(r, cfg, now).runner.state == Running <==> r.state == Running
  {
  }
}
