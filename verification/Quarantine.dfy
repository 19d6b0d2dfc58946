/** Exactly when a quarantine ends (internal/supervisor): what can be read before
    the step that ends it, and over whole runs. */
module Quarantine {
  import opened Wrappers
  import opened Lifecycle
  import opened StartOrders
  import R = Runners
  import opened Protocol
  import opened Leases
  import opened Supervision
  import opened Safety
  import opened Guarantees

  /** The step is the turn of module `id` on one of the lists of starts. */
  ghost predicate Names(s: Sys, st: SysStep, id: Id) {
    || (st == ClaimListed && s.starting != [] && s.starting[0] == id)
    || (st == ClaimDue && s.due != [] && s.due[0] == id)
    || st == ClaimReload(id)
  }

  /** Enabled, and not shut down. */
  ghost predicate Live(s: Sys, id: Id) {
    !s.env.stopped && id in s.mods && s.mods[id].runner.cfg.enabled
  }

  ghost predicate Releases(st: SysStep, id: Id) {
    st.ApplyReload? && id in st.cfgs && st.cfgs[id].enabled
  }

  ghost predicate Claims(a: Option<ModStep>) { a.Some? && a.value.Claim? }

  lemma ClaimsAreNamed(s: Sys, st: SysStep, id: Id)
    requires Enabled(s, st) && id in s.mods
    ensures Claims(ActionOn(s, st, id)) <==> Names(s, st, id)
    ensures Claims(ActionOn(s, st, id)) ==> ActionOn(s, st, id).value.depsRunning == DepsRunning(s, id)
    ensures ActionOn(s, st, id).Some? && ActionOn(s, st, id).value.Reconfigure? ==>
      st.ApplyReload? && id in st.cfgs && ActionOn(s, st, id).value.cfg == st.cfgs[id]
    ensures st.ApplyReload? ==> ActionOn(s, st, id).Some? && ActionOn(s, st, id).value.Reconfigure?
  {
    hide Next, DepsRunning;
  }

  /** Whether the environment or the configuration can go live without a reload. */
  lemma LiveStays(s: Sys, st: SysStep, id: Id)
    requires Enabled(s, st) && id in s.mods && !st.ApplyReload?
    ensures Step(s, st).env.stopped == (s.env.stopped || st.Shutdown?)
    ensures Step(s, st).env.policy == s.env.policy
  {
    hide Next, DepsRunning, Guard, Released;
  }

  lemma ConfigStays(m: Mod, env: Env, st: ModStep)
    requires Guard(m, env, st) && !st.Reconfigure?
    ensures Next(m, env, st).runner.cfg == m.runner.cfg
  {
    hide R.Fail;
    if st.FinishStart? || st.EndFailStop? { EndKeepsConfig(m, env, st); }
  }

  lemma EndKeepsConfig(m: Mod, env: Env, st: ModStep)
    requires Guard(m, env, st) && (st.FinishStart? || st.EndFailStop?)
    ensures Next(m, env, st).runner.cfg == m.runner.cfg
  {
    hide R.Fail;
    var idle := R.Outcome(m.runner.(opInFlight := false), []);
    R.FailEffects(if st.FinishStart? then idle else R.SetState(idle, Stopped), env.now, env.policy, st.delay);
  }

  lemma QuarantinedSteps(m: Mod, env: Env, st: ModStep)
    requires SlotExclusive(m) && !m.runner.opInFlight && Guard(m, env, st)
    requires m.runner.state == CrashLooping
    ensures var live := !env.stopped && m.runner.cfg.enabled;
      && (Next(m, env, st).runner.state == Starting <==> st.Claim? && live && st.depsRunning)
      && (Next(m, env, st).runner.state == Failed <==>
            (st.Claim? && live && !st.depsRunning) || (st.Reconfigure? && st.cfg.enabled))
  {
    assert forall o :: o in m.ops ==> !IsSlot(m.ops[o]);
  }

  /** One step takes a quarantined module back to Starting if and only if it is
      its turn on a list of starts, it is enabled, the supervisor is not shut
      down, and its dependencies run; and to Failed, from where it will be
      retried, if and only if all that holds but for the dependencies, or a
      reload keeps it enabled. */
  lemma LeavesQuarantine(s: Sys, st: SysStep, id: Id)
    requires SysInv(s) && Enabled(s, st) && id in s.mods && s.mods[id].runner.state == CrashLooping
    ensures id in Step(s, st).mods
    ensures Step(s, st).mods[id].runner.state == Starting <==> Names(s, st, id) && Live(s, id) && DepsRunning(s, id)
    ensures Step(s, st).mods[id].runner.state == Failed <==>
      (Names(s, st, id) && Live(s, id) && !DepsRunning(s, id)) || Releases(st, id)
  {
    InvAt(s, id);
    assert !s.mods[id].runner.opInFlight;
    ActionOnIs(s, st, id);
    ClaimsAreNamed(s, st, id);
    hide SysInv, Step, Enabled, Guard, Next, ActionOn, Names, DepsRunning, SlotExclusive, ModInv, InFlightInv;
    var a := ActionOn(s, st, id);
    if a.Some? { QuarantinedSteps(s.mods[id], s.env, a.value); }
  }

  /** In particular a list of starts drawn up before the quarantine, when the
      module's turn on it comes, starts it without a reload. */
  lemma StaleClaimEscapes(s: Sys, id: Id, st: SysStep)
    requires SysInv(s) && id in s.mods && s.mods[id].runner.state == CrashLooping
    requires Live(s, id) && DepsRunning(s, id)
    requires Names(s, st, id) && (st == ClaimReload(id) ==> s.mods[id].tag == MayStart)
    ensures Enabled(s, st) && id in Step(s, st).mods && Step(s, st).mods[id].runner.state == Starting
  {
    hide SysInv, DepsRunning, Step;
    LeavesQuarantine(s, st, id);
  }

  // ---- over runs without a reload ----

  /** Quarantined, or out of service for good until a reload. */
  ghost predicate Out(s: Sys, id: Id) {
    && id in s.mods && !s.mods[id].runner.opInFlight
    && (s.mods[id].runner.state == CrashLooping || (s.mods[id].runner.state in {Stopped, Disabled} && !Live(s, id)))
  }

  /** The module starts, or waits to be retried, somewhere along the run. */
  ghost predicate ComesBack(s: Sys, steps: seq<SysStep>, id: Id)
    requires Runs(s, steps)
    decreases steps
  {
    || (id in s.mods && s.mods[id].runner.state in {Starting, Failed})
    || (steps != [] && ComesBack(Step(s, steps[0]), steps[1..], id))
  }

  /** Its turn on a list of starts comes while it is enabled and before shutdown. */
  ghost predicate ClaimedLive(s: Sys, steps: seq<SysStep>, id: Id)
    requires Runs(s, steps)
    decreases steps
  {
    steps != [] && ((Names(s, steps[0], id) && Live(s, id)) || ClaimedLive(Step(s, steps[0]), steps[1..], id))
  }

  lemma OutSteps(m: Mod, env: Env, st: ModStep)
    requires InFlightInv(m, env.stopped) && Guard(m, env, st) && !m.runner.opInFlight && !st.Reconfigure?
    requires m.runner.state in {CrashLooping, Stopped, Disabled}
    requires var live := !env.stopped && m.runner.cfg.enabled;
      && (st.Claim? ==> !live) && (live ==> m.runner.state == CrashLooping)
    ensures var m', live := Next(m, env, st), !env.stopped && m.runner.cfg.enabled;
      && !m'.runner.opInFlight && m'.runner.state in {CrashLooping, Stopped, Disabled}
      && (live ==> m'.runner.state == CrashLooping)
  {
    assert forall o :: o in m.ops ==> !IsSlot(m.ops[o]);
  }

  lemma OutStays(s: Sys, st: SysStep, id: Id)
    requires SysInv(s) && Enabled(s, st) && Out(s, id) && !st.ApplyReload? && !(Names(s, st, id) && Live(s, id))
    ensures Out(Step(s, st), id)
  {
    InvAt(s, id);
    ActionOnIs(s, st, id);
    ClaimsAreNamed(s, st, id);
    LiveStays(s, st, id);
    hide SysInv, Step, Enabled, Guard, Next, ActionOn, Names, DepsRunning, SlotExclusive, ModInv, InFlightInv;
    var a := ActionOn(s, st, id);
    if a.Some? {
      OutSteps(s.mods[id], s.env, a.value);
      ConfigStays(s.mods[id], s.env, a.value);
    }
  }

  /** In a run without a reload, a quarantined module comes back if and only if
      its turn on some list of starts comes while it is enabled and the
      supervisor is not shut down. */
  lemma {:induction false} QuarantineEndsByClaim(s: Sys, steps: seq<SysStep>, id: Id)
    requires SysInv(s) && Runs(s, steps) && Out(s, id)
    requires forall i :: 0 <= i < |steps| ==> !steps[i].ApplyReload?
    ensures ComesBack(s, steps, id) <==> ClaimedLive(s, steps, id)
    decreases steps
  {
    hide SysInv, Enabled, Step, Out, Names, Live;
    OutIsNotBack(s, id);
    if steps != [] {
      if Names(s, steps[0], id) && Live(s, id) {
        ClaimBringsBack(s, steps[0], id);
        assert ComesBack(Step(s, steps[0]), steps[1..], id);
      } else {
        OutStays(s, steps[0], id);
        StepInv(s, steps[0]);
        QuarantineEndsByClaim(Step(s, steps[0]), steps[1..], id);
      }
    }
  }

  lemma OutIsNotBack(s: Sys, id: Id)
    requires Out(s, id)
    ensures id in s.mods && s.mods[id].runner.state !in {Starting, Failed}
  {
  }

  lemma ClaimBringsBack(s: Sys, st: SysStep, id: Id)
    requires SysInv(s) && Enabled(s, st) && Out(s, id) && Names(s, st, id) && Live(s, id)
    ensures id in Step(s, st).mods && Step(s, st).mods[id].runner.state in {Starting, Failed}
  {
    hide SysInv, Enabled, Step, Names;
    LeavesQuarantine(s, st, id);
  }

  // ---- whether a quarantine can end ----

  /** Every name on a list is a module. */
  ghost predicate ListsKnown(s: Sys) {
    (forall id :: id in s.due ==> id in s.mods) && (forall id :: id in s.starting ==> id in s.mods)
  }

  lemma StepKnows(s: Sys, st: SysStep)
    requires ListsKnown(s) && Enabled(s, st)
    ensures ListsKnown(Step(s, st))
  {
    hide Next, DepsRunning, Guard, Released, NoReload, IsLocal, R.MayStopForDependency, R.Due;
  }

  /** So it is after any run from start-up. */
  lemma {:induction false} RunsKnowTheirLists(s: Sys, steps: seq<SysStep>)
    requires ListsKnown(s) && Runs(s, steps)
    ensures ListsKnown(Exec(s, steps))
    decreases steps
  {
    if steps != [] {
      StepKnows(s, steps[0]);
      hide ListsKnown, Enabled, Step;
      RunsKnowTheirLists(Step(s, steps[0]), steps[1..]);
    }
  }

  lemma InitKnows(s: Sys)
    requires Init(s)
    ensures ListsKnown(s)
  {
  }

  /** Some list of starts names the module, or a reload is to start it. */
  ghost predicate Listed(s: Sys, id: Id) {
    id in s.due || id in s.starting || (id in s.mods && s.mods[id].tag in {MustStart, MayStart})
  }

  ghost predicate WithoutReload(steps: seq<SysStep>) {
    forall i :: 0 <= i < |steps| ==> !steps[i].ApplyReload?
  }

  lemma ClaimNext(s: Sys, st: SysStep, id: Id)
    requires ListsKnown(s) && Live(s, id)
    requires (st == ClaimDue && s.due != []) || (st == ClaimListed && s.starting != [])
    ensures Enabled(s, st) && ListsKnown(Step(s, st)) && Live(Step(s, st), id)
    ensures st == ClaimDue ==> Step(s, st).due == s.due[1..]
    ensures st == ClaimListed ==> Step(s, st).starting == s.starting[1..]
  {
    var head := if st == ClaimDue then s.due[0] else s.starting[0];
    ConfigStays(s.mods[head], s.env, Claim(DepsRunning(s, head), false));
    hide Next, DepsRunning, R.MayClaim, Released;
  }

  /** Work a list of starts off up to the module's turn. */
  lemma {:induction false} TurnComes(s: Sys, id: Id, st: SysStep, k: nat) returns (steps: seq<SysStep>)
    requires ListsKnown(s) && Live(s, id)
    requires (st == ClaimDue && k < |s.due| && s.due[k] == id) || (st == ClaimListed && k < |s.starting| && s.starting[k] == id)
    ensures Runs(s, steps) && WithoutReload(steps) && ClaimedLive(s, steps, id)
    decreases k
  {
    ClaimNext(s, st, id);
    hide Enabled, Step, Live, ListsKnown;
    var rest: seq<SysStep> := [];
    if k > 0 { rest := TurnComes(Step(s, st), id, st, k - 1); }
    steps := [st] + rest;
    assert steps[1..] == rest;
  }

  lemma MayStartComes(s: Sys, id: Id) returns (steps: seq<SysStep>)
    requires Live(s, id) && s.mods[id].tag == MayStart
    ensures Runs(s, steps) && WithoutReload(steps) && ClaimedLive(s, steps, id)
  {
    steps := [ClaimReload(id)];
    hide DepsRunning, Step;
    assert Enabled(s, steps[0]) && Runs(Step(s, steps[0]), steps[1..]);
  }

  lemma {:induction false} NotLiveNotClaimed(s: Sys, steps: seq<SysStep>, id: Id)
    requires SysInv(s) && Runs(s, steps) && id in s.mods && !Live(s, id) && WithoutReload(steps)
    ensures !ClaimedLive(s, steps, id)
    decreases steps
  {
    if steps != [] {
      ActionOnIs(s, steps[0], id);
      ClaimsAreNamed(s, steps[0], id);
      LiveStays(s, steps[0], id);
      var a := ActionOn(s, steps[0], id);
      if a.Some? { ConfigStays(s.mods[id], s.env, a.value); }
      StepInv(s, steps[0]);
      hide SysInv, Enabled, Step, Names, ActionOn, Guard, Next;
      NotLiveNotClaimed(Step(s, steps[0]), steps[1..], id);
    }
  }

  lemma {:induction false} BenchedNotClaimed(s: Sys, steps: seq<SysStep>, id: Id)
    requires SysInv(s) && Runs(s, steps) && Benched(s, id) && WithoutReload(steps)
    ensures !ClaimedLive(s, steps, id)
    decreases steps
  {
    if steps != [] {
      NotClaimed(s, steps[0], id);
      ClaimsAreNamed(s, steps[0], id);
      BenchedStep(s, steps[0], id);
      StepInv(s, steps[0]);
      hide SysInv, Enabled, Step, Names, ActionOn, Benched;
      BenchedNotClaimed(Step(s, steps[0]), steps[1..], id);
    }
  }

  // ---- what a reload still owes can always be finished ----

  /** A module a reload is stopping has that stop in flight. */
  ghost predicate StopInFlight(m: Mod) {
    m.tag == BeingStopped ==> exists o :: o in m.ops && ReloadStop(m.ops[o]) && m.ops[o].phase != Pending
  }

  ghost predicate StopsInFlight(s: Sys) {
    forall id :: id in s.mods ==> StopInFlight(s.mods[id])
  }

  lemma NextStops(m: Mod, env: Env, st: ModStep)
    requires InFlightInv(m, env.stopped) && Guard(m, env, st) && StopInFlight(m)
    ensures StopInFlight(Next(m, env, st))
  {
    hide SlotExclusive, StartsAreCurrent, StopsSeeStopping, StopModuleExcludesClaims, Guard, Next;
    if Next(m, env, st).tag == BeingStopped {
      TagKept(m, env, st);
      if m.tag == BeingStopped { StopStays(m, env, st, ReloadStopOf(m)); } else { StopBegins(m, env); }
    }
  }

  lemma StopBegins(m: Mod, env: Env)
    requires Guard(m, env, StopModule(true)) && Active(m.runner.state)
    ensures StopInFlight(Next(m, env, StopModule(true)))
  {
    var o := m.nextOp;
    assert o in Next(m, env, StopModule(true)).ops && ReloadStop(Next(m, env, StopModule(true)).ops[o]);
  }

  lemma StopStays(m: Mod, env: Env, st: ModStep, w: OpId)
    requires OpsAreNumbered(m) && Guard(m, env, st) && w in m.ops && ReloadStop(m.ops[w]) && m.ops[w].phase != Pending
    requires st.EndModStop? ==> !m.ops[st.o].byReload
    ensures StopInFlight(Next(m, env, st))
  {
    hide R.Fail;
    assert w in Next(m, env, st).ops && ReloadStop(Next(m, env, st).ops[w]) && Next(m, env, st).ops[w].phase != Pending;
  }

  ghost function ReloadStopOf(m: Mod): (o: OpId)
    requires StopInFlight(m) && m.tag == BeingStopped
    ensures o in m.ops && ReloadStop(m.ops[o]) && m.ops[o].phase != Pending
  {
    var o :| o in m.ops && ReloadStop(m.ops[o]) && m.ops[o].phase != Pending; o
  }

  /** Only a reload's own stop begins and ends this. */
  lemma TagKept(m: Mod, env: Env, st: ModStep)
    requires Guard(m, env, st) && Next(m, env, st).tag == BeingStopped
    ensures st.EndModStop? ==> st.o in m.ops && m.ops[st.o].ModStop?
    ensures m.tag == BeingStopped || (st == StopModule(true) && Active(m.runner.state))
    ensures st.EndModStop? ==> !m.ops[st.o].byReload
  {
    hide R.Fail;
  }

  lemma KeysStay(s: Sys, st: SysStep)
    requires Enabled(s, st)
    ensures Step(s, st).mods.Keys == s.mods.Keys
  {
    hide Next, DepsRunning, Guard, Released, R.MayStopForDependency;
  }

  lemma StepStops(s: Sys, st: SysStep)
    requires SysInv(s) && Enabled(s, st) && StopsInFlight(s)
    ensures StopsInFlight(Step(s, st))
  {
    hide SysInv, Enabled, Step, Guard, Next, ActionOn, InFlightInv, ModInv, SlotExclusive, StopInFlight;
    KeysStay(s, st);
    forall id | id in s.mods ensures StopInFlight(Step(s, st).mods[id]) {
      InvAt(s, id);
      ActionOnIs(s, st, id);
      var a := ActionOn(s, st, id);
      if a.Some? { NextStops(s.mods[id], s.env, a.value); }
    }
  }

  lemma {:induction false} RunsStop(s: Sys, steps: seq<SysStep>)
    requires SysInv(s) && StopsInFlight(s) && Runs(s, steps)
    ensures StopsInFlight(Exec(s, steps))
    decreases steps
  {
    if steps != [] {
      StepStops(s, steps[0]);
      StepInv(s, steps[0]);
      hide StopsInFlight, SysInv, Enabled, Step;
      RunsStop(Step(s, steps[0]), steps[1..]);
    }
  }

  /** What every reachable state keeps, besides the protocol's invariant. */
  ghost predicate Orderly(s: Sys) {
    SysInv(s) && ListsKnown(s) && StopsInFlight(s)
  }

  lemma ReachedIsOrderly(s0: Sys, run: seq<SysStep>)
    requires Init(s0) && Runs(s0, run)
    ensures Orderly(Exec(s0, run))
  {
    hide SysInv, Runs, Exec, ListsKnown;
    InitInv(s0);
    RunInv(s0, run);
    InitKnows(s0);
    RunsKnowTheirLists(s0, run);
    RunsStop(s0, run);
  }

  /** Whether the reload has still to finish with a module before it opens its starts. */
  ghost function Unfinished(s: Sys): set<Id> {
    set j | j in s.mods && s.mods[j].tag !in {Untouched, MustStart}
  }

  /** A reload is to start the module, which is enabled and not shut down. */
  ghost predicate ToOpen(s: Sys, id: Id) {
    Orderly(s) && Live(s, id) && s.mods[id].tag == MustStart
  }

  lemma OthersStep(s: Sys, st: SysStep, j: Id, id: Id)
    requires ToOpen(s, id) && j in s.mods && j != id && Enabled(s, st)
    requires st == ClaimReload(j) || (st.Local? && st.id == j)
    ensures ToOpen(Step(s, st), id)
    ensures Step(s, st).mods.Keys == s.mods.Keys
    ensures forall i :: i in s.mods && i != j ==> Step(s, st).mods[i] == s.mods[i]
  {
    hide SysInv, Enabled, Step, Next, Guard, ListsKnown, StopsInFlight, DepsRunning;
    StepInv(s, st);
    StepKnows(s, st);
    StepStops(s, st);
    KeysStay(s, st);
    LiveStays(s, st, id);
    forall i | i in s.mods && i != j ensures Step(s, st).mods[i] == s.mods[i] { ActionOnIs(s, st, i); }
  }

  lemma StepsOn(s: Sys, st: SysStep, rest: seq<SysStep>, id: Id)
    requires Enabled(s, st) && !st.ApplyReload? && Runs(Step(s, st), rest) && WithoutReload(rest)
    requires ClaimedLive(Step(s, st), rest, id)
    ensures Runs(s, [st] + rest) && WithoutReload([st] + rest) && ClaimedLive(s, [st] + rest, id)
  {
    hide Enabled, Step, Names, Live;
    assert ([st] + rest)[1..] == rest;
  }

  /** Nothing else is unfinished: the reload opens its starts, and claims the module. */
  lemma StartsOpen(s: Sys, id: Id) returns (steps: seq<SysStep>)
    requires ToOpen(s, id) && Unfinished(s) == {}
    ensures Runs(s, steps) && WithoutReload(steps) && ClaimedLive(s, steps, id)
  {
    assert forall j :: j in s.mods ==> j !in Unfinished(s);
    assert Enabled(s, OpenStarts);
    OpenedLives(s, id);
    hide Enabled, Step, Orderly;
    var rest := MayStartComes(Step(s, OpenStarts), id);
    StepsOn(s, OpenStarts, rest, id);
    steps := [OpenStarts] + rest;
  }

  lemma OpenedLives(s: Sys, id: Id)
    requires Live(s, id) && s.mods[id].tag == MustStart && Enabled(s, OpenStarts)
    ensures Live(Step(s, OpenStarts), id) && Step(s, OpenStarts).mods[id].tag == MayStart
  {
  }

  lemma OneMore(s: Sys, st: SysStep, j: Id)
    requires Enabled(s, st) && j in s.mods && (st == ClaimReload(j) || (st.Local? && st.id == j))
    ensures j in Step(s, st).mods
    ensures st == ClaimReload(j) ==> Step(s, st).mods[j].tag == Untouched
    ensures st.Local? ==> Guard(s.mods[j], s.env, st.st) && Step(s, st).mods[j] == Next(s.mods[j], s.env, st.st)
  {
    ActionOnIs(s, st, j);
    hide Enabled, Step, DepsRunning;
    if st.ClaimReload? { assert ActionOn(s, st, j) == Some(Claim(DepsRunning(s, j), true)); }
  }

  lemma MayStep(s: Sys, st: SysStep, j: Id)
    requires j in s.mods
    requires (st == ClaimReload(j) && s.mods[j].tag == MayStart) || (st.Local? && st.id == j && IsLocal(st.st) && !st.st.CallStop? && Guard(s.mods[j], s.env, st.st))
    ensures Enabled(s, st)
  {
  }

  function Rank(tag: Tag): nat {
    match tag case MustStop => 3 case BeingStopped => 2 case MustDisable => 1 case MayStart => 1 case _ => 0
  }

  lemma UnfinishedAfter(s: Sys, s': Sys, j: Id)
    requires s'.mods.Keys == s.mods.Keys && j in Unfinished(s)
    requires forall i :: i in s.mods && i != j ==> s'.mods[i] == s.mods[i]
    ensures Unfinished(s') == if s'.mods[j].tag in {Untouched, MustStart} then Unfinished(s) - {j} else Unfinished(s)
  {
  }

  /** Finish with every module the reload still owes something, then open its starts. */
  lemma {:induction false} AllFinish(s: Sys, id: Id) returns (steps: seq<SysStep>)
    requires ToOpen(s, id)
    ensures Runs(s, steps) && WithoutReload(steps) && ClaimedLive(s, steps, id)
    decreases Unfinished(s), 4, 0
  {
    if Unfinished(s) == {} {
      steps := StartsOpen(s, id);
    } else {
      var j :| j in Unfinished(s);
      steps := Finish(s, j, id);
    }
  }

  /** Take a step that brings module `j` nearer to being finished, and go on. */
  lemma {:induction false} FinishBy(s: Sys, st: SysStep, j: Id, id: Id) returns (steps: seq<SysStep>)
    requires ToOpen(s, id) && j in Unfinished(s) && Enabled(s, st)
    requires st == ClaimReload(j) || (st.Local? && st.id == j)
    requires j in Step(s, st).mods && Rank(Step(s, st).mods[j].tag) < Rank(s.mods[j].tag)
    ensures Runs(s, steps) && WithoutReload(steps) && ClaimedLive(s, steps, id)
    decreases Unfinished(s), Rank(s.mods[j].tag), 0
  {
    assert j != id;
    hide Enabled, Step, Orderly, Live;
    var s' := Step(s, st);
    OthersStep(s, st, j, id);
    UnfinishedAfter(s, s', j);
    var rest: seq<SysStep>;
    if j in Unfinished(s') { rest := Finish(s', j, id); } else { rest := AllFinish(s', id); }
    StepsOn(s, st, rest, id);
    steps := [st] + rest;
  }

  lemma {:induction false} Finish(s: Sys, j: Id, id: Id) returns (steps: seq<SysStep>)
    requires ToOpen(s, id) && j in Unfinished(s)
    ensures Runs(s, steps) && WithoutReload(steps) && ClaimedLive(s, steps, id)
    decreases Unfinished(s), Rank(s.mods[j].tag), 3
  {
    hide Orderly, Live, Guard, Next, Enabled, Step, StopInFlight;
    var m := s.mods[j];
    TagsMove(m, s.env);
    if m.tag == BeingStopped {
      steps := FinishStop(s, j, id);
    } else {
      var st := if m.tag == MustStop then Local(j, StopModule(true)) else if m.tag == MustDisable then Local(j, DisableModule) else ClaimReload(j);
      MayStep(s, st, j);
      OneMore(s, st, j);
      steps := FinishBy(s, st, j, id);
    }
  }

  lemma TagsMove(m: Mod, env: Env)
    ensures m.tag == MustStop ==> Guard(m, env, StopModule(true)) && Next(m, env, StopModule(true)).tag in {BeingStopped, MustDisable}
    ensures m.tag == MustDisable ==> Guard(m, env, DisableModule) && Next(m, env, DisableModule).tag == Untouched
  {
  }

  lemma StopEnds(m: Mod, env: Env, w: OpId)
    requires w in m.ops && ReloadStop(m.ops[w]) && m.ops[w].phase in {Overdue, Returned}
    ensures Guard(m, env, EndModStop(w)) && Next(m, env, EndModStop(w)).tag == MustDisable
  {
  }

  lemma StopReturnsInTime(m: Mod, env: Env, w: OpId)
    requires w in m.ops && ReloadStop(m.ops[w]) && m.ops[w].phase == InCall
    ensures Guard(m, env, StopReturns(w, true))
    ensures var m' := Next(m, env, StopReturns(w, true));
      m'.tag == m.tag && w in m'.ops && ReloadStop(m'.ops[w]) && m'.ops[w].phase == Returned
  {
  }

  /** The module's own stop returns, if it has not, and ends. */
  lemma {:induction false} FinishStop(s: Sys, j: Id, id: Id) returns (steps: seq<SysStep>)
    requires ToOpen(s, id) && j in Unfinished(s) && s.mods[j].tag == BeingStopped
    ensures Runs(s, steps) && WithoutReload(steps) && ClaimedLive(s, steps, id)
    decreases Unfinished(s), Rank(s.mods[j].tag), 2
  {
    hide Live, Guard, Next, Enabled, Step, SysInv, ListsKnown;
    var w := ReloadStopOf(s.mods[j]);
    if s.mods[j].ops[w].phase == InCall {
      var st := Local(j, StopReturns(w, true));
      StopReturnsInTime(s.mods[j], s.env, w);
      MayStep(s, st, j);
      OneMore(s, st, j);
      OthersStep(s, st, j, id);
      UnfinishedAfter(s, Step(s, st), j);
      var rest := EndStop(Step(s, st), j, id, w);
      StepsOn(s, st, rest, id);
      steps := [st] + rest;
    } else {
      steps := EndStop(s, j, id, w);
    }
  }

  lemma {:induction false} EndStop(s: Sys, j: Id, id: Id, w: OpId) returns (steps: seq<SysStep>)
    requires ToOpen(s, id) && j in Unfinished(s) && s.mods[j].tag == BeingStopped
    requires w in s.mods[j].ops && ReloadStop(s.mods[j].ops[w]) && s.mods[j].ops[w].phase in {Overdue, Returned}
    ensures Runs(s, steps) && WithoutReload(steps) && ClaimedLive(s, steps, id)
    decreases Unfinished(s), Rank(s.mods[j].tag), 1
  {
    hide Live, Guard, Next, Enabled, Step, Orderly;
    var st := Local(j, EndModStop(w));
    StopEnds(s.mods[j], s.env, w);
    MayStep(s, st, j);
    OneMore(s, st, j);
    steps := FinishBy(s, st, j, id);
  }

  // ---- the exact condition ----

  /** A quarantined module can come back without another reload if and only if it
      is enabled, the supervisor is not shut down, and a list of starts names it or
      a reload is to start it. */
  lemma QuarantineCanEnd(s: Sys, id: Id)
    requires Orderly(s) && id in s.mods && s.mods[id].runner.state == CrashLooping
    ensures (exists steps :: Runs(s, steps) && WithoutReload(steps) && ComesBack(s, steps, id)) <==> Live(s, id) && Listed(s, id)
  {
    InvAt(s, id);
    assert Out(s, id);
    if Live(s, id) && Listed(s, id) {
      var steps := SomeClaim(s, id);
      QuarantineEndsByClaim(s, steps, id);
    } else {
      forall steps | Runs(s, steps) && WithoutReload(steps) ensures !ComesBack(s, steps, id) {
        QuarantineEndsByClaim(s, steps, id);
        if Live(s, id) { BenchedNotClaimed(s, steps, id); } else { NotLiveNotClaimed(s, steps, id); }
      }
    }
  }

  lemma SomeClaim(s: Sys, id: Id) returns (steps: seq<SysStep>)
    requires Orderly(s) && Live(s, id) && Listed(s, id)
    ensures Runs(s, steps) && WithoutReload(steps) && ClaimedLive(s, steps, id)
  {
    hide SysInv, StopsInFlight, Runs, ClaimedLive, WithoutReload;
    if id in s.due {
      var k: nat :| k < |s.due| && s.due[k] == id;
      steps := TurnComes(s, id, ClaimDue, k);
    } else if id in s.starting {
      var k: nat :| k < |s.starting| && s.starting[k] == id;
      steps := TurnComes(s, id, ClaimListed, k);
    } else if s.mods[id].tag == MayStart {
      steps := MayStartComes(s, id);
    } else {
      steps := AllFinish(s, id);
    }
  }

  /** The same of every state the supervisor reaches. */
  lemma ReachedQuarantineCanEnd(s0: Sys, run: seq<SysStep>, id: Id)
    requires Init(s0) && Runs(s0, run) && id in Exec(s0, run).mods
    requires Exec(s0, run).mods[id].runner.state == CrashLooping
    ensures var s := Exec(s0, run);
      (exists steps :: Runs(s, steps) && WithoutReload(steps) && ComesBack(s, steps, id)) <==> Live(s, id) && Listed(s, id)
  {
    hide *;
    ReachedIsOrderly(s0, run);
    QuarantineCanEnd(Exec(s0, run), id);
  }
}
