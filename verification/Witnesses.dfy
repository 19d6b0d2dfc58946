/** Runs that make each of the four state changes the transition table does not
    list, and the run that starts a quarantined module without a reload. */
module Witnesses {
  import opened Wrappers
  import opened Lifecycle
  import opened RestartWindow
  import opened StartOrders
  import R = Runners
  import opened Protocol
  import opened Supervision

  lemma {:induction false} Extend(s: Sys, steps: seq<SysStep>, st: SysStep)
    requires Runs(s, steps) && Enabled(Exec(s, steps), st)
    ensures Runs(s, steps + [st]) && Exec(s, steps + [st]) == Step(Exec(s, steps), st)
    decreases steps
  {
    if steps == [] {
      assert Runs(Step(s, st), []);
    } else {
      Extend(Step(s, steps[0]), steps[1..], st);
      assert (steps + [st])[1..] == steps[1..] + [st];
    }
  }

  const Wanted: R.ModuleConfig := R.ModuleConfig(true, false, 0)
  const Unwanted: R.ModuleConfig := R.ModuleConfig(false, false, 0)

  /** Restarts are on: one failure in 100 units is forgiven, and the first wait is 10. */
  function At(now: Time): Env { Env(false, now, R.Policy(true, 10)) }

  /** A registered, enabled module. */
  function Fresh(): Mod {
    Mod(R.RunnerState(Wanted, Registered, None, 1, 100, [], 0, false, None, false, 0), map[], 0, Untouched, [], [])
  }

  /** One module, first in the start list. */
  function Alone(): Sys {
    Sys(map[0 := Fresh()], map[0 := {}], At(0), 0, [], [], [0], map[])
  }

  /** Module 1 depends on module 0; both are to be started. */
  function Pair(): Sys {
    Sys(map[0 := Fresh(), 1 := Fresh()], map[0 := {}, 1 := {0}], At(0), 0, [], [], [0, 1], map[])
  }

  lemma BothAreInitial()
    ensures Init(Alone()) && Init(Pair())
  {
  }

  /** Some run from start-up makes this change in module `id`. */
  ghost predicate Makes(s: Sys, steps: seq<SysStep>, id: Id, from: State, to: State) {
    && Init(s) && Runs(s, steps) && id in Exec(s, steps).mods
    && R.Move(from, to) in Exec(s, steps).mods[id].moves
  }

  ghost predicate Reached(s: Sys, steps: seq<SysStep>, t: Sys) {
    Runs(s, steps) && Exec(s, steps) == t
  }

  /** One more step of a run. */
  lemma Go(s: Sys, steps: seq<SysStep>, t: Sys, st: SysStep) returns (more: seq<SysStep>, u: Sys)
    requires Reached(s, steps, t) && Enabled(t, st)
    ensures Reached(s, more, u) && u == Step(t, st) && more == steps + [st]
  {
    Extend(s, steps, st);
    more, u := steps + [st], Step(t, st);
  }

  /** The next module of the start list is claimed. */
  lemma GoListed(s: Sys, steps: seq<SysStep>, t: Sys, id: Id, deps: bool) returns (more: seq<SysStep>, u: Sys)
    requires Reached(s, steps, t) && t.starting != [] && t.starting[0] == id && id in t.mods && deps == DepsRunning(t, id)
    ensures Reached(s, more, u) && more == steps + [ClaimListed]
    ensures u == t.(mods := t.mods[id := ClaimStep(t.mods[id], t.env, deps, false)], starting := t.starting[1..])
  {
    assert Enabled(t, ClaimListed);
    more, u := Go(s, steps, t, ClaimListed);
    hide ClaimStep, DepsRunning, Reached;
    assert t.released + [] == t.released;
  }

  /** A module enabled by a reload is claimed. */
  lemma GoReloaded(s: Sys, steps: seq<SysStep>, t: Sys, id: Id) returns (more: seq<SysStep>, u: Sys)
    requires Reached(s, steps, t) && id in t.mods && t.mods[id].tag == MayStart && DepsRunning(t, id)
    ensures Reached(s, more, u)
    ensures u == t.(mods := t.mods[id := ClaimStep(t.mods[id], t.env, true, true)])
  {
    hide ClaimStep, DepsRunning, Reached;
    assert Enabled(t, ClaimReload(id));
    more, u := Go(s, steps, t, ClaimReload(id));
    assert t.released + [] == t.released;
  }

  /** One module's own step; nothing else moves but the leases it releases. */
  lemma GoLocal(s: Sys, steps: seq<SysStep>, t: Sys, id: Id, l: ModStep) returns (more: seq<SysStep>, u: Sys)
    requires Reached(s, steps, t) && id in t.mods && Guard(t.mods[id], t.env, l) && IsLocal(l)
    requires l.CallStop? ==> (id, l.o) in t.plans && t.plans[(id, l.o)] == Plan([], None)
    ensures Reached(s, more, u)
    ensures u == t.(mods := t.mods[id := Next(t.mods[id], t.env, l)], released := u.released)
  {
    hide Next, Guard, Reached;
    assert Enabled(t, Local(id, l));
    more, u := Go(s, steps, t, Local(id, l));
    hide Enabled;
  }

  /** A start is admitted or refused. */
  lemma GoAdmit(s: Sys, steps: seq<SysStep>, t: Sys, id: Id, o: OpId, ok: bool, v: R.Verdict) returns (more: seq<SysStep>, u: Sys)
    requires Reached(s, steps, t) && id in t.mods
    requires Guard(t.mods[id], t.env, Admit(o, if ok then Some(t.granted) else None, v))
    ensures Reached(s, more, u)
    ensures u == t.(mods := t.mods[id := Next(t.mods[id], t.env, Admit(o, if ok then Some(t.granted) else None, v))], granted := u.granted)
  {
    hide Next, Guard, Reached;
    assert Enabled(t, AdmitStart(id, o, ok, v));
    more, u := Go(s, steps, t, AdmitStart(id, o, ok, v));
    hide Enabled;
    assert t.released + [] == t.released;
  }

  /** A module nobody depends on reports a failure. */
  lemma GoReport(s: Sys, steps: seq<SysStep>, t: Sys, id: Id, gen: nat) returns (more: seq<SysStep>, u: Sys)
    requires Reached(s, steps, t) && id in t.mods && Guard(t.mods[id], t.env, Report(gen)) && t.rel == map[id := {}]
    ensures Reached(s, more, u)
    ensures u == t.(mods := t.mods[id := Next(t.mods[id], t.env, Report(gen))],
                    plans := t.plans[(id, t.mods[id].nextOp) := Plan([], None)])
  {
    NobodyDepends(t.rel, id);
    hide Next, Guard, Reached, DependsOn;
    assert Enabled(t, ReportFailure(id, gen, []));
    more, u := Go(s, steps, t, ReportFailure(id, gen, []));
    hide Enabled;
    assert t.released + [] == t.released;
  }

  lemma NobodyDepends(rel: Relation, id: Id)
    requires rel == map[id := {}]
    ensures forall x :: !DependsOn(rel, x, id)
  {
    forall x, via: seq<Id> ensures !DependsVia(rel, x, id, via) {
      if |via| >= 2 { assert via[0] == id ==> via[0] !in DepsOf(rel, via[1]); }
    }
  }

  /** Time passes. */
  lemma GoTick(s: Sys, steps: seq<SysStep>, t: Sys, d: nat) returns (more: seq<SysStep>, u: Sys)
    requires Reached(s, steps, t)
    ensures Reached(s, more, u) && u == t.(env := t.env.(now := t.env.now + d))
  {
    hide Reached;
    more, u := Go(s, steps, t, Tick(d));
  }

  /** The control loop lists the one restart that has come due. */
  lemma GoCollect(s: Sys, steps: seq<SysStep>, t: Sys, id: Id) returns (more: seq<SysStep>, u: Sys)
    requires Reached(s, steps, t) && t.due == [] && !t.env.stopped
    requires forall j :: j == id <==> j in t.mods && R.Due(t.mods[j].runner, t.env.now)
    ensures Reached(s, more, u) && u == t.(due := [id])
  {
    hide Reached, R.Due;
    assert Enabled(t, CollectDue([id]));
    more, u := Go(s, steps, t, CollectDue([id]));
  }

  /** The next module of the due list is claimed. */
  lemma GoDue(s: Sys, steps: seq<SysStep>, t: Sys, id: Id, deps: bool) returns (more: seq<SysStep>, u: Sys)
    requires Reached(s, steps, t) && t.due != [] && t.due[0] == id && id in t.mods && deps == DepsRunning(t, id)
    ensures Reached(s, more, u) && more == steps + [ClaimDue]
    ensures u == t.(mods := t.mods[id := ClaimStep(t.mods[id], t.env, deps, false)], due := t.due[1..])
  {
    assert Enabled(t, ClaimDue);
    more, u := Go(s, steps, t, ClaimDue);
    hide ClaimStep, DepsRunning, Reached;
    assert t.released + [] == t.released;
  }

  // ---- the module states along the runs ----

  /** Claimed, and its start not admitted yet. */
  function Claimed(m: Mod): Mod {
    m.(runner := m.runner.(state := Starting, generation := m.runner.generation + 1, opInFlight := true, blockedOnDeps := false, retryAt := None),
       ops := m.ops[m.nextOp := Start(m.runner.generation + 1, Admitting, None)], nextOp := m.nextOp + 1,
       tag := Untouched, moves := m.moves + [R.Move(m.runner.state, Starting)])
  }

  /** Nothing is in flight, and a start may be claimed. */
  predicate Startable(m: Mod) {
    && R.MayClaim(m.runner, false) && m.runner.state != Starting && m.ops == map[] && m.runner.lease == None
  }

  lemma ClaimIs(m: Mod, env: Env, byReload: bool)
    requires Startable(m) && !env.stopped && m.tag == if byReload then MayStart else Untouched
    ensures ClaimStep(m, env, true, byReload) == Claimed(m)
  {
  }

  /** One more charge than the budget forgives. */
  predicate Spent(r: R.RunnerState, now: Time) {
    |Recorded(r.events, r.window, now)| > r.max
  }

  /** Its start was claimed and refused admission. */
  function Refused(m: Mod, now: Time, delay: nat): Mod {
    var spent := Spent(m.runner, now);
    var end := if spent then CrashLooping else Failed;
    m.(runner := m.runner.(generation := m.runner.generation + 1, attempt := m.runner.attempt + 1,
         events := Recorded(m.runner.events, m.runner.window, now), blockedOnDeps := false,
         state := end, retryAt := if spent then None else Some(now + delay)),
       nextOp := m.nextOp + 1, charged := m.charged + [now], tag := Untouched,
       moves := m.moves + [R.Move(m.runner.state, Starting)] + [R.Move(Starting, end)])
  }

  lemma AdmissionRefused(m: Mod, env: Env)
    requires Startable(m)
    ensures Guard(Claimed(m), env, Admit(m.nextOp, None, R.Erred))
    ensures Next(Claimed(m), env, Admit(m.nextOp, None, R.Erred))
         == Claimed(m).(ops := map[m.nextOp := Start(m.runner.generation + 1, Finishing(R.Erred), None)])
  {
  }

  lemma RefusedIs(m: Mod, env: Env, delay: nat)
    requires Startable(m) && env.policy.restart
    ensures Guard(Claimed(m), env, Admit(m.nextOp, None, R.Erred))
    ensures var m2 := Next(Claimed(m), env, Admit(m.nextOp, None, R.Erred));
      && Guard(m2, env, FinishStart(m.nextOp, delay))
      && Next(m2, env, FinishStart(m.nextOp, delay)) == Refused(m, env.now, delay)
  {
    hide Recorded;
    AdmissionRefused(m, env);
    var m2 := Claimed(m).(ops := map[m.nextOp := Start(m.runner.generation + 1, Finishing(R.Erred), None)]);
    var m3 := Next(m2, env, FinishStart(m.nextOp, delay));
    assert m3.ops == map[];
    assert m3.moves == Refused(m, env.now, delay).moves;
  }

  /** Refuse the start that has just been claimed for module `id`. */
  lemma Refuse(s: Sys, steps: seq<SysStep>, t: Sys, id: Id, m: Mod, delay: nat) returns (more: seq<SysStep>, u: Sys)
    requires Reached(s, steps, t) && t.env.policy.restart && id in t.mods && Startable(m) && t.mods[id] == Claimed(m)
    ensures Reached(s, more, u)
    ensures u == t.(mods := t.mods[id := Refused(m, t.env.now, delay)], granted := u.granted, released := u.released)
  {
    RefusedIs(m, t.env, delay);
    hide Claimed, Guard, Next, Reached, Refused, Startable;
    var s1, t1 := GoAdmit(s, steps, t, id, m.nextOp, false, R.Erred);
    more, u := GoLocal(s, s1, t1, id, FinishStart(m.nextOp, delay));
    assert u.mods == t.mods[id := Refused(m, t.env.now, delay)];
  }

  /** Its start was claimed, admitted and returned well. */
  function Started(m: Mod, lease: R.Lease): Mod {
    m.(runner := m.runner.(state := Running, generation := m.runner.generation + 1, lease := Some(lease), attempt := 0,
         retryAt := None, blockedOnDeps := false),
       nextOp := m.nextOp + 1, tag := Untouched,
       moves := m.moves + [R.Move(m.runner.state, Starting)] + [R.Move(Starting, Running)])
  }

  lemma StartedIs(m: Mod, env: Env, lease: R.Lease)
    requires Startable(m)
    ensures Guard(Claimed(m), env, Admit(m.nextOp, Some(lease), R.Ok))
    ensures var m2 := Next(Claimed(m), env, Admit(m.nextOp, Some(lease), R.Ok));
      && Guard(m2, env, StartReturns(m.nextOp, R.Ok))
      && var m3 := Next(m2, env, StartReturns(m.nextOp, R.Ok));
      && Guard(m3, env, FinishStart(m.nextOp, 0)) && Next(m3, env, FinishStart(m.nextOp, 0)) == Started(m, lease)
  {
    var o, g := m.nextOp, m.runner.generation + 1;
    var m2 := Next(Claimed(m), env, Admit(o, Some(lease), R.Ok));
    assert m2 == Claimed(m).(ops := map[o := Start(g, Calling(false), Some(lease))]);
    var m3 := Next(m2, env, StartReturns(o, R.Ok));
    assert m3 == Claimed(m).(ops := map[o := Start(g, Finishing(R.Ok), Some(lease))]);
    var m4 := Next(m3, env, FinishStart(o, 0));
    assert m4.ops == map[] && m4.moves == Started(m, lease).moves;
  }

  /** The start just claimed for module `id` succeeds. */
  lemma Succeed(s: Sys, steps: seq<SysStep>, t: Sys, id: Id, m: Mod) returns (more: seq<SysStep>, u: Sys)
    requires Reached(s, steps, t) && id in t.mods && Startable(m) && t.mods[id] == Claimed(m)
    ensures Reached(s, more, u)
    ensures u == t.(mods := t.mods[id := Started(m, t.granted)], granted := u.granted, released := u.released)
  {
    StartedIs(m, t.env, t.granted);
    hide Claimed, Guard, Next, Reached, Started, Startable;
    var s1, t1 := GoAdmit(s, steps, t, id, m.nextOp, true, R.Ok);
    var s2, t2 := GoLocal(s, s1, t1, id, StartReturns(m.nextOp, R.Ok));
    more, u := GoLocal(s, s2, t2, id, FinishStart(m.nextOp, 0));
    assert u.mods == t.mods[id := Started(m, t.granted)];
  }

  // ---- one module, refused once and due again ----

  /** The module after its first start was refused. */
  function Once(): Mod { Refused(Fresh(), 0, 10) }

  lemma OnceIs()
    ensures Startable(Fresh()) && Fresh().tag == Untouched && Startable(Once()) && Once().tag == Untouched && Once().runner.state == Failed
    ensures Once().runner.cfg == Wanted && !Once().runner.opInFlight && Once().runner.retryAt == Some(10)
    ensures Once().runner.events == [0] && Once().runner.max == 1 && Once().runner.window == 100
  {
    assert Recorded([], 100, 0) == [0];
  }

  lemma TwiceSpends()
    ensures Recorded([0], 100, 10) == [0, 10]
  {
  }

  /** Start has returned, the retry has come due, and the loop has listed it. */
  lemma DueAgain() returns (steps: seq<SysStep>, t: Sys)
    ensures Init(Alone()) && Reached(Alone(), steps, t)
    ensures t.mods == map[0 := Once()] && t.env == At(10) && t.starting == [] && t.due == [0] && t.rel == map[0 := {}]
  {
    hide ClaimStep, Claimed, DepsRunning, Fresh, Init, R.MayClaim, Reached, Refused, Startable;
    var m, s := Fresh(), Alone();
    BothAreInitial();
    OnceIs();
    ReachedAtOnce(s);
    ClaimIs(m, s.env, false);
    NoDeps(s);
    var s1, t1 := GoListed(s, [], s, 0, true);
    var s2, t2 := Refuse(s, s1, t1, 0, m, 10);
    assert t2.mods == map[0 := Once()];
    var s3, t3 := GoTick(s, s2, t2, 10);
    steps, t := GoCollect(s, s3, t3, 0);
  }

  lemma ReachedAtOnce(s: Sys)
    ensures Reached(s, [], s)
  {
  }

  /** Its retry is claimed. */
  lemma ClaimedAgain() returns (steps: seq<SysStep>, t: Sys)
    ensures Init(Alone()) && Reached(Alone(), steps, t)
    ensures t.mods == map[0 := Claimed(Once())] && t.env == At(10) && t.starting == [] && t.rel == map[0 := {}]
  {
    hide Alone, ClaimStep, Claimed, DepsRunning, Init, Once, Reached, Startable;
    OnceIs();
    ClaimIs(Once(), At(10), false);
    var s1, t1 := DueAgain();
    NoDeps(t1);
    steps, t := GoDue(Alone(), s1, t1, 0, true);
  }

  // ---- the four changes ----

  /** A retry refused inside the window. */
  lemma StartingToCrashLooping()
    ensures exists s, steps :: Makes(s, steps, 0, Starting, CrashLooping)
  {
    OnceIs();
    TwiceSpends();
    var m2 := Refused(Once(), 10, 0);
    assert m2.moves[|m2.moves|-1] == R.Move(Starting, CrashLooping);
    hide Alone, Claimed, Init, Once, Refused, Startable, Exec, Runs, Recorded;
    var s1, t1 := ClaimedAgain();
    var s2, t2 := Refuse(Alone(), s1, t1, 0, Once(), 0);
    assert Makes(Alone(), s2, 0, Starting, CrashLooping);
  }

  /** Running on its second start. */
  lemma RunningAgain() returns (steps: seq<SysStep>, t: Sys)
    ensures Init(Alone()) && Reached(Alone(), steps, t)
    ensures exists lease :: t.mods == map[0 := Started(Once(), lease)]
    ensures t.env == At(10) && t.rel == map[0 := {}]
  {
    OnceIs();
    hide Alone, Claimed, Init, Once, Startable, Started, Reached;
    var s1, t1 := ClaimedAgain();
    steps, t := Succeed(Alone(), s1, t1, 0, Once());
    assert t.mods == map[0 := Started(Once(), t1.granted)];
  }

  /** It has failed, and the stop that follows has returned. */
  function Failing(m: Mod): Mod {
    m.(runner := m.runner.(state := Stopping, opInFlight := true, lease := None),
       ops := m.ops[m.nextOp := FailStop(Returned, None)], nextOp := m.nextOp + 1, moves := m.moves + [R.Move(Running, Stopping)])
  }

  predicate AtWork(m: Mod) {
    m.runner.state == Running && !m.runner.opInFlight && m.ops == map[] && m.runner.lease.Some?
  }

  lemma FailingIs(m: Mod, env: Env)
    requires AtWork(m) && !env.stopped
    ensures var g, o := m.runner.generation, m.nextOp;
      && Guard(m, env, Report(g))
      && var m1 := Next(m, env, Report(g));
      && Guard(m1, env, CallStop(o))
      && var m2 := Next(m1, env, CallStop(o));
      && Guard(m2, env, StopReturns(o, true)) && Next(m2, env, StopReturns(o, true)) == Failing(m)
  {
    var g, o, l := m.runner.generation, m.nextOp, m.runner.lease;
    var m1 := Next(m, env, Report(g));
    assert m1 == Failing(m).(ops := map[o := FailStop(Pending, l)]);
    var m2 := Next(m1, env, CallStop(o));
    assert m2 == Failing(m).(ops := map[o := FailStop(InCall, l)]);
  }

  lemma FailedIs(m: Mod, env: Env)
    requires AtWork(m) && env.policy.restart && Spent(m.runner, env.now)
    ensures Guard(Failing(m), env, EndFailStop(m.nextOp, 0))
    ensures R.Move(Stopped, CrashLooping) in Next(Failing(m), env, EndFailStop(m.nextOp, 0)).moves
  {
    hide Recorded;
    var r := Failing(m).runner;
    assert R.EndFailStop(r, env.now, env.policy, 0).moves == [R.Move(Stopping, Stopped)] + [R.Move(Stopped, CrashLooping)];
  }

  /** A running module fails for the second time inside the window. */
  lemma StoppedToCrashLooping()
    ensures exists s, steps :: Makes(s, steps, 0, Stopped, CrashLooping)
  {
    OnceIs();
    TwiceSpends();
    var s, env := Alone(), At(10);
    var s1, t1 := RunningAgain();
    var lease :| t1.mods == map[0 := Started(Once(), lease)];
    var m := Started(Once(), lease);
    assert AtWork(m) && Spent(m.runner, 10);
    var steps := FailAndStop(s, s1, t1, m);
    assert Makes(s, steps, 0, Stopped, CrashLooping);
  }

  lemma FailAndStop(s: Sys, steps: seq<SysStep>, t: Sys, m: Mod) returns (more: seq<SysStep>)
    requires Init(s) && Reached(s, steps, t) && t.mods == map[0 := m] && t.rel == map[0 := {}]
    requires AtWork(m) && !t.env.stopped && t.env.policy.restart && Spent(m.runner, t.env.now)
    ensures Makes(s, more, 0, Stopped, CrashLooping)
  {
    FailingIs(m, t.env);
    FailedIs(m, t.env);
    hide AtWork, Exec, Failing, Guard, Init, Next, Runs, Spent;
    var s5, t5 := GoReport(s, steps, t, 0, m.runner.generation);
    var s6, t6 := GoLocal(s, s5, t5, 0, CallStop(m.nextOp));
    var s7, t7 := GoLocal(s, s6, t6, 0, StopReturns(m.nextOp, true));
    var s8, t8 := GoLocal(s, s7, t7, 0, EndFailStop(m.nextOp, 0));
    more := s8;
  }

  // ---- a module deferred behind another ----

  /** The first module's start was refused; its retry is due at 15. */
  function Late(): Mod { Refused(Fresh(), 0, 15) }

  /** Deferred at its first start; its retry is due at 10. */
  function Deferral(): Mod {
    Fresh().(runner := Fresh().runner.(state := Failed, blockedOnDeps := true, retryAt := Some(10)),
             moves := [R.Move(Registered, Failed)])
  }

  lemma LateIs()
    ensures Startable(Fresh()) && Fresh().tag == Untouched && Late().tag == Untouched && Late().runner.state == Failed && Late().runner.retryAt == Some(15)
    ensures Late().runner.cfg == Wanted && Keeps(Late())
  {
    assert Recorded([], 100, 0) == [0];
  }

  /** Of a pair, the first module's start has been refused. */
  lemma HalfRefused() returns (steps: seq<SysStep>, t: Sys)
    ensures Init(Pair()) && Reached(Pair(), steps, t)
    ensures t.mods == map[0 := Late(), 1 := Fresh()] && t.env == At(0) && t.starting == [1] && t.due == []
    ensures t.rel == map[0 := {}, 1 := {0}]
  {
    hide ClaimStep, Claimed, DepsRunning, Fresh, Init, R.MayClaim, Reached, Refused, Startable;
    var m, s := Fresh(), Pair();
    BothAreInitial();
    LateIs();
    ClaimIs(m, s.env, false);
    NoDeps(s);
    ReachedAtOnce(s);
    var s1, t1 := GoListed(s, [], s, 0, true);
    steps, t := Refuse(s, s1, t1, 0, m, 15);
    assert t.mods == map[0 := Late(), 1 := m];
  }

  lemma DeferredIs(env: Env)
    requires env == At(0)
    ensures ClaimStep(Fresh(), env, false, false) == Deferral()
  {
  }

  /** The second module's first start is deferred. */
  lemma SecondDeferred() returns (steps: seq<SysStep>, t: Sys)
    ensures Init(Pair()) && Reached(Pair(), steps, t)
    ensures t.mods == map[0 := Late(), 1 := Deferral()] && t.env == At(0) && t.starting == [] && t.due == []
    ensures t.rel == map[0 := {}, 1 := {0}]
  {
    LateIs();
    DeferredIs(At(0));
    hide ClaimStep, Deferral, DepsRunning, Fresh, Init, Late, Pair, Reached, Startable;
    var s1, t1 := HalfRefused();
    DependencyDown(t1);
    steps, t := GoListed(Pair(), s1, t1, 1, false);
  }

  /** A deferral: the dependency's start was refused before this module's turn. */
  lemma RegisteredToFailed()
    ensures exists s, steps :: Makes(s, steps, 1, Registered, Failed)
  {
    hide Exec, Fresh, Init, Late, Pair, Runs;
    var s1, t1 := SecondDeferred();
    assert Makes(Pair(), s1, 1, Registered, Failed);
  }

  lemma DependencyDown(t: Sys)
    requires t.rel == map[0 := {}, 1 := {0}] && 0 in t.mods && t.mods[0].runner.state == Failed
    ensures !DepsRunning(t, 1)
  {
    assert 0 in DepsOf(t.rel, 1);
  }

  lemma NoDeps(t: Sys)
    requires t.rel == map[0 := {}] || t.rel == map[0 := {}, 1 := {0}]
    ensures DepsRunning(t, 0)
  {
  }

  // ---- reloads ----

  function AllWanted(s: Sys): map<Id, R.ModuleConfig> {
    map id | id in s.mods :: Wanted
  }

  function AllBut(s: Sys, off: Id): map<Id, R.ModuleConfig> {
    map id | id in s.mods :: if id == off then Unwanted else Wanted
  }

  /** One reload, up to the point where it has applied the configuration. */
  lemma GoReload(s: Sys, steps: seq<SysStep>, t: Sys, cfgs: map<Id, R.ModuleConfig>, rel: Relation)
    returns (more: seq<SysStep>, u: Sys)
    requires Reached(s, steps, t) && cfgs.Keys == t.mods.Keys && NoReload(t)
    ensures Reached(s, more, u)
    ensures u == t.(mods := map id | id in t.mods :: ReconfigureStep(t.mods[id], t.env, cfgs[id]), rel := rel)
  {
    hide ReconfigureStep, Reached, NoReload;
    more, u := Go(s, steps, t, ApplyReload(cfgs, rel, t.env.policy));
    assert u.mods == map id | id in t.mods :: ReconfigureStep(t.mods[id], t.env, cfgs[id]);
  }

  /** A reload leaves a module alone whose configuration it does not change. */
  ghost predicate Keeps(m: Mod) {
    m.runner.cfg == Wanted && m.runner.state != CrashLooping && m.tag == Untouched
  }

  lemma Unaffected(m: Mod, env: Env)
    requires Keeps(m)
    ensures ReconfigureStep(m, env, Wanted) == m
  {
  }

  /** Failed, then turned off by a reload. */
  function Unwanting(m: Mod): Mod {
    m.(runner := m.runner.(cfg := Unwanted), tag := MustStop)
  }

  function TurnedOff(m: Mod): Mod {
    m.(runner := m.runner.(cfg := Unwanted, state := Disabled, retryAt := None), tag := Untouched,
       moves := m.moves + [R.Move(Failed, Stopped)] + [R.Move(Stopped, Disabled)])
  }

  /** Failed, and wanted so far. */
  predicate Waiting(m: Mod) {
    m.runner.state == Failed && m.runner.cfg == Wanted && !m.runner.opInFlight && m.tag == Untouched
  }

  lemma TurnedOffIs(m: Mod, env: Env)
    requires Waiting(m)
    ensures Keeps(m) && ReconfigureStep(m, env, Unwanted) == Unwanting(m)
    ensures Guard(Unwanting(m), env, StopModule(true))
    ensures var m2 := Next(Unwanting(m), env, StopModule(true));
      Guard(m2, env, DisableModule) && Next(m2, env, DisableModule) == TurnedOff(m)
  {
    var m2 := Next(Unwanting(m), env, StopModule(true));
    assert m2.moves == m.moves + [R.Move(Failed, Stopped)];
  }

  lemma OthersKept(t: Sys, id: Id, cfgs: map<Id, R.ModuleConfig>)
    requires id in t.mods && cfgs.Keys == t.mods.Keys
    requires forall j :: j in t.mods && j != id ==> Keeps(t.mods[j]) && cfgs[j] == Wanted
    ensures (map j | j in t.mods :: ReconfigureStep(t.mods[j], t.env, cfgs[j]))
         == t.mods[id := ReconfigureStep(t.mods[id], t.env, cfgs[id])]
  {
    hide ReconfigureStep, Keeps;
    forall j | j in t.mods && j != id ensures ReconfigureStep(t.mods[j], t.env, Wanted) == t.mods[j] {
      Unaffected(t.mods[j], t.env);
    }
  }

  /** A reload that turns one waiting module off, up to its end. */
  lemma TurnOff(s: Sys, steps: seq<SysStep>, t: Sys, id: Id, m: Mod, rel: Relation) returns (more: seq<SysStep>, u: Sys)
    requires Reached(s, steps, t) && NoReload(t) && id in t.mods && t.mods[id] == m && Waiting(m)
    requires forall j :: j in t.mods && j != id ==> Keeps(t.mods[j])
    ensures Reached(s, more, u) && u == t.(mods := t.mods[id := TurnedOff(m)], rel := rel, released := u.released)
  {
    hide Guard, Keeps, Next, NoReload, Reached, ReconfigureStep, TurnedOff, Unwanting, Waiting;
    TurnedOffIs(m, t.env);
    OthersKept(t, id, AllBut(t, id));
    var s1, t1 := GoReload(s, steps, t, AllBut(t, id), rel);
    var s2, t2 := GoLocal(s, s1, t1, id, StopModule(true));
    more, u := GoLocal(s, s2, t2, id, DisableModule);
    assert u.mods == t.mods[id := TurnedOff(m)];
  }

  function TurnedOn(m: Mod): Mod {
    TurnedOff(m).(runner := TurnedOff(m).runner.(cfg := Wanted), tag := MustStart)
  }

  /** The next reload wants every module again: `id` is to be started. */
  lemma TurnOn(s: Sys, steps: seq<SysStep>, t: Sys, id: Id, m: Mod, rel: Relation) returns (more: seq<SysStep>, u: Sys)
    requires Reached(s, steps, t) && NoReload(t) && id in t.mods && t.mods[id] == TurnedOff(m)
    requires forall j :: j in t.mods && j != id ==> Keeps(t.mods[j])
    ensures Reached(s, more, u) && u == t.(mods := t.mods[id := TurnedOn(m)], rel := rel)
  {
    assert ReconfigureStep(TurnedOff(m), t.env, Wanted) == TurnedOn(m);
    OthersKept(t, id, AllWanted(t));
    hide Keeps, NoReload, Reached, ReconfigureStep, TurnedOff, TurnedOn;
    more, u := GoReload(s, steps, t, AllWanted(t), rel);
    assert u.mods == t.mods[id := TurnedOn(m)];
  }

  lemma NobodyTagged(t: Sys)
    requires forall j :: j in t.mods ==> t.mods[j].tag == Untouched
    ensures NoReload(t)
  {
  }

  /** The second module's retry has come due, and the loop has listed it. */
  lemma SecondDue() returns (steps: seq<SysStep>, t: Sys)
    ensures Init(Pair()) && Reached(Pair(), steps, t)
    ensures t.mods == map[0 := Late(), 1 := Deferral()] && t.env == At(10) && t.starting == [] && t.due == [1]
    ensures t.rel == map[0 := {}, 1 := {0}]
  {
    LateIs();
    hide Init, Late, Pair, Reached;
    var s1, t1 := SecondDeferred();
    var s2, t2 := GoTick(Pair(), s1, t1, 10);
    steps, t := GoCollect(Pair(), s2, t2, 1);
  }

  lemma OvertakenIs(env: Env)
    requires !env.stopped
    ensures R.Move(Disabled, Failed) in ClaimStep(TurnedOn(Deferral()), env, false, false).moves
    ensures Waiting(Deferral()) && TurnedOff(Deferral()).tag == Untouched
  {
    var m := TurnedOn(Deferral());
    var m' := ClaimStep(m, env, false, false);
    assert m'.moves == m.moves + [R.Move(Disabled, Failed)];
    assert m'.moves[|m.moves|] == R.Move(Disabled, Failed);
  }

  /** Two reloads overtake the control loop between listing a due restart and
      claiming it: the module is Disabled but wanted again, and its dependency
      is down. */
  lemma DisabledToFailed()
    ensures exists s, steps :: Makes(s, steps, 1, Disabled, Failed)
  {
    hide ClaimStep, Deferral, DepsRunning, Exec, Fresh, Init, Keeps, Late, NoReload, Pair, Runs, TurnedOff, TurnedOn, Waiting;
    var s, m := Pair(), Deferral();
    LateIs();
    OvertakenIs(At(10));
    var s1, t1 := SecondDue();
    NobodyTagged(t1);
    var s2, t2 := TurnOff(s, s1, t1, 1, m, map[0 := {}]);
    NobodyTagged(t2);
    var s3, t3 := TurnOn(s, s2, t2, 1, m, map[0 := {}, 1 := {0}]);
    DependencyDown(t3);
    var s4, t4 := GoDue(s, s3, t3, 1, false);
    assert Makes(s, s4, 1, Disabled, Failed);
  }

  /** The transition table plus the four extra changes is exact: each of the four
      is made by some run, and `RunsAreSafe` shows no run makes any other. */
  lemma ExtraEdgesAreMade(from: State, to: State)
    requires ExtraEdge(from, to)
    ensures exists s, steps, id :: Makes(s, steps, id, from, to)
  {
    hide Makes;
    if from == Registered {
      RegisteredToFailed();
    } else if from == Disabled {
      DisabledToFailed();
    } else if from == Starting {
      StartingToCrashLooping();
    } else {
      StoppedToCrashLooping();
    }
  }

  // ---- the quarantine escape ----

  /** After `steps` module `id` is quarantined; `more` contains no reload and starts it. */
  ghost predicate Escapes(s: Sys, steps: seq<SysStep>, more: seq<SysStep>, id: Id) {
    && Init(s) && Runs(s, steps) && Runs(s, steps + more)
    && id in Exec(s, steps).mods && Exec(s, steps).mods[id].runner.state == CrashLooping
    && (forall i :: 0 <= i < |more| ==> !more[i].ApplyReload?)
    && id in Exec(s, steps + more).mods && Exec(s, steps + more).mods[id].runner.state == Starting
  }

  /** Turned off and on again, and leaving Disabled. */
  ghost function Reopened(m: Mod): Mod {
    Protocol.After(TurnedOn(m), R.Reenable(TurnedOn(m).runner)).(tag := MayStart)
  }

  /** The only module there is may now be started by the reload. */
  lemma GoOpen(s: Sys, steps: seq<SysStep>, t: Sys, id: Id) returns (more: seq<SysStep>, u: Sys)
    requires Reached(s, steps, t) && t.mods.Keys == {id} && t.mods[id].tag == MustStart
    ensures Reached(s, more, u)
    ensures u == t.(mods := t.mods[id := Protocol.After(t.mods[id], R.Reenable(t.mods[id].runner)).(tag := MayStart)])
  {
    hide Reached;
    assert forall j :: j in t.mods ==> j in t.mods.Keys;
    assert Enabled(t, OpenStarts);
    more, u := Go(s, steps, t, OpenStarts);
    assert u.mods == t.mods[id := Next(t.mods[id], t.env, OpenStart)];
  }

  /** Both reloads have gone by while the loop still holds its list, and the
      second has claimed the module again. */
  lemma OpenedAgain() returns (steps: seq<SysStep>, t: Sys)
    ensures Init(Alone()) && Reached(Alone(), steps, t)
    ensures t.mods == map[0 := Claimed(Reopened(Once()))] && t.env == At(10) && t.due == [0] && t.rel == map[0 := {}]
  {
    var s, m := Alone(), Once();
    OnceIs();
    ReopenedIs();
    ClaimIs(Reopened(m), At(10), true);
    assert Protocol.After(TurnedOn(m), R.Reenable(TurnedOn(m).runner)).(tag := MayStart) == Reopened(m);
    hide Alone, ClaimStep, Claimed, DepsRunning, Init, NoReload, Once, R.Reenable, Reached, Reopened, Startable, TurnedOff,
      TurnedOn, Waiting;
    var s1, t1 := DueAgain();
    NobodyTagged(t1);
    var s2, t2 := TurnOff(s, s1, t1, 0, m, map[]);
    NobodyTagged(t2);
    var s3, t3 := TurnOn(s, s2, t2, 0, m, map[0 := {}]);
    var s4, t4 := GoOpen(s, s3, t3, 0);
    NoDeps(t4);
    steps, t := GoReloaded(s, s4, t4, 0);
    assert t.mods == map[0 := Claimed(Reopened(m))];
  }

  lemma ReopenedIs()
    ensures var m := Reopened(Once());
      && Startable(m) && m.tag == MayStart && Spent(m.runner, 10)
    ensures Waiting(Once()) && TurnedOff(Once()).tag == Untouched && TurnedOn(Once()).tag == MustStart
  {
    OnceIs();
    TwiceSpends();
    hide Recorded;
  }

  /** A quarantined module is startable when its turn comes. */
  lemma QuarantinedIs(m: Mod, env: Env)
    requires Startable(m) && Spent(m.runner, env.now) && !env.stopped
    ensures Refused(m, env.now, 0).runner.state == CrashLooping
    ensures ClaimStep(Refused(m, env.now, 0), env, true, false).runner.state == Starting
  {
    hide Recorded;
  }

  /** A list of due restarts drawn up before two reloads still names the module
      that was quarantined meanwhile, and its turn starts the module: a
      quarantine alone does not hold. */
  lemma QuarantineEscapes()
    ensures exists s, steps, more :: Escapes(s, steps, more, 0)
  {
    hide Alone, ClaimStep, Claimed, DepsRunning, Exec, Init, Once, Refused, Reopened, Runs, Spent, Startable;
    var s, m := Alone(), Reopened(Once());
    ReopenedIs();
    QuarantinedIs(m, At(10));
    var s1, t1 := OpenedAgain();
    var s2, t2 := Refuse(s, s1, t1, 0, m, 0);
    NoDeps(t2);
    var s3, t3 := GoDue(s, s2, t2, 0, true);
    assert Escapes(s, s2, [ClaimDue], 0);
  }

  // ---- a stop outside the slot ----

  /** A run in which a Stop is outstanding and no slot is taken. */
  ghost predicate StopsOutsideSlot(s: Sys, steps: seq<SysStep>, id: Id) {
    && Init(s) && Runs(s, steps) && id in Exec(s, steps).mods
    && var m := Exec(s, steps).mods[id];
       !m.runner.opInFlight && exists o :: o in m.ops && m.ops[o].ModStop? && m.ops[o].phase == InCall
  }

  lemma GoShutdown(s: Sys, steps: seq<SysStep>, t: Sys) returns (more: seq<SysStep>, u: Sys)
    requires Reached(s, steps, t) && !t.env.stopped
    ensures Reached(s, more, u) && u == t.(env := t.env.(stopped := true))
  {
    hide Reached;
    more, u := Go(s, steps, t, SysStep.Shutdown);
  }

  lemma StoppingIs(m: Mod, env: Env)
    requires AtWork(m) && env.stopped
    ensures Guard(m, env, StopModule(false))
    ensures var m' := Next(m, env, StopModule(false));
      !m'.runner.opInFlight && m.nextOp in m'.ops && m'.ops[m.nextOp].ModStop? && m'.ops[m.nextOp].phase == InCall
  {
  }

  /** Shutdown stops a running module without taking its slot. */
  lemma StopModuleTakesNoSlot()
    ensures exists s, steps :: StopsOutsideSlot(s, steps, 0)
  {
    OnceIs();
    var s1, t1 := RunningAgain();
    var lease :| t1.mods == map[0 := Started(Once(), lease)];
    var m := Started(Once(), lease);
    assert AtWork(m);
    StoppingIs(m, t1.env.(stopped := true));
    hide Alone, AtWork, Exec, Guard, Init, Next, Once, Runs, Started;
    var s2, t2 := GoShutdown(Alone(), s1, t1);
    var s3, t3 := GoLocal(Alone(), s2, t2, 0, StopModule(false));
    assert StopsOutsideSlot(Alone(), s3, 0);
  }
}
