/** Where each step leaves a module (internal/supervisor), and that a failing
    module's dependents are stopped before it. */
module Outcomes {
  import opened Wrappers
  import opened Lifecycle
  import opened RestartWindow
  import opened StartOrders
  import opened Resolve
  import R = Runners
  import opened Protocol
  import opened Leases
  import opened Supervision
  import opened Safety
  import opened Guarantees

  /** A start may be claimed. */
  ghost predicate Claimable(m: Mod, env: Env) {
    && !env.stopped && m.runner.cfg.enabled && !m.runner.opInFlight
    && m.runner.state in {Registered, Stopped, Failed, CrashLooping, Disabled, Starting}
  }

  /** A charge now is one too many for the window. */
  ghost predicate OverBudget(m: Mod, env: Env) {
    |WindowAfter(m.charged + [env.now], m.runner.window)| > m.runner.max
  }

  /** The state after a failure. */
  ghost function FailedState(m: Mod, env: Env): State {
    if env.policy.restart && OverBudget(m, env) then CrashLooping else Failed
  }

  ghost predicate IsCurrent(m: Mod, o: OpId) {
    o in m.ops && m.ops[o].Start? && m.ops[o].gen == m.runner.generation
  }

  /** The state every step leaves a module in. */
  lemma StateAfter(m: Mod, env: Env, st: ModStep)
    requires ModInv(m, env) && Guard(m, env, st)
    ensures var was, now := m.runner.state, Next(m, env, st).runner.state;
      match st
      case Claim(deps, _) => now == if !Claimable(m, env) then was else if deps then Starting else Failed
      case FinishStart(o, _) =>
        now == if !IsCurrent(m, o) then was
               else if m.ops[o].stage == Finishing(R.Ok) then Running
               else if m.ops[o].stage == Finishing(R.NotSupported) then Unsupported
               else FailedState(m, env)
      case Report(_) => was == Running && now == Stopping
      case BeginDepStop => now == Stopping
      case EndFailStop(_, _) => now == FailedState(m, env)
      case EndDepStop(_, _) => now == Failed
      case StopModule(_) => now == if Active(was) then Stopping else if was in {Disabled, Unsupported} then was else Stopped
      case EndModStop(_) => now == Stopped
      case DisableModule => now == Disabled
      case OpenStart => now == if was == Disabled then Stopped else was
      case Reconfigure(cfg) => now == if was == CrashLooping && cfg.enabled then Failed else was
      case _ => now == was
  {
    hide LeaseInv, EdgesOnly, Recorded, WindowAfter, Nondecreasing;
    if st.FinishStart? || st.EndFailStop? { FailureState(m, env, st); }
    if st.Claim? { ClaimState(m, env, st); }
  }

  lemma FailureState(m: Mod, env: Env, st: ModStep)
    requires ModInv(m, env) && Guard(m, env, st) && (st.FinishStart? || st.EndFailStop?)
    ensures st.EndFailStop? || (IsCurrent(m, st.o) && m.ops[st.o].stage == Finishing(R.Erred)) ==>
      Next(m, env, st).runner.state == FailedState(m, env)
  {
    ChargeExtendsHistory(m.charged, m.runner.window, env.now);
    var idle := R.Outcome(m.runner.(opInFlight := false), []);
    R.FailEffects(if st.FinishStart? then idle else R.SetState(idle, Stopped), env.now, env.policy, st.delay);
    hide R.Fail, InFlightInv, LeaseInv, EdgesOnly, Recorded, WindowAfter;
  }

  lemma ClaimState(m: Mod, env: Env, st: ModStep)
    requires ModInv(m, env) && Guard(m, env, st) && st.Claim?
    ensures Next(m, env, st).runner.state ==
      if !Claimable(m, env) then m.runner.state else if st.depsRunning then Starting else Failed
  {
  }

  /** Generations number the starts and whatever outdates them; configurations
      change by a reload only. */
  lemma GenerationAfter(m: Mod, env: Env, st: ModStep)
    requires ModInv(m, env) && Guard(m, env, st)
    ensures Next(m, env, st).runner.generation == m.runner.generation +
      if (st.Claim? && Claimable(m, env) && st.depsRunning) || st.BeginDepStop? || (st.StopModule? && Active(m.runner.state)) then 1 else 0
    ensures Next(m, env, st).runner.cfg == if st.Reconfigure? then st.cfg else m.runner.cfg
  {
    hide LeaseInv, InFlightInv, RecordInv, IdleWhenFailed, R.Fail;
    if st.FinishStart? || st.EndFailStop? { EndKeepsGeneration(m, env, st); }
  }

  lemma EndKeepsGeneration(m: Mod, env: Env, st: ModStep)
    requires Guard(m, env, st) && (st.FinishStart? || st.EndFailStop?)
    ensures Next(m, env, st).runner.generation == m.runner.generation && Next(m, env, st).runner.cfg == m.runner.cfg
  {
    hide R.Fail;
    var idle := R.Outcome(m.runner.(opInFlight := false), []);
    R.FailEffects(if st.FinishStart? then idle else R.SetState(idle, Stopped), env.now, env.policy, st.delay);
  }

  // ---- dependents are stopped first ----

  /** When a failing module's next dependent is visited, it is stopped if it is
      running with nothing in flight, and left alone if it is busy or unknown. */
  lemma DependentIsStopped(s: Sys, id: Id, o: OpId)
    requires SysInv(s) && Enabled(s, StopDependent(id, o))
    ensures var d, s' := s.plans[(id, o)].rest[0], Step(s, StopDependent(id, o));
      && (d in s.mods && s.mods[d].runner.state == Running && !s.mods[d].runner.opInFlight ==>
            d in s'.mods && s'.mods[d].runner.state == Stopping && s'.mods[d].runner.opInFlight && s'.mods[d].runner.lease == None)
      && (d in s.mods && s.mods[d].runner.opInFlight ==> d in s'.mods && s'.mods[d] == s.mods[d])
      && s'.plans[(id, o)].rest == s.plans[(id, o)].rest[1..]
  {
    hide Conserved, ModInv;
  }

  /** The dependent `x` is visited for operation `o` of module `id` along the run. */
  ghost predicate Visits(s: Sys, steps: seq<SysStep>, id: Id, o: OpId, x: Id)
    requires Runs(s, steps)
    decreases steps
  {
    steps != [] &&
    ((steps[0] == StopDependent(id, o) && s.plans[(id, o)].rest[0] == x) || Visits(Step(s, steps[0]), steps[1..], id, o, x))
  }

  /** Operation `o` of module `id` has begun, with a plan. */
  ghost predicate Planned(s: Sys, id: Id, o: OpId) {
    id in s.mods && o < s.mods[id].nextOp && (id, o) in s.plans
  }

  lemma NextOpGrows(m: Mod, env: Env, st: ModStep)
    requires Guard(m, env, st)
    ensures Next(m, env, st).nextOp >= m.nextOp
  {
    hide R.Fail;
  }

  lemma PlanStep(s: Sys, st: SysStep, id: Id, o: OpId)
    requires Enabled(s, st) && Planned(s, id, o)
    ensures (id, o) in Step(s, st).plans
    ensures Step(s, st).plans[(id, o)].rest ==
      if st == StopDependent(id, o) then s.plans[(id, o)].rest[1..] else s.plans[(id, o)].rest
  {
    hide Next, DepsRunning, Released, R.MayStopForDependency;
  }

  lemma PlannedStays(s: Sys, st: SysStep, id: Id, o: OpId)
    requires Enabled(s, st) && Planned(s, id, o)
    ensures Planned(Step(s, st), id, o)
  {
    hide Enabled, Step, Guard, Next, ActionOn;
    PlanStep(s, st, id, o);
    ActionOnIs(s, st, id);
    var a := ActionOn(s, st, id);
    if a.Some? { NextOpGrows(s.mods[id], s.env, a.value); }
  }

  /** A dependent on the plan stays on it until it is visited. */
  lemma {:induction false} VisitedOrPlanned(s: Sys, steps: seq<SysStep>, id: Id, o: OpId, x: Id)
    requires Runs(s, steps) && Planned(s, id, o) && x in s.plans[(id, o)].rest
    ensures Planned(Exec(s, steps), id, o)
    ensures Visits(s, steps, id, o, x) || x in Exec(s, steps).plans[(id, o)].rest
    decreases steps
  {
    if steps != [] {
      PlanStep(s, steps[0], id, o);
      PlannedStays(s, steps[0], id, o);
      var rest := s.plans[(id, o)].rest;
      if steps[0] == StopDependent(id, o) {
        assert rest == [rest[0]] + rest[1..];
        if rest[0] == x { OnlyPlanned(Step(s, steps[0]), steps[1..], id, o); return; }
      }
      hide Enabled, Step, Planned;
      VisitedOrPlanned(Step(s, steps[0]), steps[1..], id, o, x);
    }
  }

  lemma {:induction false} OnlyPlanned(s: Sys, steps: seq<SysStep>, id: Id, o: OpId)
    requires Runs(s, steps) && Planned(s, id, o)
    ensures Planned(Exec(s, steps), id, o)
    decreases steps
  {
    if steps != [] {
      PlannedStays(s, steps[0], id, o);
      hide Enabled, Step, Planned;
      OnlyPlanned(Step(s, steps[0]), steps[1..], id, o);
    }
  }

  /** By the time a failing module's own Stop is called, each module that depends on
      it, directly or not, has been visited. */
  lemma DependentsFirst(s: Sys, gen: nat, dependents: seq<Id>, id: Id, steps: seq<SysStep>, x: Id)
    requires Enabled(s, ReportFailure(id, gen, dependents)) && Runs(Step(s, ReportFailure(id, gen, dependents)), steps)
    requires Enabled(Exec(Step(s, ReportFailure(id, gen, dependents)), steps), Local(id, CallStop(s.mods[id].nextOp)))
    requires id in s.rel && x in s.rel && DependsOn(s.rel, x, id)
    ensures Visits(Step(s, ReportFailure(id, gen, dependents)), steps, id, s.mods[id].nextOp, x)
  {
    var o, s' := s.mods[id].nextOp, Step(s, ReportFailure(id, gen, dependents));
    Reported(s, gen, dependents, id);
    assert x in dependents;
    hide Step, Next, Guard, Runs, Exec, Visits, DependsOn;
    VisitedOrPlanned(s', steps, id, o, x);
  }

  lemma Reported(s: Sys, gen: nat, dependents: seq<Id>, id: Id)
    requires Enabled(s, ReportFailure(id, gen, dependents))
    ensures var s', o := Step(s, ReportFailure(id, gen, dependents)), s.mods[id].nextOp;
      Planned(s', id, o) && s'.plans[(id, o)].rest == dependents
  {
  }
}
