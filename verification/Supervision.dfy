/** The whole supervisor: every module's protocol side by side, with the
    control loop's list of due restarts, the start list, a reload in progress,
    shutdown, the clock, and the capability runtime that grants and takes back
    leases.  A run is any sequence of enabled steps. */
module Supervision {
  import opened Wrappers
  import opened Lifecycle
  import opened RestartWindow
  import opened StartOrders
  import opened Resolve
  import R = Runners
  import opened Protocol
  import opened Leases

  /** What a failure-stop has still to do before it stops its own module: the
      dependents left, and the dependency-stop it is waiting for. */
  datatype Plan = Plan(rest: seq<Id>, child: Option<(Id, OpId)>)

  datatype Sys = Sys(
    mods: map<Id, Mod>,
    rel: Relation,
    env: Env,
    granted: nat,
    released: seq<R.Lease>,
    due: seq<Id>,
    starting: seq<Id>,
    plans: map<(Id, OpId), Plan>)

  datatype SysStep =
    | Tick(d: nat)
    | CollectDue(found: seq<Id>)
    | ClaimDue
    | ClaimListed
    | ClaimReload(id: Id)
    | AdmitStart(id: Id, o: OpId, ok: bool, v: R.Verdict)
    | ReportFailure(id: Id, gen: nat, dependents: seq<Id>)
    | StopDependent(id: Id, o: OpId)
    | Local(id: Id, st: ModStep)
    | Shutdown
    | ApplyReload(cfgs: map<Id, R.ModuleConfig>, rel: Relation, policy: R.Policy)
    | OpenStarts

  /** The steps a module takes without the rest of the supervisor. */
  predicate IsLocal(st: ModStep) {
    st.DeadlinePasses? || st.StartReturns? || st.CleanupReturns? || st.FinishStart? || st.ReleaseLate? || st.CallStop? || st.StopReturns? ||
    st.StopSettles? || st.EndFailStop? || st.EndDepStop? || st.EndModStop? || st.StopModule? || st.DisableModule?
  }

  predicate DepsRunning(s: Sys, id: Id) {
    forall d :: d in DepsOf(s.rel, id) ==> d in s.mods && s.mods[d].runner.state == Running
  }

  /** The dependency-stop a failure-stop waits for is over. */
  predicate ChildGone(s: Sys, p: Plan) {
    p.child.Some? ==> p.child.value.0 in s.mods && p.child.value.1 !in s.mods[p.child.value.0].ops
  }

  predicate NoReload(s: Sys) {
    forall id :: id in s.mods ==> s.mods[id].tag == Untouched
  }

  ghost predicate Enabled(s: Sys, st: SysStep) {
    match st
    case Tick(_) => true
    case CollectDue(found) =>
      s.due == [] && !s.env.stopped &&
      forall id :: id in found <==> id in s.mods && R.Due(s.mods[id].runner, s.env.now)
    case ClaimDue => s.due != [] && s.due[0] in s.mods
    case ClaimListed => s.starting != [] && s.starting[0] in s.mods
    case ClaimReload(id) => id in s.mods && Guard(s.mods[id], s.env, Claim(DepsRunning(s, id), true))
    case AdmitStart(id, o, ok, v) =>
      id in s.mods && Guard(s.mods[id], s.env, Admit(o, if ok then Some(s.granted) else None, v))
    case ReportFailure(id, gen, dependents) =>
      && id in s.mods && Guard(s.mods[id], s.env, Report(gen))
      && (forall x :: x in dependents <==> id in s.rel && x in s.rel && DependsOn(s.rel, x, id))
      && StopsDependentsFirst(s.rel, dependents)
    case StopDependent(id, o) =>
      && id in s.mods && o in s.mods[id].ops && s.mods[id].ops[o].FailStop? && s.mods[id].ops[o].phase == Pending
      && (id, o) in s.plans && s.plans[(id, o)].rest != [] && ChildGone(s, s.plans[(id, o)])
    case Local(id, l) =>
      && id in s.mods && IsLocal(l) && Guard(s.mods[id], s.env, l)
      && (l.CallStop? ==> (id, l.o) in s.plans && s.plans[(id, l.o)].rest == [] && ChildGone(s, s.plans[(id, l.o)]))
    case Shutdown => !s.env.stopped
    case ApplyReload(cfgs, _, _) => cfgs.Keys == s.mods.Keys && NoReload(s)
    case OpenStarts =>
      && (exists id :: id in s.mods && s.mods[id].tag == MustStart)
      && forall id :: id in s.mods ==> s.mods[id].tag in {Untouched, MustStart}
  }

  /** One module takes one step; released leases go back to the runtime. */
  ghost function On(s: Sys, id: Id, l: ModStep): Sys
    requires id in s.mods && Guard(s.mods[id], s.env, l)
  {
    s.(mods := s.mods[id := Next(s.mods[id], s.env, l)],
       granted := if Granted(l).Some? then s.granted + 1 else s.granted,
       released := s.released + Released(s.mods[id], s.env, l))
  }

  ghost function Step(s: Sys, st: SysStep): Sys
    requires Enabled(s, st)
  {
    match st
    case Tick(d) => s.(env := s.env.(now := s.env.now + d))
    case CollectDue(found) => s.(due := found)
    case ClaimDue => On(s, s.due[0], Claim(DepsRunning(s, s.due[0]), false)).(due := s.due[1..])
    case ClaimListed => On(s, s.starting[0], Claim(DepsRunning(s, s.starting[0]), false)).(starting := s.starting[1..])
    case ClaimReload(id) => On(s, id, Claim(DepsRunning(s, id), true))
    case AdmitStart(id, o, ok, v) => On(s, id, Admit(o, if ok then Some(s.granted) else None, v))
    case ReportFailure(id, gen, dependents) =>
      On(s, id, Report(gen)).(plans := s.plans[(id, s.mods[id].nextOp) := Plan(dependents, None)])
    case StopDependent(id, o) =>
      var p := s.plans[(id, o)];
      var d := p.rest[0];
      if d in s.mods && R.MayStopForDependency(s.mods[d].runner) then
        On(s, d, BeginDepStop).(plans := s.plans[(id, o) := Plan(p.rest[1..], Some((d, s.mods[d].nextOp)))])
      else s.(plans := s.plans[(id, o) := Plan(p.rest[1..], p.child)])
    case Local(id, l) => On(s, id, l)
    case Shutdown => s.(env := s.env.(stopped := true))
    case ApplyReload(cfgs, rel, policy) =>
      s.(mods := map id | id in s.mods :: Next(s.mods[id], s.env, Reconfigure(cfgs[id])),
         rel := rel, env := s.env.(policy := policy))
    case OpenStarts =>
      s.(mods := map id | id in s.mods ::
           if s.mods[id].tag == MustStart then Next(s.mods[id], s.env, OpenStart) else s.mods[id])
  }

  // ---- runs ----

  ghost predicate Runs(s: Sys, steps: seq<SysStep>)
    decreases steps
  {
    steps == [] || (Enabled(s, steps[0]) && Runs(Step(s, steps[0]), steps[1..]))
  }

  ghost function Exec(s: Sys, steps: seq<SysStep>): Sys
    requires Runs(s, steps)
    decreases steps
  {
    if steps == [] then s else Exec(Step(s, steps[0]), steps[1..])
  }

  /** A freshly registered module. */
  predicate FreshMod(m: Mod) {
    && m.ops == map[] && m.tag == Untouched && m.charged == [] && m.moves == []
    && m.runner.state == (if m.runner.cfg.enabled then Registered else Disabled)
    && m.runner.lease == None && !m.runner.opInFlight && m.runner.events == [] && m.runner.retryAt == None
    && m.runner.generation == 0 && m.runner.attempt == 0
  }

  predicate BudgetIsValid(env: Env, m: Mod) {
    R.ValidRestarts(env.policy, m.runner.max, m.runner.window)
  }

  /** The supervisor as Start leaves it before its first start attempt: every
      budget is the validated configuration's. */
  ghost predicate Init(s: Sys) {
    && (forall id :: id in s.mods ==> FreshMod(s.mods[id]) && BudgetIsValid(s.env, s.mods[id]))
    && (forall id :: id in s.starting ==> id in s.mods)
    && !s.env.stopped && s.granted == 0 && s.released == [] && s.due == [] && s.plans == map[]
  }

  // ---- lease conservation ----

  /** A place in the whole supervisor that can hold a lease; the log is the
      sequence of releases. */
  datatype Place = InModule(id: Id, h: Holder) | InLog(k: nat)

  ghost function LeaseAt(s: Sys, p: Place): Option<R.Lease> {
    match p
    case InModule(id, h) => if id in s.mods then Held(s.mods[id], h) else None
    case InLog(k) => if k < |s.released| then Some(s.released[k]) else None
  }

  ghost predicate Somewhere(s: Sys, l: R.Lease) {
    exists p :: LeaseAt(s, p) == Some(l)
  }

  /** Every lease the runtime granted is in exactly one place: a start in
      flight, a running module, a stop in flight, or the log, once. */
  ghost predicate Conserved(s: Sys) {
    && (forall p :: LeaseAt(s, p).Some? ==> LeaseAt(s, p).value < s.granted)
    && (forall p, q :: LeaseAt(s, p).Some? && LeaseAt(s, p) == LeaseAt(s, q) ==> p == q)
    && (forall l :: 0 <= l < s.granted ==> Somewhere(s, l))
  }

  ghost predicate ModsInv(s: Sys) {
    forall id :: id in s.mods ==> ModInv(s.mods[id], s.env)
  }

  ghost predicate SysInv(s: Sys) {
    ModsInv(s) && Conserved(s)
  }
}
