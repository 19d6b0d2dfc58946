/** One module under the supervisor's lifecycle protocol: its runner, the
    operations in flight for it, and the atomic steps that interleave on it.
    Everything the environment decides (call results, deadlines, scheduling,
    jitter) is a parameter of a step. */
module Protocol {
  import opened Wrappers
  import opened Lifecycle
  import opened RestartWindow
  import R = Runners

  type OpId = nat

  /** Where a start attempt is: before admission, inside Start, inside the
      cleanup Stop after a failed Start, or about to record its result.  A call
      that is late has overrun its deadline and is still executing. */
  datatype Stage = Admitting | Calling(late: bool) | Cleaning(v: R.Verdict, late: bool) | Finishing(v: R.Verdict)

  /** Where a stop is: before the call, inside it, past its deadline with the
      call still executing, or really returned. */
  datatype Phase = Pending | InCall | Overdue | Returned

  /** An operation in flight on its own goroutine, with the lease it holds. */
  datatype Op =
    | Start(gen: nat, stage: Stage, lease: Option<R.Lease>)
    | FailStop(phase: Phase, lease: Option<R.Lease>)
    | DepStop(phase: Phase, lease: Option<R.Lease>)
    | ModStop(phase: Phase, lease: Option<R.Lease>, byReload: bool)
    | LateRelease(lease: Option<R.Lease>)

  /** What the reload in progress still owes the module. */
  datatype Tag = Untouched | MustStop | BeingStopped | MustDisable | MustStart | MayStart

  /** `charged` is every failure charged since the window was last reset, and
      `moves` every state change so far; both only record. */
  datatype Mod = Mod(
    runner: R.RunnerState, ops: map<OpId, Op>, nextOp: OpId, tag: Tag,
    charged: seq<Time>, moves: seq<R.Move>)

  datatype Env = Env(stopped: bool, now: Time, policy: R.Policy)

  datatype ModStep =
    | Claim(depsRunning: bool, byReload: bool)
    | Admit(o: OpId, granted: Option<R.Lease>, v: R.Verdict)
    | DeadlinePasses(o: OpId)
    | StartReturns(o: OpId, v: R.Verdict)
    | CleanupReturns(o: OpId)
    | FinishStart(o: OpId, delay: nat)
    | ReleaseLate(o: OpId)
    | Report(gen: nat)
    | BeginDepStop
    | CallStop(o: OpId)
    | StopReturns(o: OpId, inTime: bool)
    | StopSettles(o: OpId)
    | EndFailStop(o: OpId, delay: nat)
    | EndDepStop(o: OpId, delay: nat)
    | EndModStop(o: OpId)
    | StopModule(byReload: bool)
    | DisableModule
    | Reconfigure(cfg: R.ModuleConfig)
    | OpenStart

  /** The three operations that hold a module's slot. */
  predicate IsSlot(op: Op) { op.Start? || op.FailStop? || op.DepStop? }

  predicate IsStop(op: Op) { op.FailStop? || op.DepStop? || op.ModStop? }

  ghost predicate Guard(m: Mod, env: Env, st: ModStep) {
    match st
    case Claim(_, byReload) => byReload ==> m.tag == MayStart
    case Admit(o, granted, v) =>
      o in m.ops && m.ops[o].Start? && m.ops[o].stage == Admitting && (granted.None? ==> v != R.Ok)
    case DeadlinePasses(o) =>
      o in m.ops && m.ops[o].Start? && (m.ops[o].stage.Calling? || m.ops[o].stage.Cleaning?) && !m.ops[o].stage.late
    case StartReturns(o, v) =>
      o in m.ops && m.ops[o].Start? && m.ops[o].stage.Calling? && (m.ops[o].stage.late ==> v == R.Erred)
    case CleanupReturns(o) => o in m.ops && m.ops[o].Start? && m.ops[o].stage.Cleaning?
    case FinishStart(o, _) => o in m.ops && m.ops[o].Start? && m.ops[o].stage.Finishing?
    case ReleaseLate(o) => o in m.ops && m.ops[o].LateRelease?
    case Report(gen) => R.MayFail(m.runner, env.stopped, gen)
    case BeginDepStop => R.MayStopForDependency(m.runner)
    case CallStop(o) => o in m.ops && m.ops[o].FailStop? && m.ops[o].phase == Pending
    case StopReturns(o, _) => o in m.ops && IsStop(m.ops[o]) && m.ops[o].phase == InCall
    case StopSettles(o) => o in m.ops && IsStop(m.ops[o]) && m.ops[o].phase == Overdue
    case EndFailStop(o, _) => o in m.ops && m.ops[o].FailStop? && m.ops[o].phase == Returned
    case EndDepStop(o, _) => o in m.ops && m.ops[o].DepStop? && m.ops[o].phase == Returned
    case EndModStop(o) => o in m.ops && m.ops[o].ModStop? && m.ops[o].phase in {Overdue, Returned}
    case StopModule(byReload) => if byReload then m.tag == MustStop else env.stopped
    case DisableModule => m.tag == MustDisable
    case Reconfigure(_) => m.tag == Untouched
    case OpenStart => m.tag == MustStart
  }

  /** A stopModule that the reload waits for. */
  predicate ReloadStop(op: Op) { op.ModStop? && op.byReload }

  // ---- the steps ----

  ghost function After(m: Mod, o: R.Outcome): Mod {
    m.(runner := o.runner, moves := m.moves + o.moves)
  }

  ghost function Begin(m: Mod, op: Op): Mod {
    m.(ops := m.ops[m.nextOp := op], nextOp := m.nextOp + 1)
  }

  ghost function Remove(m: Mod, o: OpId): Mod {
    m.(ops := m.ops - {o})
  }

  ghost function Update(m: Mod, o: OpId, op: Op): Mod {
    m.(ops := m.ops[o := op])
  }

  /** The failure history after a charge at `now`, if restarts are on. */
  ghost function Charge(m: Mod, env: Env): Mod {
    if env.policy.restart then m.(charged := m.charged + [env.now]) else m
  }

  ghost function ClaimStep(m: Mod, env: Env, depsRunning: bool, byReload: bool): Mod {
    var m' := if byReload then m.(tag := Untouched) else m;
    if !R.MayClaim(m.runner, env.stopped) then m'
    else if !depsRunning then After(m', R.Defer(m.runner, env.now, env.policy))
    else
      var taken := R.Take(m.runner);
      Begin(After(m', taken), Start(taken.runner.generation, Admitting, None))
  }

  ghost function FinishStep(m: Mod, env: Env, o: OpId, delay: nat): Mod
    requires o in m.ops && m.ops[o].Start? && m.ops[o].stage.Finishing?
  {
    var op := m.ops[o];
    var v := op.stage.v;
    var done := Remove(After(m, R.FinishStart(m.runner, op.gen, op.lease, v, env.now, env.policy, delay)), o);
    if R.Stale(m.runner, op.gen) then
      if op.lease.Some? then Begin(done, LateRelease(op.lease)) else done
    else if v == R.Erred then Charge(done, env)
    else done
  }

  ghost function StopModuleStep(m: Mod, byReload: bool): Mod {
    if Active(m.runner.state) then
      var m' := if byReload then m.(tag := BeingStopped) else m;
      Begin(After(m', R.BeginStopModule(m.runner)), ModStop(InCall, m.runner.lease, byReload))
    else
      After(if byReload then m.(tag := MustDisable) else m, R.StopInactive(m.runner))
  }

  ghost function EndModStopStep(m: Mod, o: OpId): Mod
    requires o in m.ops && m.ops[o].ModStop?
  {
    var m' := Remove(After(m, R.EndStopModule(m.runner)), o);
    if m.ops[o].byReload then m'.(tag := MustDisable) else m'
  }

  ghost function ReconfigureStep(m: Mod, env: Env, cfg: R.ModuleConfig): Mod {
    var was := m.runner.cfg.enabled;
    var released := m.runner.state == CrashLooping && cfg.enabled;
    After(m, R.Reconfigure(m.runner, cfg, env.now)).(
      tag := if was && !cfg.enabled then MustStop else if !was && cfg.enabled then MustStart else Untouched,
      charged := if released then [] else m.charged)
  }

  ghost function Next(m: Mod, env: Env, st: ModStep): Mod
    requires Guard(m, env, st)
  {
    match st
    case Claim(depsRunning, byReload) => ClaimStep(m, env, depsRunning, byReload)
    case Admit(o, granted, v) =>
      Update(m, o, m.ops[o].(stage := if granted.Some? then Calling(false) else Finishing(v), lease := granted))
    case DeadlinePasses(o) => Update(m, o, m.ops[o].(stage := m.ops[o].stage.(late := true)))
    case StartReturns(o, v) =>
      Update(m, o, m.ops[o].(stage := if v == R.Ok then Finishing(v) else Cleaning(v, false)))
    case CleanupReturns(o) =>
      Update(m, o, m.ops[o].(stage := Finishing(m.ops[o].stage.v), lease := None))
    case FinishStart(o, delay) => FinishStep(m, env, o, delay)
    case ReleaseLate(o) => Remove(m, o)
    case Report(_) =>
      Begin(After(m, R.BeginFailStop(m.runner)), FailStop(Pending, m.runner.lease))
    case BeginDepStop =>
      Begin(After(m, R.BeginDepStop(m.runner)), DepStop(InCall, m.runner.lease))
    case CallStop(o) => Update(m, o, FailStop(InCall, m.ops[o].lease))
    case StopReturns(o, inTime) =>
      Update(m, o, m.ops[o].(phase := if inTime then Returned else Overdue, lease := None))
    case StopSettles(o) => Update(m, o, m.ops[o].(phase := Returned))
    case EndFailStop(o, delay) =>
      Charge(Remove(After(m, R.EndFailStop(m.runner, env.now, env.policy, delay)), o), env)
    case EndDepStop(o, delay) => Remove(After(m, R.EndDepStop(m.runner, env.now, delay)), o)
    case EndModStop(o) => EndModStopStep(m, o)
    case StopModule(byReload) => StopModuleStep(m, byReload)
    case DisableModule => After(m, R.Disable(m.runner)).(tag := Untouched)
    case Reconfigure(cfg) => ReconfigureStep(m, env, cfg)
    case OpenStart => After(m, R.Reenable(m.runner)).(tag := MayStart)
  }

  // ---- what every step keeps ----

  /** A module's slot is taken exactly when one start, failure-stop or
      dependency-stop is in flight for it. */
  ghost predicate SlotExclusive(m: Mod) {
    && (m.runner.opInFlight <==> exists o :: o in m.ops && IsSlot(m.ops[o]))
    && forall o, p :: o in m.ops && p in m.ops && IsSlot(m.ops[o]) && IsSlot(m.ops[p]) ==> o == p
  }

  /** Only the current start attempt is Starting, and it is Starting. */
  ghost predicate StartsAreCurrent(m: Mod) {
    && (forall o :: o in m.ops && m.ops[o].Start? ==>
          m.ops[o].gen <= m.runner.generation
          && (m.ops[o].gen == m.runner.generation ==> m.runner.state == Starting))
    && (m.runner.state == Starting ==>
          exists o :: o in m.ops && m.ops[o].Start? && m.ops[o].gen == m.runner.generation)
  }

  /** A start attempt holds its lease from admission until it is handed on or
      the failed start is cleaned up; a stop gives its lease up when the call
      returns or its deadline passes. */
  ghost predicate StagesHoldLeases(m: Mod) {
    forall o :: o in m.ops ==> HoldsAsStaged(m.ops[o])
  }

  predicate HoldsAsStaged(op: Op) {
    && (op.Start? ==>
          (op.lease.Some? <==> op.stage.Calling? || op.stage.Cleaning? || op.stage == Finishing(R.Ok))
          && (op.stage.Cleaning? ==> op.stage.v != R.Ok))
    && (IsStop(op) && op.phase in {Overdue, Returned} ==> op.lease == None)
    && (op.LateRelease? ==> op.lease.Some?)
  }

  ghost predicate LeaseIffRunning(m: Mod) {
    m.runner.lease.Some? <==> m.runner.state == Running
  }

  /** A failure-stop or dependency-stop finds the module in one of these states. */
  ghost predicate StopsSeeStopping(m: Mod) {
    && (forall o :: o in m.ops && (m.ops[o].FailStop? || m.ops[o].DepStop?) ==>
          m.runner.state in {Stopping, Stopped, Disabled})
    && (m.runner.state == Stopping ==> exists o :: o in m.ops && IsStop(m.ops[o]))
  }

  /** A module being stopped for good cannot be started meanwhile. */
  ghost predicate StopModuleExcludesClaims(m: Mod, stopped: bool) {
    && (forall o :: o in m.ops && m.ops[o].ModStop? ==>
          (if m.ops[o].byReload then m.tag == BeingStopped else stopped)
          && m.runner.state in {Stopping, Stopped, Failed, CrashLooping, Disabled})
    && (forall o, p :: o in m.ops && p in m.ops && ReloadStop(m.ops[o]) && ReloadStop(m.ops[p]) ==> o == p)
    && (m.tag in {MustStop, BeingStopped, MustDisable} ==> !m.runner.cfg.enabled)
    && (m.tag == MustDisable ==> !Active(m.runner.state) && m.runner.state != Registered)
  }

  /** No module is ever paused: no step leads there. */
  ghost predicate NeverPaused(m: Mod) {
    m.runner.state !in {Pausing, Paused, Resuming}
  }

  /** The four state changes outside the table that the code can make. */
  predicate ExtraEdge(from: State, to: State) {
    || (from == Registered && to == Failed)
    || (from == Disabled && to == Failed)
    || (from == Starting && to == CrashLooping)
    || (from == Stopped && to == CrashLooping)
  }

  predicate Edge(from: State, to: State) {
    CanTransition(from, to) || ExtraEdge(from, to)
  }

  ghost predicate EdgesOnly(moves: seq<R.Move>) {
    forall i :: 0 <= i < |moves| ==> Edge(moves[i].from, moves[i].to)
  }

  lemma EdgesAppend(a: seq<R.Move>, b: seq<R.Move>)
    requires EdgesOnly(a) && EdgesOnly(b)
    ensures EdgesOnly(a + b)
  {
  }

  /** The pruned window is what charging the whole history since the last reset leaves. */
  ghost predicate WindowIsHistory(m: Mod, now: Time) {
    && m.runner.events == WindowAfter(m.charged, m.runner.window)
    && Nondecreasing(m.charged) && (m.charged != [] ==> Last(m.charged) <= now)
  }

  ghost predicate OpsAreNumbered(m: Mod) {
    forall o :: o in m.ops ==> o < m.nextOp
  }

  /** Who is in flight, and what the runner's state says about it. */
  ghost predicate InFlightInv(m: Mod, stopped: bool) {
    && OpsAreNumbered(m) && SlotExclusive(m) && StartsAreCurrent(m)
    && StopsSeeStopping(m) && StopModuleExcludesClaims(m, stopped) && NeverPaused(m)
  }

  /** The part of the invariant that records rather than coordinates. */
  ghost predicate RecordInv(m: Mod, now: Time) {
    EdgesOnly(m.moves) && WindowIsHistory(m, now)
  }

  ghost predicate LeaseInv(m: Mod) {
    LeaseIffRunning(m) && StagesHoldLeases(m)
  }

  /** A failed or quarantined module has nothing in its slot. */
  ghost predicate IdleWhenFailed(m: Mod) {
    m.runner.state in {Failed, CrashLooping} ==> !m.runner.opInFlight
  }

  ghost predicate ModInv(m: Mod, env: Env) {
    InFlightInv(m, env.stopped) && LeaseInv(m) && RecordInv(m, env.now) && IdleWhenFailed(m)
  }

  // Witnesses of the existential halves of the invariant.

  lemma SlotHolder(m: Mod) returns (o: OpId)
    requires SlotExclusive(m) && m.runner.opInFlight
    ensures o in m.ops && IsSlot(m.ops[o])
  {
    o :| o in m.ops && IsSlot(m.ops[o]);
  }

  lemma CurrentStart(m: Mod) returns (o: OpId)
    requires StartsAreCurrent(m) && m.runner.state == Starting
    ensures o in m.ops && m.ops[o].Start? && m.ops[o].gen == m.runner.generation
  {
    o :| o in m.ops && m.ops[o].Start? && m.ops[o].gen == m.runner.generation;
  }

  lemma Stopper(m: Mod) returns (o: OpId)
    requires StopsSeeStopping(m) && m.runner.state == Stopping
    ensures o in m.ops && IsStop(m.ops[o])
  {
    o :| o in m.ops && IsStop(m.ops[o]);
  }

  /** Replacing an operation by a later stage of itself, or removing a late
      release, disturbs no invariant about who is in flight. */
  lemma SameInFlight(m: Mod, m': Mod)
    requires SlotExclusive(m) && StartsAreCurrent(m) && StopsSeeStopping(m)
    requires m'.runner.opInFlight == m.runner.opInFlight && m'.runner.generation == m.runner.generation
    requires m'.runner.state == m.runner.state
    requires forall o :: o in m'.ops ==> o in m.ops
    requires forall o :: o in m.ops && (IsSlot(m.ops[o]) || IsStop(m.ops[o])) ==> o in m'.ops
    requires forall o :: o in m'.ops ==>
      && (IsSlot(m'.ops[o]) <==> IsSlot(m.ops[o])) && (IsStop(m'.ops[o]) <==> IsStop(m.ops[o]))
      && (m'.ops[o].Start? <==> m.ops[o].Start?) && (m'.ops[o].Start? ==> m'.ops[o].gen == m.ops[o].gen)
      && ((m'.ops[o].FailStop? || m'.ops[o].DepStop?) <==> (m.ops[o].FailStop? || m.ops[o].DepStop?))
    ensures SlotExclusive(m') && StartsAreCurrent(m') && StopsSeeStopping(m')
  {
    if m.runner.opInFlight { var w := SlotHolder(m); assert w in m'.ops && IsSlot(m'.ops[w]); }
    if m.runner.state == Starting { var w := CurrentStart(m); assert w in m'.ops && m'.ops[w].gen == m'.runner.generation; }
    if m.runner.state == Stopping { var w := Stopper(m); assert w in m'.ops && IsStop(m'.ops[w]); }
  }

  // ---- each step keeps who is in flight ----

  lemma ClaimInFlight(m: Mod, env: Env, depsRunning: bool, byReload: bool)
    requires InFlightInv(m, env.stopped) && (byReload ==> m.tag == MayStart)
    ensures InFlightInv(ClaimStep(m, env, depsRunning, byReload), env.stopped)
  {
    var m' := ClaimStep(m, env, depsRunning, byReload);
    if !R.MayClaim(m.runner, env.stopped) {
      SameInFlight(m, m');
    } else if depsRunning {
      assert m'.ops[m.nextOp].Start?;
    }
  }

  lemma FinishStaleInFlight(m: Mod, env: Env, o: OpId, delay: nat)
    requires InFlightInv(m, env.stopped) && Guard(m, env, FinishStart(o, delay))
    requires R.Stale(m.runner, m.ops[o].gen)
    ensures InFlightInv(FinishStep(m, env, o, delay), env.stopped)
  {
    var m' := FinishStep(m, env, o, delay);
    if m.runner.state == Starting { var w := CurrentStart(m); }
    if m.runner.state == Stopping { var w := Stopper(m); assert w in m'.ops && IsStop(m'.ops[w]); }
  }

  lemma FinishCurrentInFlight(m: Mod, env: Env, o: OpId, delay: nat)
    requires InFlightInv(m, env.stopped) && Guard(m, env, FinishStart(o, delay))
    requires !R.Stale(m.runner, m.ops[o].gen)
    ensures InFlightInv(FinishStep(m, env, o, delay), env.stopped)
  {
    var m' := FinishStep(m, env, o, delay);
    R.FailEffects(R.Outcome(m.runner.(opInFlight := false), []), env.now, env.policy, delay);
    hide R.Fail, Recorded;
    assert m'.ops == m.ops - {o} && m'.nextOp == m.nextOp && m'.tag == m.tag;
    assert m'.runner.state in {Running, Unsupported, Failed, CrashLooping};
    assert m'.runner.cfg == m.runner.cfg && m'.runner.generation == m.runner.generation;
    assert !m'.runner.opInFlight;
  }

  lemma ReportInFlight(m: Mod, env: Env, gen: nat)
    requires InFlightInv(m, env.stopped) && Guard(m, env, Report(gen))
    ensures InFlightInv(Next(m, env, Report(gen)), env.stopped)
  {
    assert Next(m, env, Report(gen)).ops[m.nextOp].FailStop?;
  }

  lemma BeginDepStopInFlight(m: Mod, env: Env)
    requires InFlightInv(m, env.stopped) && Guard(m, env, BeginDepStop)
    ensures InFlightInv(Next(m, env, BeginDepStop), env.stopped)
  {
    assert Next(m, env, BeginDepStop).ops[m.nextOp].DepStop?;
  }

  lemma StopActiveInFlight(m: Mod, env: Env, byReload: bool)
    requires InFlightInv(m, env.stopped) && Guard(m, env, StopModule(byReload)) && Active(m.runner.state)
    ensures InFlightInv(StopModuleStep(m, byReload), env.stopped)
  {
    var m' := StopModuleStep(m, byReload);
    if m.runner.opInFlight { var w := SlotHolder(m); assert w in m'.ops && IsSlot(m'.ops[w]); }
    assert m'.ops[m.nextOp].ModStop?;
  }

  lemma StopInactiveInFlight(m: Mod, env: Env, byReload: bool)
    requires InFlightInv(m, env.stopped) && Guard(m, env, StopModule(byReload)) && !Active(m.runner.state)
    ensures InFlightInv(StopModuleStep(m, byReload), env.stopped)
  {
    var m' := StopModuleStep(m, byReload);
    assert m'.ops == m.ops;
    if m.runner.opInFlight { var w := SlotHolder(m); assert w in m'.ops && IsSlot(m'.ops[w]); }
  }

  lemma EndModStopInFlight(m: Mod, env: Env, o: OpId)
    requires InFlightInv(m, env.stopped) && Guard(m, env, EndModStop(o))
    ensures InFlightInv(EndModStopStep(m, o), env.stopped)
  {
    var m' := EndModStopStep(m, o);
    if m.runner.opInFlight { var w := SlotHolder(m); assert w in m'.ops && IsSlot(m'.ops[w]); }
  }

  lemma EndDepStopInFlight(m: Mod, env: Env, o: OpId, delay: nat)
    requires InFlightInv(m, env.stopped) && Guard(m, env, EndDepStop(o, delay))
    ensures InFlightInv(Next(m, env, EndDepStop(o, delay)), env.stopped)
  {
  }

  lemma EndFailStopInFlight(m: Mod, env: Env, o: OpId, delay: nat)
    requires InFlightInv(m, env.stopped) && Guard(m, env, EndFailStop(o, delay))
    ensures InFlightInv(Next(m, env, EndFailStop(o, delay)), env.stopped)
  {
    R.FailEffects(R.SetState(R.Outcome(m.runner.(opInFlight := false), []), Stopped), env.now, env.policy, delay);
    hide R.Fail, Recorded;
  }

  lemma ReconfigureInFlight(m: Mod, env: Env, cfg: R.ModuleConfig)
    requires InFlightInv(m, env.stopped) && Guard(m, env, Reconfigure(cfg))
    ensures InFlightInv(ReconfigureStep(m, env, cfg), env.stopped)
  {
    var m' := ReconfigureStep(m, env, cfg);
    if m.runner.opInFlight { var w := SlotHolder(m); assert w in m'.ops && IsSlot(m'.ops[w]); }
  }

  lemma StartStagesInFlight(m: Mod, env: Env, st: ModStep)
    requires InFlightInv(m, env.stopped) && Guard(m, env, st)
    requires st.Admit? || st.DeadlinePasses? || st.StartReturns? || st.CleanupReturns?
    ensures InFlightInv(Next(m, env, st), env.stopped)
  {
    hide Next, Guard, SlotExclusive, StartsAreCurrent, StopsSeeStopping;
    NextStage(m, env, st);
    SameInFlight(m, Next(m, env, st));
  }

  lemma NextStage(m: Mod, env: Env, st: ModStep)
    requires Guard(m, env, st)
    requires st.Admit? || st.DeadlinePasses? || st.StartReturns? || st.CleanupReturns?
    ensures var m' := Next(m, env, st);
      && st.o in m.ops && m.ops[st.o].Start? && st.o in m'.ops && m' == m.(ops := m.ops[st.o := m'.ops[st.o]])
      && m'.ops[st.o].Start? && m'.ops[st.o].gen == m.ops[st.o].gen
  {
  }

  lemma StopPhaseInFlight(m: Mod, env: Env, o: OpId, op: Op)
    requires InFlightInv(m, env.stopped) && o in m.ops && IsStop(m.ops[o])
    requires op.FailStop? == m.ops[o].FailStop? && op.DepStop? == m.ops[o].DepStop? && op.ModStop? == m.ops[o].ModStop?
    requires op.ModStop? ==> op.byReload == m.ops[o].byReload
    ensures InFlightInv(Update(m, o, op), env.stopped)
  {
    SameInFlight(m, Update(m, o, op));
  }

  lemma TagsInFlight(m: Mod, env: Env, st: ModStep)
    requires InFlightInv(m, env.stopped) && Guard(m, env, st)
    requires st.DisableModule? || st.OpenStart? || st.ReleaseLate?
    ensures InFlightInv(Next(m, env, st), env.stopped)
  {
    var m' := Next(m, env, st);
    if m.runner.opInFlight { var w := SlotHolder(m); assert w in m'.ops && IsSlot(m'.ops[w]); }
    if m'.runner.state == Starting { var w := CurrentStart(m); assert w in m'.ops && m'.ops[w].gen == m'.runner.generation; }
    if m'.runner.state == Stopping { var w := Stopper(m); assert w in m'.ops && IsStop(m'.ops[w]); }
  }

  lemma StepInFlight(m: Mod, env: Env, st: ModStep)
    requires InFlightInv(m, env.stopped) && Guard(m, env, st)
    ensures InFlightInv(Next(m, env, st), env.stopped)
  {
    hide InFlightInv;
    match st
    case Claim(depsRunning, byReload) => ClaimInFlight(m, env, depsRunning, byReload);
    case FinishStart(o, delay) =>
      if R.Stale(m.runner, m.ops[o].gen) { FinishStaleInFlight(m, env, o, delay); } else { FinishCurrentInFlight(m, env, o, delay); }
    case Report(gen) => ReportInFlight(m, env, gen);
    case BeginDepStop => BeginDepStopInFlight(m, env);
    case StopModule(byReload) =>
      if Active(m.runner.state) { StopActiveInFlight(m, env, byReload); } else { StopInactiveInFlight(m, env, byReload); }
    case EndModStop(o) => EndModStopInFlight(m, env, o);
    case EndDepStop(o, delay) => EndDepStopInFlight(m, env, o, delay);
    case EndFailStop(o, delay) => EndFailStopInFlight(m, env, o, delay);
    case Reconfigure(cfg) => ReconfigureInFlight(m, env, cfg);
    case Admit(_, _, _) => StartStagesInFlight(m, env, st);
    case DeadlinePasses(_) => StartStagesInFlight(m, env, st);
    case StartReturns(_, _) => StartStagesInFlight(m, env, st);
    case CleanupReturns(_) => StartStagesInFlight(m, env, st);
    case CallStop(o) => StopPhaseInFlight(m, env, o, FailStop(InCall, m.ops[o].lease));
    case StopReturns(o, inTime) =>
      StopPhaseInFlight(m, env, o, m.ops[o].(phase := if inTime then Returned else Overdue, lease := None));
    case StopSettles(o) => StopPhaseInFlight(m, env, o, m.ops[o].(phase := Returned));
    case DisableModule => TagsInFlight(m, env, st);
    case OpenStart => TagsInFlight(m, env, st);
    case ReleaseLate(_) => TagsInFlight(m, env, st);
  }

  // ---- each step keeps the record ----

  lemma FailRecords(m: Mod, env: Env, o: R.Outcome, delay: nat)
    requires WindowIsHistory(m, env.now) && EdgesOnly(o.moves)
    requires o.runner.events == m.runner.events && o.runner.window == m.runner.window
    requires o.runner.state in {Starting, Stopped}
    ensures var f := R.Fail(o, env.now, env.policy, delay);
      && EdgesOnly(f.moves)
      && WindowIsHistory(Charge(After(m, f), env), env.now)
  {
    R.FailEffects(o, env.now, env.policy, delay);
    ChargeExtendsHistory(m.charged, m.runner.window, env.now);
    var f := R.Fail(o, env.now, env.policy, delay);
    assert Edge(o.runner.state, f.runner.state);
    EdgesAppend(o.moves, if o.runner.state == f.runner.state then [] else [R.Move(o.runner.state, f.runner.state)]);
    hide R.Fail, Recorded, WindowAfter, Nondecreasing;
    assert f.runner.window == m.runner.window;
  }

  lemma FinishRecords(m: Mod, env: Env, o: OpId, delay: nat)
    requires InFlightInv(m, env.stopped) && RecordInv(m, env.now) && Guard(m, env, FinishStart(o, delay))
    ensures RecordInv(FinishStep(m, env, o, delay), env.now)
  {
    var op := m.ops[o];
    var out := R.FinishStart(m.runner, op.gen, op.lease, op.stage.v, env.now, env.policy, delay);
    FinishFacts(m, env, o, delay);
    hide InFlightInv;
    if !R.Stale(m.runner, op.gen) && op.stage.v == R.Erred {
      FailRecords(m, env, R.Outcome(m.runner.(opInFlight := false), []), delay);
      hide R.Fail, WindowIsHistory;
      EdgesAppend(m.moves, out.moves);
      hide EdgesOnly;
    } else {
      EdgesAppend(m.moves, out.moves);
    }
  }

  lemma FinishFacts(m: Mod, env: Env, o: OpId, delay: nat)
    requires InFlightInv(m, env.stopped) && Guard(m, env, FinishStart(o, delay))
    ensures !R.Stale(m.runner, m.ops[o].gen) ==> m.runner.state == Starting
  {
  }

  /** The end of a stop, or of a disabling, never finds the module running. */
  lemma StoppedForGood(m: Mod, env: Env, st: ModStep)
    requires InFlightInv(m, env.stopped) && Guard(m, env, st)
    requires st.EndFailStop? || st.EndDepStop? || st.EndModStop? || st.DisableModule?
    ensures m.runner.state !in {Registered, Starting, Running, Pausing, Paused, Resuming}
    ensures st.EndFailStop? || st.EndDepStop? ==> m.runner.state in {Stopping, Stopped, Disabled}
    ensures st.DisableModule? ==> m.runner.state != Stopping
  {
  }

  lemma EndFailStopRecords(m: Mod, env: Env, o: OpId, delay: nat)
    requires InFlightInv(m, env.stopped) && RecordInv(m, env.now) && Guard(m, env, EndFailStop(o, delay))
    ensures RecordInv(Next(m, env, EndFailStop(o, delay)), env.now)
  {
    var first := R.SetState(R.Outcome(m.runner.(opInFlight := false), []), Stopped);
    StoppedForGood(m, env, EndFailStop(o, delay));
    hide InFlightInv;
    FailRecords(m, env, first, delay);
    var out := R.EndFailStop(m.runner, env.now, env.policy, delay);
    hide R.Fail, WindowIsHistory;
    EdgesAppend(m.moves, out.moves);
    hide EdgesOnly;
  }

  /** The steps that change the runner without charging it. */
  lemma QuietRecords(m: Mod, env: Env, out: R.Outcome)
    requires RecordInv(m, env.now) && EdgesOnly(out.moves)
    requires out.runner.events == m.runner.events && out.runner.window == m.runner.window
    ensures RecordInv(After(m, out), env.now)
  {
    EdgesAppend(m.moves, out.moves);
  }

  lemma SameRecord(m: Mod, m': Mod, now: Time)
    requires RecordInv(m, now) && m'.runner == m.runner && m'.moves == m.moves && m'.charged == m.charged
    ensures RecordInv(m', now)
  {
  }

  lemma StopRecords(m: Mod, env: Env, st: ModStep)
    requires InFlightInv(m, env.stopped) && RecordInv(m, env.now) && Guard(m, env, st)
    requires st.EndModStop? || st.EndDepStop? || st.DisableModule?
    ensures RecordInv(Next(m, env, st), env.now)
  {
    hide InFlightInv, RecordInv;
    StoppedForGood(m, env, st);
    var out :=
      if st.EndModStop? then R.EndStopModule(m.runner)
      else if st.EndDepStop? then R.EndDepStop(m.runner, env.now, st.delay)
      else R.Disable(m.runner);
    QuietRecords(m, env, out);
    SameRecord(After(m, out), Next(m, env, st), env.now);
  }

  lemma BeginRecords(m: Mod, env: Env, st: ModStep)
    requires InFlightInv(m, env.stopped) && RecordInv(m, env.now) && Guard(m, env, st)
    requires st.Report? || st.BeginDepStop? || st.StopModule? || st.OpenStart?
    ensures RecordInv(Next(m, env, st), env.now)
  {
    hide RecordInv;
    assert NeverPaused(m);
    var out :=
      if st.Report? then R.BeginFailStop(m.runner)
      else if st.BeginDepStop? then R.BeginDepStop(m.runner)
      else if st.OpenStart? then R.Reenable(m.runner)
      else if Active(m.runner.state) then R.BeginStopModule(m.runner)
      else R.StopInactive(m.runner);
    QuietRecords(m, env, out);
    SameRecord(After(m, out), Next(m, env, st), env.now);
  }

  lemma ClaimRecords(m: Mod, env: Env, depsRunning: bool, byReload: bool)
    requires InFlightInv(m, env.stopped) && RecordInv(m, env.now)
    ensures RecordInv(ClaimStep(m, env, depsRunning, byReload), env.now)
  {
    if R.MayClaim(m.runner, env.stopped) {
      QuietRecords(m, env, if depsRunning then R.Take(m.runner) else R.Defer(m.runner, env.now, env.policy));
    }
  }

  lemma ReconfigureRecords(m: Mod, env: Env, cfg: R.ModuleConfig)
    requires RecordInv(m, env.now)
    ensures RecordInv(ReconfigureStep(m, env, cfg), env.now)
  {
    var out := R.Reconfigure(m.runner, cfg, env.now);
    EdgesAppend(m.moves, out.moves);
  }

  // ---- each step keeps the leases where they belong ----

  lemma FailHasNoLease(o: R.Outcome, now: Time, policy: R.Policy, delay: nat)
    requires o.runner.lease == None
    ensures R.Fail(o, now, policy, delay).runner.lease == None
    ensures R.Fail(o, now, policy, delay).runner.state in {Failed, CrashLooping}
  {
  }

  lemma FinishLeases(m: Mod, env: Env, o: OpId, delay: nat)
    requires InFlightInv(m, env.stopped) && LeaseInv(m) && Guard(m, env, FinishStart(o, delay))
    ensures LeaseInv(FinishStep(m, env, o, delay))
  {
    hide InFlightInv, R.Fail;
    FinishFacts(m, env, o, delay);
    assert HoldsAsStaged(m.ops[o]);
    if m.runner.lease == None {
      FailHasNoLease(R.Outcome(m.runner.(opInFlight := false), []), env.now, env.policy, delay);
    }
  }

  lemma EndFailStopLeases(m: Mod, env: Env, o: OpId, delay: nat)
    requires LeaseInv(m) && m.runner.state != Running && Guard(m, env, EndFailStop(o, delay))
    ensures LeaseInv(Next(m, env, EndFailStop(o, delay)))
  {
    hide R.Fail, HoldsAsStaged;
    FailHasNoLease(R.SetState(R.Outcome(m.runner.(opInFlight := false), []), Stopped), env.now, env.policy, delay);
  }

  lemma EndStopLeases(m: Mod, env: Env, st: ModStep)
    requires LeaseInv(m) && m.runner.state != Running && Guard(m, env, st)
    requires st.EndDepStop? || st.EndModStop? || st.DisableModule?
    ensures LeaseInv(Next(m, env, st))
  {
    hide HoldsAsStaged;
    match st
    case EndDepStop(_, _) =>
    case EndModStop(_) =>
    case DisableModule =>
  }

  lemma EndLeases(m: Mod, env: Env, st: ModStep)
    requires InFlightInv(m, env.stopped) && LeaseInv(m) && Guard(m, env, st)
    requires st.EndFailStop? || st.EndDepStop? || st.EndModStop? || st.DisableModule?
    ensures LeaseInv(Next(m, env, st))
  {
    hide *;
    StoppedForGood(m, env, st);
    match st
    case EndFailStop(o, delay) => EndFailStopLeases(m, env, o, delay);
    case _ => EndStopLeases(m, env, st);
  }

  lemma CallLeases(m: Mod, env: Env, st: ModStep)
    requires LeaseInv(m) && Guard(m, env, st)
    requires st.Admit? || st.DeadlinePasses? || st.StartReturns? || st.CleanupReturns? || st.CallStop? || st.StopReturns? || st.StopSettles? || st.ReleaseLate?
    ensures LeaseInv(Next(m, env, st))
  {
    assert HoldsAsStaged(m.ops[st.o]);
  }

  lemma BeginStopLeases(m: Mod, env: Env, st: ModStep)
    requires LeaseInv(m) && NeverPaused(m) && Guard(m, env, st)
    requires st.Report? || st.BeginDepStop? || st.StopModule?
    ensures LeaseInv(Next(m, env, st))
  {
    match st
    case Report(_) =>
    case BeginDepStop =>
    case StopModule(_) =>
  }

  lemma QuietLeases(m: Mod, env: Env, st: ModStep)
    requires LeaseInv(m) && NeverPaused(m) && Guard(m, env, st)
    requires st.OpenStart? || st.Reconfigure? || st.Claim?
    ensures LeaseInv(Next(m, env, st))
  {
    match st
    case OpenStart =>
    case Reconfigure(_) =>
    case Claim(_, _) =>
  }

  lemma StepIdle(m: Mod, env: Env, st: ModStep)
    requires IdleWhenFailed(m) && Guard(m, env, st)
    ensures IdleWhenFailed(Next(m, env, st))
  {
    hide R.Fail;
    match st
    case FinishStart(o, delay) => R.FailEffects(R.Outcome(m.runner.(opInFlight := false), []), env.now, env.policy, delay);
    case EndFailStop(o, delay) =>
      R.FailEffects(R.SetState(R.Outcome(m.runner.(opInFlight := false), []), Stopped), env.now, env.policy, delay);
    case _ =>
  }

  /** Every step keeps the whole invariant. */
  lemma StepKeeps(m: Mod, env: Env, st: ModStep)
    requires ModInv(m, env) && Guard(m, env, st)
    ensures ModInv(Next(m, env, st), env)
  {
    hide InFlightInv, LeaseInv, RecordInv, IdleWhenFailed, Guard;
    StepInFlight(m, env, st);
    StepLeases(m, env, st);
    StepIdle(m, env, st);
    StepRecords(m, env, st);
  }

  lemma StepRecords(m: Mod, env: Env, st: ModStep)
    requires InFlightInv(m, env.stopped) && RecordInv(m, env.now) && Guard(m, env, st)
    ensures RecordInv(Next(m, env, st), env.now)
  {
    hide InFlightInv;
    match st
    case FinishStart(o, delay) => FinishRecords(m, env, o, delay);
    case EndFailStop(o, delay) => EndFailStopRecords(m, env, o, delay);
    case Reconfigure(cfg) => ReconfigureRecords(m, env, cfg);
    case Claim(depsRunning, byReload) => ClaimRecords(m, env, depsRunning, byReload);
    case Report(_) => BeginRecords(m, env, st);
    case BeginDepStop => BeginRecords(m, env, st);
    case StopModule(_) => BeginRecords(m, env, st);
    case OpenStart => BeginRecords(m, env, st);
    case EndModStop(_) => StopRecords(m, env, st);
    case EndDepStop(_, _) => StopRecords(m, env, st);
    case DisableModule => StopRecords(m, env, st);
    case _ =>
  }

  lemma StepLeases(m: Mod, env: Env, st: ModStep)
    requires InFlightInv(m, env.stopped) && LeaseInv(m) && Guard(m, env, st)
    ensures LeaseInv(Next(m, env, st))
  {
    hide LeaseInv, SlotExclusive, StartsAreCurrent, StopsSeeStopping, StopModuleExcludesClaims, OpsAreNumbered, Guard;
    assert NeverPaused(m);
    match st
    case FinishStart(o, delay) => FinishLeases(m, env, o, delay);
    case EndFailStop(_, _) => EndLeases(m, env, st);
    case EndModStop(_) => EndLeases(m, env, st);
    case EndDepStop(_, _) => EndLeases(m, env, st);
    case DisableModule => EndLeases(m, env, st);
    case Reconfigure(_) => QuietLeases(m, env, st);
    case Claim(_, _) => QuietLeases(m, env, st);
    case Report(_) => BeginStopLeases(m, env, st);
    case BeginDepStop => BeginStopLeases(m, env, st);
    case StopModule(_) => BeginStopLeases(m, env, st);
    case OpenStart => QuietLeases(m, env, st);
    case _ => CallLeases(m, env, st);
  }
}
