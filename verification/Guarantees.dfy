/** The supervisor's guarantees, each over every run. */
module Guarantees {
  import opened Wrappers
  import opened Lifecycle
  import opened RestartWindow
  import opened StartOrders
  import R = Runners
  import opened Protocol
  import opened Leases
  import opened Supervision
  import opened Safety

  /** After any run from start-up: every module's slot is exclusive, only the
      current start attempt is Starting, a lease is held by the runner exactly
      while it is Running, every state change so far is an edge of the table or
      one of the four extra ones, and leases are conserved. */
  lemma RunsAreSafe(s: Sys, steps: seq<SysStep>)
    requires Init(s) && Runs(s, steps)
    ensures var t := Exec(s, steps);
      && Conserved(t)
      && forall id :: id in t.mods ==>
           && SlotExclusive(t.mods[id]) && StartsAreCurrent(t.mods[id])
           && LeaseIffRunning(t.mods[id]) && EdgesOnly(t.mods[id].moves)
  {
    InitInv(s);
    RunInv(s, steps);
  }

  // ---- stepping one module through a step of the whole ----

  /** How step `st` acts on module `id`: not at all, or by one of its own steps. */
  ghost function ActionOn(s: Sys, st: SysStep, id: Id): Option<ModStep>
    requires Enabled(s, st) && id in s.mods
  {
    match st
    case Tick(_) => None
    case CollectDue(_) => None
    case ClaimDue => if s.due[0] == id then Some(Claim(DepsRunning(s, id), false)) else None
    case ClaimListed => if s.starting[0] == id then Some(Claim(DepsRunning(s, id), false)) else None
    case ClaimReload(j) => if j == id then Some(Claim(DepsRunning(s, id), true)) else None
    case AdmitStart(j, o, ok, v) => if j == id then Some(Admit(o, if ok then Some(s.granted) else None, v)) else None
    case ReportFailure(j, gen, _) => if j == id then Some(Report(gen)) else None
    case StopDependent(j, o) =>
      if s.plans[(j, o)].rest[0] == id && R.MayStopForDependency(s.mods[id].runner) then Some(BeginDepStop) else None
    case Local(j, l) => if j == id then Some(l) else None
    case Shutdown => None
    case ApplyReload(cfgs, _, _) => Some(Reconfigure(cfgs[id]))
    case OpenStarts => if s.mods[id].tag == MustStart then Some(OpenStart) else None
  }

  lemma ActionOnAll(s: Sys, st: SysStep, id: Id)
    requires Enabled(s, st) && id in s.mods && (st.ApplyReload? || st.OpenStarts?)
    ensures id in Step(s, st).mods
    ensures match ActionOn(s, st, id)
            case None => Step(s, st).mods[id] == s.mods[id]
            case Some(l) => Guard(s.mods[id], s.env, l) && Step(s, st).mods[id] == Next(s.mods[id], s.env, l)
  {
    hide Next, DepsRunning;
  }

  lemma ActionOnOne(s: Sys, st: SysStep, id: Id)
    requires Enabled(s, st) && id in s.mods && !st.ApplyReload? && !st.OpenStarts?
    ensures id in Step(s, st).mods
    ensures match ActionOn(s, st, id)
            case None => Step(s, st).mods[id] == s.mods[id]
            case Some(l) => Guard(s.mods[id], s.env, l) && Step(s, st).mods[id] == Next(s.mods[id], s.env, l)
  {
    hide Next, DepsRunning, R.MayStopForDependency, Released;
  }

  lemma ActionOnIs(s: Sys, st: SysStep, id: Id)
    requires Enabled(s, st) && id in s.mods
    ensures id in Step(s, st).mods
    ensures match ActionOn(s, st, id)
            case None => Step(s, st).mods[id] == s.mods[id]
            case Some(l) => Guard(s.mods[id], s.env, l) && Step(s, st).mods[id] == Next(s.mods[id], s.env, l)
  {
    hide *;
    if st.ApplyReload? || st.OpenStarts? { ActionOnAll(s, st, id); } else { ActionOnOne(s, st, id); }
  }

  lemma InvAt(s: Sys, id: Id)
    requires SysInv(s) && id in s.mods
    ensures ModInv(s.mods[id], s.env) && InFlightInv(s.mods[id], s.env.stopped) && SlotExclusive(s.mods[id])
  {
  }

  // ---- no resurrection ----

  /** Operation `o` is over, or is a start attempt of an earlier generation. */
  ghost predicate Outdated(m: Mod, o: OpId) {
    o < m.nextOp && (o in m.ops ==> m.ops[o].Start? && m.ops[o].gen < m.runner.generation)
  }

  lemma OutdatedFinish(m: Mod, env: Env, p: OpId, delay: nat, o: OpId)
    requires Guard(m, env, FinishStart(p, delay)) && Outdated(m, o)
    ensures Outdated(FinishStep(m, env, p, delay), o)
  {
    hide R.Fail;
    R.FailEffects(R.Outcome(m.runner.(opInFlight := false), []), env.now, env.policy, delay);
  }

  lemma OutdatedEndFail(m: Mod, env: Env, p: OpId, delay: nat, o: OpId)
    requires Guard(m, env, EndFailStop(p, delay)) && Outdated(m, o)
    ensures Outdated(Next(m, env, EndFailStop(p, delay)), o)
  {
    hide R.Fail;
    R.FailEffects(R.SetState(R.Outcome(m.runner.(opInFlight := false), []), Stopped), env.now, env.policy, delay);
  }

  lemma OutdatedRest(m: Mod, env: Env, st: ModStep, o: OpId)
    requires Guard(m, env, st) && Outdated(m, o) && !st.FinishStart? && !st.EndFailStop?
    ensures Outdated(Next(m, env, st), o)
  {
    hide Recorded;
  }

  lemma OutdatedStays(m: Mod, env: Env, st: ModStep, o: OpId)
    requires Guard(m, env, st) && Outdated(m, o)
    ensures Outdated(Next(m, env, st), o)
  {
    hide Outdated, Guard;
    match st
    case FinishStart(p, delay) => OutdatedFinish(m, env, p, delay, o);
    case EndFailStop(p, delay) => OutdatedEndFail(m, env, p, delay, o);
    case _ => OutdatedRest(m, env, st, o);
  }

  lemma {:induction false} OutdatedForever(s: Sys, steps: seq<SysStep>, id: Id, o: OpId)
    requires Runs(s, steps) && id in s.mods && Outdated(s.mods[id], o)
    ensures id in Exec(s, steps).mods && Outdated(Exec(s, steps).mods[id], o)
    decreases steps
  {
    if steps != [] {
      var a := ActionOn(s, steps[0], id);
      ActionOnIs(s, steps[0], id);
      if a.Some? { OutdatedStays(s.mods[id], s.env, a.value, o); }
      hide Outdated, Next, Guard;
      OutdatedForever(Step(s, steps[0]), steps[1..], id, o);
    }
  }

  /** A start attempt in flight when its module is stopped never touches the
      module's state again, whatever happens in between: its end only gives the
      slot back, and passes its lease on for release. */
  lemma NoResurrection(s: Sys, id: Id, byReload: bool, o: OpId, steps: seq<SysStep>, delay: nat)
    requires SysInv(s) && Enabled(s, Local(id, StopModule(byReload))) && Active(s.mods[id].runner.state)
    requires o in s.mods[id].ops && s.mods[id].ops[o].Start?
    requires Runs(Step(s, Local(id, StopModule(byReload))), steps)
    requires Enabled(Exec(Step(s, Local(id, StopModule(byReload))), steps), Local(id, FinishStart(o, delay)))
    ensures var t := Exec(Step(s, Local(id, StopModule(byReload))), steps);
      var u := Step(t, Local(id, FinishStart(o, delay)));
      && u.mods[id].runner == t.mods[id].runner.(opInFlight := false)
      && u.mods[id].moves == t.mods[id].moves
      && (t.mods[id].ops[o].lease.Some? ==>
            t.mods[id].nextOp in u.mods[id].ops && u.mods[id].ops[t.mods[id].nextOp] == LateRelease(t.mods[id].ops[o].lease))
  {
    var m := s.mods[id];
    InvAt(s, id);
    hide *;
    LocalIs(s, id, StopModule(byReload));
    StopOutdates(m, s.env, byReload, o);
    var s1 := Step(s, Local(id, StopModule(byReload)));
    OutdatedForever(s1, steps, id, o);
    var t := Exec(s1, steps);
    LocalIs(t, id, FinishStart(o, delay));
    FinishOutdated(t.mods[id], t.env, o, delay);
  }

  lemma LocalIs(s: Sys, id: Id, l: ModStep)
    requires Enabled(s, Local(id, l))
    ensures id in s.mods && id in Step(s, Local(id, l)).mods
    ensures Guard(s.mods[id], s.env, l) && Step(s, Local(id, l)).mods[id] == Next(s.mods[id], s.env, l)
  {
    hide Next, Guard;
  }

  lemma StopOutdates(m: Mod, env: Env, byReload: bool, o: OpId)
    requires InFlightInv(m, env.stopped) && Guard(m, env, StopModule(byReload)) && Active(m.runner.state)
    requires o in m.ops && m.ops[o].Start?
    ensures Outdated(Next(m, env, StopModule(byReload)), o)
  {
  }

  lemma FinishOutdated(m: Mod, env: Env, o: OpId, delay: nat)
    requires Outdated(m, o) && Guard(m, env, FinishStart(o, delay))
    ensures o in m.ops
    ensures var m' := Next(m, env, FinishStart(o, delay));
      && m'.runner == m.runner.(opInFlight := false) && m'.moves == m.moves
      && (m.ops[o].lease.Some? ==> m.nextOp in m'.ops && m'.ops[m.nextOp] == LateRelease(m.ops[o].lease))
  {
    assert R.Stale(m.runner, m.ops[o].gen);
  }

  // ---- quarantine ----

  /** Out of service, with no claim still pending for the module. */
  ghost predicate Benched(s: Sys, id: Id) {
    && id in s.mods && OffDuty(s.mods[id])
    && id !in s.due && id !in s.starting
  }

  ghost predicate OffDuty(m: Mod) {
    !m.runner.opInFlight && m.runner.state in {CrashLooping, Stopped, Disabled} && m.tag !in {MustStart, MayStart}
  }

  lemma OffDutyStays(m: Mod, env: Env, st: ModStep)
    requires SlotExclusive(m) && Guard(m, env, st) && OffDuty(m)
    requires !st.Claim? && !st.Reconfigure?
    ensures OffDuty(Next(m, env, st))
  {
    assert forall o :: o in m.ops ==> !IsSlot(m.ops[o]);
  }

  lemma BenchedStep(s: Sys, st: SysStep, id: Id)
    requires SysInv(s) && Enabled(s, st) && Benched(s, id) && !st.ApplyReload?
    ensures Benched(Step(s, st), id)
  {
    InvAt(s, id);
    NotClaimed(s, st, id);
    NotListed(s, st, id);
    ActionOnIs(s, st, id);
    assert OffDuty(s.mods[id]);
    hide SysInv, Step, Enabled, Guard, Next, OffDuty, ActionOn, InFlightInv, ModInv, SlotExclusive;
    var a := ActionOn(s, st, id);
    if a.Some? {
      OffDutyStays(s.mods[id], s.env, a.value);
    }
  }

  lemma NotClaimed(s: Sys, st: SysStep, id: Id)
    requires Enabled(s, st) && Benched(s, id) && !st.ApplyReload?
    ensures ActionOn(s, st, id).Some? ==> !ActionOn(s, st, id).value.Claim? && !ActionOn(s, st, id).value.Reconfigure?
  {
    hide Next, DepsRunning;
  }

  lemma NotListed(s: Sys, st: SysStep, id: Id)
    requires Enabled(s, st) && Benched(s, id)
    ensures id !in Step(s, st).due && id !in Step(s, st).starting
  {
    hide Next, DepsRunning, Guard;
  }

  /** Once a module is quarantined and no claim list drawn up earlier names it,
      no run without a reload starts it again. */
  lemma {:induction false} QuarantineHolds(s: Sys, steps: seq<SysStep>, id: Id)
    requires SysInv(s) && Runs(s, steps) && Benched(s, id)
    requires forall i :: 0 <= i < |steps| ==> !steps[i].ApplyReload?
    ensures Benched(Exec(s, steps), id)
    decreases steps
  {
    if steps != [] {
      BenchedStep(s, steps[0], id);
      StepInv(s, steps[0]);
      hide Benched, SysInv, Enabled, Step;
      QuarantineHolds(Step(s, steps[0]), steps[1..], id);
    }
  }

  // ---- shutdown ----

  /** Shut down and stopped for good. */
  ghost predicate Settled(s: Sys, id: Id) {
    s.env.stopped && id in s.mods && !s.mods[id].runner.opInFlight && !Active(s.mods[id].runner.state)
  }

  lemma SettledMod(m: Mod, env: Env, st: ModStep)
    requires env.stopped && SlotExclusive(m) && Guard(m, env, st)
    requires !m.runner.opInFlight && !Active(m.runner.state)
    ensures !Next(m, env, st).runner.opInFlight && !Active(Next(m, env, st).runner.state)
  {
    assert forall o :: o in m.ops ==> !IsSlot(m.ops[o]);
  }

  lemma SettledStep(s: Sys, st: SysStep, id: Id)
    requires SysInv(s) && Enabled(s, st) && Settled(s, id)
    ensures Settled(Step(s, st), id)
  {
    InvAt(s, id);
    ActionOnIs(s, st, id);
    assert Step(s, st).env.stopped by { hide Next, Guard, DepsRunning; }
    hide SysInv, Step, Enabled, Guard, Next, ActionOn, InFlightInv, ModInv, SlotExclusive;
    var a := ActionOn(s, st, id);
    if a.Some? { SettledMod(s.mods[id], s.env, a.value); }
  }

  /** After shutdown has begun, a module that is at rest stays at rest. */
  lemma {:induction false} ShutdownSettles(s: Sys, steps: seq<SysStep>, id: Id)
    requires SysInv(s) && Runs(s, steps) && Settled(s, id)
    ensures Settled(Exec(s, steps), id)
    decreases steps
  {
    if steps != [] {
      SettledStep(s, steps[0], id);
      StepInv(s, steps[0]);
      hide SysInv, Settled, Enabled, Step;
      ShutdownSettles(Step(s, steps[0]), steps[1..], id);
    }
  }

  // ---- the crash-loop budget ----

  /** Whether this step charges the module's budget. */
  ghost predicate Charges(m: Mod, env: Env, st: ModStep)
    requires Guard(m, env, st)
  {
    env.policy.restart &&
    (st.EndFailStop? ||
     (st.FinishStart? && !R.Stale(m.runner, m.ops[st.o].gen) && m.ops[st.o].stage.v == R.Erred))
  }

  /** A charged failure ends in Failed exactly when a recount of every charge
      since the last reset is within budget, and in CrashLooping otherwise. */
  lemma ChargeVerdict(m: Mod, env: Env, st: ModStep)
    requires ModInv(m, env) && Guard(m, env, st) && Charges(m, env, st)
    ensures var m' := Next(m, env, st);
      && m'.charged == m.charged + [env.now]
      && m'.runner.state == (if WithinBudget(m'.charged, m.runner.window, m.runner.max) then Failed else CrashLooping)
  {
    ChargeExtendsHistory(m.charged, m.runner.window, env.now);
    var o := if st.EndFailStop? then R.SetState(R.Outcome(m.runner.(opInFlight := false), []), Stopped)
             else R.Outcome(m.runner.(opInFlight := false), []);
    R.FailEffects(o, env.now, env.policy, st.delay);
    hide R.Fail, InFlightInv, LeaseInv, EdgesOnly, Recorded, WindowAfter;
  }

  /** Nothing else charges it: a dependency wait, a stop, a stale result and an
      unsupported module leave window and history as they were; only the reload
      that releases a quarantine clears them. */
  lemma OnlyFailuresCharge(m: Mod, env: Env, st: ModStep)
    requires Guard(m, env, st) && !Charges(m, env, st)
    requires !(st.Reconfigure? && m.runner.state == CrashLooping && st.cfg.enabled)
    ensures Next(m, env, st).charged == m.charged && Next(m, env, st).runner.events == m.runner.events
  {
  }

  /** In every run, of the failures charged since the last release of a quarantine,
      at most `max` in any span of the window's length leave the module restartable. */
  lemma BudgetHolds(s: Sys, steps: seq<SysStep>, id: Id, upTo: nat, a: Time)
    requires Init(s) && Runs(s, steps) && id in Exec(s, steps).mods
    requires Exec(s, steps).mods[id].runner.window > 0 && Exec(s, steps).mods[id].runner.max >= 0
    requires upTo <= |Exec(s, steps).mods[id].charged|
    requires forall t :: t in Exec(s, steps).mods[id].charged[..upTo] ==> t <= a + Exec(s, steps).mods[id].runner.window
    ensures var m := Exec(s, steps).mods[id];
      Restartable(m.charged[..upTo], m.runner.window, m.runner.max, a) <= m.runner.max
  {
    InitInv(s);
    RunInv(s, steps);
    var m := Exec(s, steps).mods[id];
    assert ModInv(m, Exec(s, steps).env);
    SpanBudget(m.charged[..upTo], m.runner.window, m.runner.max, a);
  }

  /** No reload of the run releases the module from a quarantine. */
  ghost predicate NeverReleased(s: Sys, steps: seq<SysStep>, id: Id)
    requires Runs(s, steps)
    decreases steps
  {
    steps == [] ||
    (&& !(steps[0].ApplyReload? && id in s.mods && id in steps[0].cfgs
          && s.mods[id].runner.state == CrashLooping && steps[0].cfgs[id].enabled)
     && NeverReleased(Step(s, steps[0]), steps[1..], id))
  }

  lemma ChargesGrow(m: Mod, env: Env, st: ModStep)
    requires ModInv(m, env) && Guard(m, env, st)
    requires !(st.Reconfigure? && m.runner.state == CrashLooping && st.cfg.enabled)
    ensures m.charged <= Next(m, env, st).charged
  {
    hide ModInv, Next, Guard;
    if Charges(m, env, st) { ChargeVerdict(m, env, st); } else { OnlyFailuresCharge(m, env, st); }
  }

  lemma OnlyReloadsReconfigure(s: Sys, st: SysStep, id: Id)
    requires Enabled(s, st) && id in s.mods
    ensures var a := ActionOn(s, st, id);
      a.Some? && a.value.Reconfigure? ==> st.ApplyReload? && id in st.cfgs && a.value.cfg == st.cfgs[id]
  {
    hide Next, DepsRunning;
  }

  /** Between releases no charge is ever forgotten, so the budget bounds every
      span that contains no release. */
  lemma {:induction false} ChargesAccumulate(s: Sys, steps: seq<SysStep>, id: Id)
    requires SysInv(s) && Runs(s, steps) && id in s.mods && NeverReleased(s, steps, id)
    ensures id in Exec(s, steps).mods && s.mods[id].charged <= Exec(s, steps).mods[id].charged
    decreases steps
  {
    if steps != [] {
      InvAt(s, id);
      ActionOnIs(s, steps[0], id);
      OnlyReloadsReconfigure(s, steps[0], id);
      var a := ActionOn(s, steps[0], id);
      if a.Some? { ChargesGrow(s.mods[id], s.env, a.value); }
      StepInv(s, steps[0]);
      hide SysInv, Enabled, Step, ActionOn, Guard, Next, ModInv;
      ChargesAccumulate(Step(s, steps[0]), steps[1..], id);
    }
  }
}
