/** Exactly when the supervisor leaves the transition table
    (internal/module/state.go): the guards of the three steps that do. */
module Transitions {
  import opened Wrappers
  import opened Lifecycle
  import opened RestartWindow
  import opened StartOrders
  import R = Runners
  import opened Protocol
  import opened Supervision
  import opened Safety
  import opened Guarantees

  ghost predicate Legal(moves: seq<R.Move>) {
    forall i :: 0 <= i < |moves| ==> CanTransition(moves[i].from, moves[i].to)
  }

  /** One more charged failure quarantines the module. */
  predicate SpendsBudget(r: R.RunnerState, env: Env) {
    env.policy.restart && |Recorded(r.events, r.window, env.now)| > r.max
  }

  /** What can be read before a step that leaves the table: it defers a module
      that is Registered or Disabled, or it charges a failure that spends the
      budget. */
  ghost predicate LeavesTable(m: Mod, env: Env, st: ModStep)
    requires Guard(m, env, st)
  {
    match st
    case Claim(depsRunning, _) =>
      R.MayClaim(m.runner, env.stopped) && !depsRunning && m.runner.state in {Registered, Disabled}
    case FinishStart(o, _) =>
      !R.Stale(m.runner, m.ops[o].gen) && m.ops[o].stage.v == R.Erred && SpendsBudget(m.runner, env)
    case EndFailStop(_, _) => SpendsBudget(m.runner, env)
    case _ => false
  }

  /** The state changes one step makes. */
  ghost predicate Adds(m: Mod, m': Mod, moves: seq<R.Move>) {
    m'.moves == m.moves + moves
  }

  lemma FailEdges(o: R.Outcome, env: Env, delay: nat)
    requires o.runner.state in {Starting, Stopped} && Legal(o.moves)
    ensures var f := R.Fail(o, env.now, env.policy, delay);
      Legal(f.moves) <==> !SpendsBudget(o.runner, env)
  {
    R.FailEffects(o, env.now, env.policy, delay);
    hide R.Fail, Recorded;
    var f := R.Fail(o, env.now, env.policy, delay);
    assert f.moves[|f.moves|-1] == R.Move(o.runner.state, f.runner.state);
  }

  lemma FinishEdges(m: Mod, env: Env, o: OpId, delay: nat) returns (moves: seq<R.Move>)
    requires ModInv(m, env) && Guard(m, env, FinishStart(o, delay))
    ensures Adds(m, Next(m, env, FinishStart(o, delay)), moves)
    ensures Legal(moves) <==> !LeavesTable(m, env, FinishStart(o, delay))
  {
    FinishFacts(m, env, o, delay);
    var op := m.ops[o];
    var first := R.Outcome(m.runner.(opInFlight := false), []);
    moves := R.FinishStart(m.runner, op.gen, op.lease, op.stage.v, env.now, env.policy, delay).moves;
    hide ModInv;
    if !R.Stale(m.runner, op.gen) && op.stage.v == R.Erred { FailEdges(first, env, delay); }
    hide R.Fail;
  }

  lemma EndFailEdges(m: Mod, env: Env, o: OpId, delay: nat) returns (moves: seq<R.Move>)
    requires ModInv(m, env) && Guard(m, env, EndFailStop(o, delay))
    ensures Adds(m, Next(m, env, EndFailStop(o, delay)), moves)
    ensures Legal(moves) <==> !LeavesTable(m, env, EndFailStop(o, delay))
  {
    StoppedForGood(m, env, EndFailStop(o, delay));
    moves := R.EndFailStop(m.runner, env.now, env.policy, delay).moves;
    hide ModInv;
    FailEdges(R.SetState(R.Outcome(m.runner.(opInFlight := false), []), Stopped), env, delay);
    hide R.Fail;
  }

  lemma StopEdges(m: Mod, env: Env, st: ModStep) returns (moves: seq<R.Move>)
    requires InFlightInv(m, env.stopped) && Guard(m, env, st)
    requires st.EndModStop? || st.EndDepStop? || st.DisableModule?
    ensures Adds(m, Next(m, env, st), moves) && Legal(moves)
  {
    hide InFlightInv;
    StoppedForGood(m, env, st);
    moves :=
      if st.EndModStop? then R.EndStopModule(m.runner).moves
      else if st.EndDepStop? then R.EndDepStop(m.runner, env.now, st.delay).moves
      else R.Disable(m.runner).moves;
  }

  lemma BeginEdges(m: Mod, env: Env, st: ModStep) returns (moves: seq<R.Move>)
    requires NeverPaused(m) && Guard(m, env, st)
    requires st.Report? || st.BeginDepStop? || st.StopModule? || st.OpenStart? || st.Reconfigure?
    ensures Adds(m, Next(m, env, st), moves) && Legal(moves)
  {
    moves :=
      if st.Report? then R.BeginFailStop(m.runner).moves
      else if st.BeginDepStop? then R.BeginDepStop(m.runner).moves
      else if st.OpenStart? then R.Reenable(m.runner).moves
      else if st.Reconfigure? then R.Reconfigure(m.runner, st.cfg, env.now).moves
      else if Active(m.runner.state) then R.BeginStopModule(m.runner).moves
      else R.StopInactive(m.runner).moves;
  }

  lemma ClaimEdges(m: Mod, env: Env, st: ModStep) returns (moves: seq<R.Move>)
    requires Guard(m, env, st) && st.Claim?
    ensures Adds(m, Next(m, env, st), moves) && (Legal(moves) <==> !LeavesTable(m, env, st))
  {
    moves :=
      if !R.MayClaim(m.runner, env.stopped) then []
      else if st.depsRunning then R.Take(m.runner).moves
      else R.Defer(m.runner, env.now, env.policy).moves;
    assert |moves| == 1 ==> moves[0].from == m.runner.state;
  }

  lemma CallEdges(m: Mod, env: Env, st: ModStep)
    requires Guard(m, env, st)
    requires st.Admit? || st.DeadlinePasses? || st.StartReturns? || st.CleanupReturns? || st.CallStop? || st.StopReturns? || st.StopSettles? || st.ReleaseLate?
    ensures Next(m, env, st).moves == m.moves
  {
  }

  /** A step makes a state change outside the table if and only if its guard says
      so beforehand. */
  lemma ExactlyLeavesTable(m: Mod, env: Env, st: ModStep) returns (moves: seq<R.Move>)
    requires ModInv(m, env) && Guard(m, env, st)
    ensures Adds(m, Next(m, env, st), moves)
    ensures Legal(moves) <==> !LeavesTable(m, env, st)
  {
    assert InFlightInv(m, env.stopped) && NeverPaused(m);
    hide ModInv, InFlightInv, Guard, Next, Legal, Adds;
    moves := [];
    match st
    case FinishStart(o, delay) => moves := FinishEdges(m, env, o, delay);
    case EndFailStop(o, delay) => moves := EndFailEdges(m, env, o, delay);
    case EndModStop(_) => moves := StopEdges(m, env, st);
    case EndDepStop(_, _) => moves := StopEdges(m, env, st);
    case DisableModule => moves := StopEdges(m, env, st);
    case Report(_) => moves := BeginEdges(m, env, st);
    case BeginDepStop => moves := BeginEdges(m, env, st);
    case StopModule(_) => moves := BeginEdges(m, env, st);
    case OpenStart => moves := BeginEdges(m, env, st);
    case Reconfigure(_) => moves := BeginEdges(m, env, st);
    case Claim(_, _) => moves := ClaimEdges(m, env, st);
    case _ => CallEdges(m, env, st); NoEdges(m, Next(m, env, st));
  }

  lemma NoEdges(m: Mod, m': Mod)
    requires m'.moves == m.moves
    ensures Adds(m, m', []) && Legal([])
  {
  }

  // ---- over runs ----

  /** Some step of the run leaves the table for module `id`. */
  ghost predicate LeavesTableIn(s: Sys, steps: seq<SysStep>, id: Id)
    requires Runs(s, steps) && id in s.mods
    decreases steps
  {
    steps != [] &&
    (|| LeavesTableNow(s, steps[0], id)
     || (id in Step(s, steps[0]).mods && LeavesTableIn(Step(s, steps[0]), steps[1..], id)))
  }

  ghost predicate LeavesTableNow(s: Sys, st: SysStep, id: Id)
    requires Enabled(s, st) && id in s.mods
  {
    match ActionOn(s, st, id)
    case None => false
    case Some(l) => Guard(s.mods[id], s.env, l) && LeavesTable(s.mods[id], s.env, l)
  }

  lemma StepIsLegal(s: Sys, st: SysStep, id: Id)
    requires SysInv(s) && Enabled(s, st) && id in s.mods
    ensures id in Step(s, st).mods
    ensures Legal(Step(s, st).mods[id].moves) <==> Legal(s.mods[id].moves) && !LeavesTableNow(s, st, id)
  {
    InvAt(s, id);
    ActionOnIs(s, st, id);
    hide SysInv, Step, Enabled, Guard, Next, ActionOn, LeavesTable, ModInv, InFlightInv, SlotExclusive, CanTransition;
    var a := ActionOn(s, st, id);
    if a.Some? {
      var moves := ExactlyLeavesTable(s.mods[id], s.env, a.value);
      LegalJoin(s.mods[id].moves, moves);
    }
  }

  lemma LegalJoin(a: seq<R.Move>, b: seq<R.Move>)
    ensures Legal(a + b) <==> Legal(a) && Legal(b)
  {
    hide CanTransition;
    if Legal(a + b) {
      forall i | 0 <= i < |a| ensures CanTransition(a[i].from, a[i].to) { assert (a + b)[i] == a[i]; }
      forall i | 0 <= i < |b| ensures CanTransition(b[i].from, b[i].to) { assert (a + b)[|a| + i] == b[i]; }
    }
  }

  /** A run keeps to the table for a module if and only if none of its steps
      meets one of those guards. */
  lemma {:induction false} ExactlyLegalRuns(s: Sys, steps: seq<SysStep>, id: Id)
    requires SysInv(s) && Runs(s, steps) && id in s.mods
    ensures id in Exec(s, steps).mods
    ensures Legal(Exec(s, steps).mods[id].moves) <==> Legal(s.mods[id].moves) && !LeavesTableIn(s, steps, id)
    decreases steps
  {
    if steps != [] {
      StepIsLegal(s, steps[0], id);
      StepInv(s, steps[0]);
      hide SysInv, Enabled, Step, Legal, LeavesTableNow;
      ExactlyLegalRuns(Step(s, steps[0]), steps[1..], id);
    }
  }
}
