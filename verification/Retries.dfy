/** When a module is retried (internal/supervisor: supervisor.go, loop.go and
    reload.go): the earliest instant its restart is due after each step that takes
    it into Failed, and who is never retried. */
module Retries {
  import opened Wrappers
  import opened Lifecycle
  import opened RestartWindow
  import opened StartOrders
  import R = Runners
  import opened Protocol
  import opened Supervision
  import opened Safety
  import opened Guarantees

  /** Only a Failed module has a retry scheduled, and nothing busy or active is
      waiting for a dependency. */
  ghost predicate RetryInv(m: Mod) {
    && (m.runner.retryAt.Some? ==> m.runner.state == Failed)
    && (Active(m.runner.state) || m.runner.opInFlight ==> !m.runner.blockedOnDeps)
  }

  /** The step ends a start attempt that failed, or a failure-stop. */
  ghost predicate EndsInFailure(m: Mod, st: ModStep) {
    || st.EndFailStop?
    || (st.FinishStart? && st.o in m.ops && m.ops[st.o].Start? && m.ops[st.o].gen == m.runner.generation
        && m.ops[st.o].stage == Finishing(R.Erred))
  }

  /** The step puts a start off because a dependency is not running. */
  ghost predicate PutsOff(m: Mod, env: Env, st: ModStep) {
    st.Claim? && !st.depsRunning && R.MayClaim(m.runner, env.stopped)
  }

  lemma FailureIs(m: Mod, env: Env, st: ModStep)
    requires ModInv(m, env) && Guard(m, env, st) && EndsInFailure(m, st)
    ensures var r, r' := m.runner, Next(m, env, st).runner;
      && r'.state in {Failed, CrashLooping} && !r'.opInFlight && r'.blockedOnDeps == r.blockedOnDeps
      && r'.retryAt == (if r'.state == Failed && env.policy.restart then Some(env.now + st.delay) else r.retryAt)
      && r'.attempt == r.attempt + (if env.policy.restart then 1 else 0)
  {
    hide Recorded, InFlightInv, LeaseInv, RecordInv;
  }

  lemma BusyWhenEnding(m: Mod, env: Env, st: ModStep)
    requires ModInv(m, env) && Guard(m, env, st) && EndsInFailure(m, st)
    ensures m.runner.opInFlight && m.runner.state !in {Failed, CrashLooping}
  {
    var o := st.o;
    assert IsSlot(m.ops[o]);
    assert IdleWhenFailed(m);
  }

  lemma OtherSteps(m: Mod, env: Env, st: ModStep)
    requires InFlightInv(m, env.stopped) && RetryInv(m) && Guard(m, env, st) && !EndsInFailure(m, st)
    ensures RetryInv(Next(m, env, st))
  {
    hide R.Fail, SlotExclusive, StopModuleExcludesClaims, OpsAreNumbered;
  }

  /** Every step keeps this. */
  lemma RetryKept(m: Mod, env: Env, st: ModStep)
    requires ModInv(m, env) && RetryInv(m) && Guard(m, env, st)
    ensures RetryInv(Next(m, env, st))
  {
    hide ModInv, Guard, Next, InFlightInv;
    if EndsInFailure(m, st) {
      FailureIs(m, env, st);
      BusyWhenEnding(m, env, st);
    } else {
      assert InFlightInv(m, env.stopped) by { InFlightOf(m, env); }
      OtherSteps(m, env, st);
    }
  }

  lemma InFlightOf(m: Mod, env: Env)
    requires ModInv(m, env)
    ensures InFlightInv(m, env.stopped) && IdleWhenFailed(m)
  {
  }

  // ---- what each step schedules ----

  /** What a step that leaves the module Failed has scheduled: after a
      dependency-stop, or a failure while restarts are on, a retry after the given
      delay; after a start put off, one after the initial backoff; after the
      release of a quarantine, one at once; after a failure while restarts are
      off, none. */
  lemma RetryIsDue(m: Mod, env: Env, st: ModStep, t: Time)
    requires ModInv(m, env) && RetryInv(m) && Guard(m, env, st) && Next(m, env, st).runner.state == Failed
    ensures var due := R.Due(Next(m, env, st).runner, t);
      && (st.EndDepStop? ==> (due <==> t >= env.now + st.delay))
      && (EndsInFailure(m, st) && env.policy.restart ==> (due <==> t >= env.now + st.delay))
      && (EndsInFailure(m, st) && !env.policy.restart ==> !due)
      && (PutsOff(m, env, st) ==> (due <==> t >= env.now + env.policy.initialBackoff))
      && (st.Reconfigure? && m.runner.state == CrashLooping ==> (due <==> t >= env.now))
  {
    hide InFlightInv, LeaseInv, RecordInv, R.Fail;
    if EndsInFailure(m, st) {
      FailureIs(m, env, st);
      BusyWhenEnding(m, env, st);
    }
  }

  /** No other step takes a module into Failed, and none touches the retry of a
      module that stays there. */
  lemma OnlyTheseFail(m: Mod, env: Env, st: ModStep)
    requires ModInv(m, env) && Guard(m, env, st) && Next(m, env, st).runner.state == Failed
    requires !st.EndDepStop? && !EndsInFailure(m, st) && !PutsOff(m, env, st) && !(st.Reconfigure? && m.runner.state == CrashLooping)
    ensures m.runner.state == Failed && Next(m, env, st).runner.retryAt == m.runner.retryAt
  {
    hide InFlightInv, LeaseInv, RecordInv, R.Fail;
  }

  /** Waiting for a dependency is told apart from having failed. */
  lemma WaitingIsToldApart(m: Mod, env: Env, st: ModStep)
    requires ModInv(m, env) && RetryInv(m) && Guard(m, env, st)
    ensures st.EndDepStop? || PutsOff(m, env, st) ==> Next(m, env, st).runner.blockedOnDeps
    ensures EndsInFailure(m, st) ==> !Next(m, env, st).runner.blockedOnDeps
  {
    hide InFlightInv, LeaseInv, RecordInv, R.Fail;
    if EndsInFailure(m, st) {
      FailureIs(m, env, st);
      BusyWhenEnding(m, env, st);
    }
  }

  /** The attempts that stretch the delay: one more with each failure charged, none
      after a start that succeeds or a release, and otherwise as many as before. */
  lemma AttemptsFollow(m: Mod, env: Env, st: ModStep)
    requires ModInv(m, env) && Guard(m, env, st)
    ensures var n, n' := m.runner.attempt, Next(m, env, st).runner.attempt;
      n' == if EndsInFailure(m, st) then (if env.policy.restart then n + 1 else n)
            else if st.FinishStart? && m.ops[st.o].gen == m.runner.generation && m.ops[st.o].stage == Finishing(R.Ok) then 0
            else if st.Reconfigure? && m.runner.state == CrashLooping && st.cfg.enabled then 0
            else n
  {
    hide InFlightInv, LeaseInv, RecordInv, R.Fail;
    if EndsInFailure(m, st) { FailureIs(m, env, st); }
  }

  // ---- unsupported modules ----

  /** A start that finds the module unsupported ends in Unsupported, with no retry. */
  lemma UnsupportedIsNoFailure(m: Mod, env: Env, o: OpId, delay: nat)
    requires ModInv(m, env) && RetryInv(m) && Guard(m, env, FinishStart(o, delay))
    requires m.ops[o].gen == m.runner.generation && m.ops[o].stage == Finishing(R.NotSupported)
    ensures var r := Next(m, env, FinishStart(o, delay)).runner;
      r.state == Unsupported && r.retryAt == None && !r.opInFlight && r.lease == m.runner.lease
  {
    hide R.Fail;
    FinishFacts(m, env, o, delay);
  }

  /** An unsupported module stays so, and is never started, unless a reload turns it off. */
  lemma UnsupportedStays(m: Mod, env: Env, st: ModStep)
    requires InFlightInv(m, env.stopped) && Guard(m, env, st) && !st.DisableModule?
    requires m.runner.state == Unsupported && !m.runner.opInFlight
    ensures Next(m, env, st).runner.state == Unsupported && !Next(m, env, st).runner.opInFlight
    ensures Next(m, env, st).runner.retryAt == m.runner.retryAt
  {
    assert forall o :: o in m.ops ==> !IsSlot(m.ops[o]);
    hide R.Fail;
  }

  // ---- over runs ----

  /** Some step of the run ends in a failure of the module while restarts are off. */
  ghost predicate FailsForGood(s: Sys, steps: seq<SysStep>, id: Id)
    requires Runs(s, steps) && id in s.mods
    decreases steps
  {
    steps != [] &&
    (|| FailsForGoodNow(s, steps[0], id)
     || (id in Step(s, steps[0]).mods && FailsForGood(Step(s, steps[0]), steps[1..], id)))
  }

  ghost predicate FailsForGoodNow(s: Sys, st: SysStep, id: Id)
    requires Enabled(s, st) && id in s.mods
  {
    ActionOn(s, st, id).Some? && EndsInFailure(s.mods[id], ActionOn(s, st, id).value) && !s.env.policy.restart
  }

  /** A failed module has a retry scheduled. */
  ghost predicate Retried(m: Mod) {
    RetryInv(m) && (m.runner.state == Failed ==> m.runner.retryAt.Some?)
  }

  lemma RetriedKept(m: Mod, env: Env, st: ModStep)
    requires ModInv(m, env) && Retried(m) && Guard(m, env, st) && (EndsInFailure(m, st) ==> env.policy.restart)
    ensures Retried(Next(m, env, st))
  {
    hide ModInv, Guard, Next, RetryInv;
    RetryKept(m, env, st);
    if Next(m, env, st).runner.state == Failed {
      if st.EndDepStop? || EndsInFailure(m, st) || PutsOff(m, env, st) || (st.Reconfigure? && m.runner.state == CrashLooping) {
        var t := env.now + (if st.EndDepStop? || EndsInFailure(m, st) then st.delay else env.policy.initialBackoff);
        RetryIsDue(m, env, st, t);
      } else {
        OnlyTheseFail(m, env, st);
      }
    }
  }

  /** Along a run a failed module is without a retry only if it failed while
      restarts were off. */
  lemma {:induction false} FailedIsRetried(s: Sys, steps: seq<SysStep>, id: Id)
    requires SysInv(s) && Runs(s, steps) && id in s.mods && Retried(s.mods[id]) && !FailsForGood(s, steps, id)
    ensures id in Exec(s, steps).mods && Retried(Exec(s, steps).mods[id])
    decreases steps
  {
    if steps != [] {
      InvAt(s, id);
      ActionOnIs(s, steps[0], id);
      var a := ActionOn(s, steps[0], id);
      if a.Some? { RetriedKept(s.mods[id], s.env, a.value); }
      StepInv(s, steps[0]);
      hide SysInv, Enabled, Step, ActionOn, Guard, Next, ModInv, Retried;
      FailedIsRetried(Step(s, steps[0]), steps[1..], id);
    }
  }

  /** From start-up. */
  lemma FailedModulesAreRetried(s: Sys, steps: seq<SysStep>, id: Id)
    requires Init(s) && Runs(s, steps) && id in s.mods && !FailsForGood(s, steps, id)
    ensures id in Exec(s, steps).mods
    ensures Exec(s, steps).mods[id].runner.state == Failed ==> Exec(s, steps).mods[id].runner.retryAt.Some?
  {
    hide SysInv, Runs, Exec, FailsForGood;
    InitInv(s);
    assert FreshMod(s.mods[id]);
    FailedIsRetried(s, steps, id);
  }

  // ---- starting ----

  /** A step starts a module only if it is enabled, nothing of it is in flight, the
      supervisor is not shut down, and every module it depends on is running. */
  lemma StartsNeedDependencies(s: Sys, st: SysStep, id: Id)
    requires SysInv(s) && Enabled(s, st) && id in s.mods && s.mods[id].runner.state != Starting
    requires id in Step(s, st).mods && Step(s, st).mods[id].runner.state == Starting
    ensures !s.env.stopped && s.mods[id].runner.cfg.enabled && !s.mods[id].runner.opInFlight
    ensures id in s.rel ==> forall d :: d in s.rel[id] ==> d in s.mods && s.mods[d].runner.state == Running
  {
    InvAt(s, id);
    ActionOnIs(s, st, id);
    StartIsClaimed(s, st, id);
    hide SysInv, Step, Enabled, Guard, Next, ActionOn, ModInv, InFlightInv, SlotExclusive;
    OnlyClaimsStart(s.mods[id], s.env, ActionOn(s, st, id).value);
  }

  lemma OnlyClaimsStart(m: Mod, env: Env, st: ModStep)
    requires Guard(m, env, st) && m.runner.state != Starting && Next(m, env, st).runner.state == Starting
    ensures st.Claim? && st.depsRunning && R.MayClaim(m.runner, env.stopped)
  {
    hide R.Fail;
    if st.FinishStart? || st.EndFailStop? {
      var idle := R.Outcome(m.runner.(opInFlight := false), []);
      R.FailEffects(if st.FinishStart? then idle else R.SetState(idle, Stopped), env.now, env.policy, st.delay);
    }
  }

  lemma StartIsClaimed(s: Sys, st: SysStep, id: Id)
    requires Enabled(s, st) && id in s.mods
    ensures var a := ActionOn(s, st, id);
      a.Some? && a.value.Claim? && a.value.depsRunning ==> DepsRunning(s, id)
  {
    hide Next;
  }
}
