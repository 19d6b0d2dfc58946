/** What each mutex-protected critical section does to one module's runner
    (internal/supervisor: supervisor.go, loop.go, lifecycle.go, reload.go), as
    functions on the runner's value.  `Supervisor` implements them in place and
    `Protocol` interleaves them. */
module Runners {
  import opened Wrappers
  import opened Lifecycle
  import opened RestartWindow

  type Lease = nat

  /** The part of the agent's restart policy the supervisor reads afresh. */
  datatype Policy = Policy(restart: bool, initialBackoff: nat)

  datatype ModuleConfig = ModuleConfig(enabled: bool, required: bool, settings: int)

  /** How a start attempt ended. */
  datatype Verdict = Ok | NotSupported | Erred

  datatype RunnerState = RunnerState(
    cfg: ModuleConfig,
    state: State,
    lease: Option<Lease>,
    max: int,
    window: int,
    events: seq<Time>,
    attempt: nat,
    opInFlight: bool,
    retryAt: Option<Time>,
    blockedOnDeps: bool,
    generation: nat)

  /** What a validated configuration says of restarts: when they are on, a budget
      that can be spent inside its window (internal/config/validate.go). */
  predicate ValidRestarts(policy: Policy, max: int, window: int) {
    policy.restart ==> policy.initialBackoff > 0 && max > 0 && window > 0 && max * policy.initialBackoff <= window
  }

  /** One assignment that changed a runner's state. */
  datatype Move = Move(from: State, to: State)

  /** A runner after a critical section, and the state changes on the way. */
  datatype Outcome = Outcome(runner: RunnerState, moves: seq<Move>)

  function SetState(o: Outcome, to: State): Outcome {
    if o.runner.state == to then o
    else Outcome(o.runner.(state := to), o.moves + [Move(o.runner.state, to)])
  }

  // ---- starting ----

  predicate MayClaim(r: RunnerState, stopped: bool) {
    !stopped && !r.opInFlight && r.cfg.enabled && CanTransition(r.state, Starting)
  }

  /** A dependency is not running: deferred to Failed, at no charge. */
  function Defer(r: RunnerState, now: Time, policy: Policy): Outcome {
    SetState(Outcome(r.(blockedOnDeps := true, retryAt := Some(now + policy.initialBackoff)), []), Failed)
  }

  function Take(r: RunnerState): Outcome {
    SetState(Outcome(r.(generation := r.generation + 1, opInFlight := true, blockedOnDeps := false, retryAt := None), []), Starting)
  }

  function Fail(o: Outcome, now: Time, policy: Policy, delay: nat): Outcome {
    if !policy.restart then SetState(o, Failed)
    else
      var events := Recorded(o.runner.events, o.runner.window, now);
      var charged := o.(runner := o.runner.(attempt := o.runner.attempt + 1, events := events));
      if |events| > o.runner.max then SetState(charged, CrashLooping)
      else SetState(charged.(runner := charged.runner.(retryAt := Some(now + delay))), Failed)
  }

  predicate Stale(r: RunnerState, gen: nat) { gen != r.generation }

  /** A stale result only gives the slot back; its lease goes to the caller. */
  function FinishStart(r: RunnerState, gen: nat, lease: Option<Lease>, v: Verdict, now: Time, policy: Policy, delay: nat): Outcome {
    var o := Outcome(r.(opInFlight := false), []);
    if Stale(r, gen) then o
    else
      match v
      case Ok => SetState(o.(runner := o.runner.(lease := lease, attempt := 0)), Running)
      case NotSupported => SetState(o, Unsupported)
      case Erred => Fail(o, now, policy, delay)
  }

  // ---- a reported runtime failure ----

  predicate MayFail(r: RunnerState, stopped: bool, gen: nat) {
    !stopped && gen == r.generation && r.state == Running && !r.opInFlight
  }

  function BeginFailStop(r: RunnerState): Outcome {
    SetState(Outcome(r.(opInFlight := true, lease := None), []), Stopping)
  }

  function EndFailStop(r: RunnerState, now: Time, policy: Policy, delay: nat): Outcome {
    Fail(SetState(Outcome(r.(opInFlight := false), []), Stopped), now, policy, delay)
  }

  // ---- a dependency went away ----

  predicate MayStopForDependency(r: RunnerState) {
    !r.opInFlight && Active(r.state)
  }

  function BeginDepStop(r: RunnerState): Outcome {
    SetState(Outcome(r.(opInFlight := true, generation := r.generation + 1, lease := None), []), Stopping)
  }

  function EndDepStop(r: RunnerState, now: Time, delay: nat): Outcome {
    var waiting := r.(opInFlight := false, blockedOnDeps := true, retryAt := Some(now + delay));
    SetState(SetState(Outcome(waiting, []), Stopped), Failed)
  }

  // ---- shutdown and disabling ----

  function StopInactive(r: RunnerState): Outcome {
    if r.state == Disabled || r.state == Unsupported then Outcome(r, [])
    else SetState(Outcome(r.(retryAt := None), []), Stopped)
  }

  function BeginStopModule(r: RunnerState): Outcome {
    SetState(Outcome(r.(generation := r.generation + 1, lease := None), []), Stopping)
  }

  function EndStopModule(r: RunnerState): Outcome {
    SetState(Outcome(r.(retryAt := None), []), Stopped)
  }

  function Disable(r: RunnerState): Outcome {
    SetState(Outcome(r.(retryAt := None), []), Disabled)
  }

  function Reenable(r: RunnerState): Outcome {
    if r.state == Disabled then SetState(Outcome(r, []), Stopped) else Outcome(r, [])
  }

  /** Reload's swap: the new fragment, and the release of a quarantine. */
  function Reconfigure(r: RunnerState, cfg: ModuleConfig, now: Time): Outcome {
    var swapped := r.(cfg := cfg);
    if r.state == CrashLooping && cfg.enabled then
      SetState(Outcome(swapped.(events := [], attempt := 0, retryAt := Some(now)), []), Failed)
    else Outcome(swapped, [])
  }

  /** A restart that has come due. */
  predicate Due(r: RunnerState, now: Time) {
    r.state == Failed && !r.opInFlight && r.retryAt.Some? && r.retryAt.value <= now
  }

  /** A failure ends in Failed or CrashLooping, the latter exactly when the
      budget is spent; nothing but the restart bookkeeping changes. */
  lemma FailEffects(o: Outcome, now: Time, policy: Policy, delay: nat)
    ensures var f := Fail(o, now, policy, delay).runner;
      && f == o.runner.(state := f.state, attempt := f.attempt, events := f.events, retryAt := f.retryAt)
      && f.events == (if policy.restart then Recorded(o.runner.events, o.runner.window, now) else o.runner.events)
      && f.state == (if policy.restart && |f.events| > o.runner.max then CrashLooping else Failed)
    ensures var f := Fail(o, now, policy, delay);
      f.moves == o.moves + if o.runner.state == f.runner.state then [] else [Move(o.runner.state, f.runner.state)]
  {
  }
}
