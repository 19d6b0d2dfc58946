/** The supervisor in place (internal/supervisor): one record per module, one
    mutex, and every critical section as a method.  Each method is proved to
    make exactly one step of `Supervision`'s state machine on the ghost field
    `model`, so that machine's guarantees are guarantees about these fields. */
module Supervisors {
  import opened Wrappers
  import opened Sorting
  import opened Lifecycle
  import RW = RestartWindow
  import opened StartOrders
  import opened Graph
  import opened Resolve
  import R = Runners
  import opened Protocol
  import opened Supervision
  import opened Safety
  import opened Guarantees

  type Time = RW.Time

  /** The bookkeeping for one module (internal/supervisor/runner.go). */
  class Runner {
    const id: Id
    const dependencies: seq<Id>
    const window: RW.RestartWindow
    var cfg: R.ModuleConfig
    var state: State
    var lease: Option<R.Lease>
    var attempt: nat
    var opInFlight: bool
    var retryAt: Option<Time>
    var blockedOnDeps: bool
    var generation: nat

    constructor (id: Id, dependencies: seq<Id>, cfg: R.ModuleConfig, max: int, window: int)
      ensures this.id == id && this.dependencies == dependencies && fresh(this.window)
      ensures View() == R.RunnerState(cfg, if cfg.enabled then Registered else Disabled, None, max, window, [], 0, false, None, false, 0)
    {
      this.id, this.dependencies, this.cfg := id, dependencies, cfg;
      state := if cfg.enabled then Registered else Disabled;
      lease, attempt, opInFlight, retryAt, blockedOnDeps, generation := None, 0, false, None, false, 0;
      this.window := new RW.RestartWindow(max, window);
    }

    ghost function View(): R.RunnerState
      reads this, window
    {
      R.RunnerState(cfg, state, lease, window.max, window.window, window.events, attempt, opInFlight, retryAt, blockedOnDeps, generation)
    }
  }

  /** The telemetry event of a state change. */
  datatype StateChanged = StateChanged(id: Id, from: State, to: State)

  function Emits(id: Id, moves: seq<R.Move>): seq<StateChanged> {
    if moves == [] then []
    else Emits(id, moves[..|moves|-1]) + [StateChanged(id, moves[|moves|-1].from, moves[|moves|-1].to)]
  }

  lemma EmitsMore(id: Id, moves: seq<R.Move>, m: R.Move)
    ensures Emits(id, moves + [m]) == Emits(id, moves) + [StateChanged(id, m.from, m.to)]
  {
    assert (moves + [m])[..|moves|] == moves;
  }

  lemma {:induction false} EmitsJoin(id: Id, a: seq<R.Move>, b: seq<R.Move>)
    ensures Emits(id, a + b) == Emits(id, a) + Emits(id, b)
    decreases |b|
  {
    if b == [] {
      assert a + b == a;
    } else {
      assert (a + b)[..|a + b| - 1] == a + b[..|b|-1];
      EmitsJoin(id, a, b[..|b|-1]);
    }
  }

  datatype StartError = AlreadyStarted | AlreadyShutDown | Structural(error: ResolveError)

  /** The dependencies a resolved graph lists; none before there is a graph. */
  function Dependencies(g: Option<Graph>, id: Id): seq<Id> {
    if g.Some? then At(g.value.deps, id) else []
  }

  /** `g` is the graph of `rel`. */
  ghost predicate GraphOf(g: Option<Graph>, rel: Relation) {
    && (g.None? ==> rel == map[])
    && (g.Some? ==> Clean(rel) && Resolved(rel, g.value))
  }

  lemma DependenciesAre(g: Option<Graph>, rel: Relation, id: Id)
    requires GraphOf(g, rel)
    ensures Elems(Dependencies(g, id)) == DepsOf(rel, id)
  {
    if g.Some? {
      ResolvedParts(rel, g.value);
      hide Resolved;
      if id in rel { assert Lists(At(g.value.deps, id), rel[id]); }
    }
  }

  // ---- the machine under the clock ----

  ghost function Clocked(s: Sys, now: Time): Sys {
    s.(env := s.env.(now := now))
  }

  /** Step `st`, enabled at `now`, acts on module `id` and on no other. */
  ghost predicate ActsOn(s: Sys, now: Time, st: SysStep, id: Id) {
    && s.env.now <= now && id in s.mods && Enabled(Clocked(s, now), st)
    && match st
       case ClaimDue => s.due[0] == id
       case ClaimListed => s.starting[0] == id
       case ClaimReload(j) => j == id
       case ReportFailure(j, _, _) => j == id
       case StopDependent(j, o) => s.plans[(j, o)].rest[0] == id
       case Local(j, _) => j == id
       case _ => false
  }

  ghost predicate SameButFor(s: Sys, s': Sys, id: Id) {
    && s'.mods.Keys == s.mods.Keys && s'.rel == s.rel
    && (forall j :: j in s.mods && j != id ==> s'.mods[j] == s.mods[j])
    && s'.env.stopped == s.env.stopped && s'.env.policy == s.env.policy
  }

  lemma ClockedInv(s: Sys, now: Time)
    requires SysInv(s) && s.env.now <= now
    ensures SysInv(Clocked(s, now))
  {
    EnvStepKeeps(s, Clocked(s, now));
  }

  /** The machine after step `st` at time `now`. */
  ghost function Moved(s: Sys, now: Time, st: SysStep): Sys {
    if s.env.now <= now && Enabled(Clocked(s, now), st) then Step(Clocked(s, now), st) else s
  }

  lemma MovedInv(s: Sys, now: Time, st: SysStep)
    requires SysInv(s)
    ensures SysInv(Moved(s, now, st))
  {
    hide SysInv, Enabled, Step, Clocked;
    if s.env.now <= now && Enabled(Clocked(s, now), st) {
      ClockedInv(s, now);
      StepInv(Clocked(s, now), st);
    }
  }

  /** A step on one module leaves the others alone, and is a step of its protocol. */
  lemma MovedAt(s: Sys, now: Time, st: SysStep, id: Id)
    requires ActsOn(s, now, st, id)
    ensures SameButFor(s, Moved(s, now, st), id) && id in s.mods && id in Moved(s, now, st).mods
    ensures s.env.now <= now && Enabled(Clocked(s, now), st)
    ensures match ActionOn(Clocked(s, now), st, id)
      case None => Moved(s, now, st).mods[id] == s.mods[id]
      case Some(l) => Guard(s.mods[id], Clocked(s, now).env, l) && Moved(s, now, st).mods[id] == Next(s.mods[id], Clocked(s, now).env, l)
  {
    ActionOnIs(Clocked(s, now), st, id);
    MovedShape(s, now, st, id);
    hide Enabled, Step, ActionOn, Next, Guard, SameButFor;
  }

  lemma MovedShape(s: Sys, now: Time, st: SysStep, id: Id)
    requires ActsOn(s, now, st, id)
    ensures SameButFor(s, Moved(s, now, st), id)
  {
    hide Next, Guard, DepsRunning;
  }

  class Supervisor {
    /** The restart budget of the configuration `New` was given. */
    const maxRestarts: int
    const restartWindow: int
    var runners: map<Id, Runner>
    var regOrder: seq<Id>
    var policy: R.Policy
    var graph: Option<Graph>
    var started: bool
    var stopped: bool
    var emitted: seq<StateChanged>
    ghost var model: Sys

    // ---- the invariant ----

    /** The record of one module, and its window. */
    ghost function Of(id: Id): set<object>
      reads this`runners
    {
      if id in runners then {runners[id], runners[id].window} else {}
    }

    ghost function Repr(): set<object>
      reads this`runners
    {
      (set id | id in runners :: runners[id]) + (set id | id in runners :: runners[id].window)
    }

    /** Each module has a record of its own. */
    ghost predicate Separate()
      reads this`runners, this`regOrder
    {
      && (forall id :: id in runners ==> runners[id].id == id)
      && (forall i, j :: i in runners && j in runners && i != j ==> runners[i].window != runners[j].window)
      && Lists(regOrder, runners.Keys)
    }

    ghost predicate SameRunners(s: Sys)
      reads this`runners, Repr()
    {
      && runners.Keys == s.mods.Keys
      && forall id :: id in runners ==> runners[id].View() == s.mods[id].runner
    }

    ghost function Views(): map<Id, R.RunnerState>
      reads this`runners, Repr()
    {
      map id | id in runners :: runners[id].View()
    }

    /** A change to one module's record is a change to its entry alone. */
    lemma ViewsChanged(id: Id, was: map<Id, R.RunnerState>)
      requires id in runners && was.Keys + {id} == runners.Keys
      requires forall j :: j in runners && j != id ==> runners[j].View() == was[j]
      ensures Views() == was[id := runners[id].View()]
    {
    }

    ghost predicate SameFlags(s: Sys)
      reads this`stopped, this`policy, this`graph
    {
      stopped == s.env.stopped && policy == s.env.policy && GraphOf(graph, s.rel)
    }

    ghost predicate Valid()
      reads this, Repr()
    {
      && Separate() && SameRunners(model) && SameFlags(model) && SysInv(model)
      && (!started && !stopped ==> Init(model))
      && (!started ==> R.ValidRestarts(policy, maxRestarts, restartWindow))
    }

    /** Only module `id` differs from `s0`, and as `s` says: the invariant is back. */
    lemma Settled(id: Id, s0: Sys, s: Sys)
      requires Separate() && SameFlags(s0) && started && runners.Keys == s0.mods.Keys && id in runners
      requires SysInv(s) && SameButFor(s0, s, id) && model == s
      requires runners[id].View() == s.mods[id].runner
      requires forall j :: j in runners && j != id ==> runners[j].View() == s0.mods[j].runner
      ensures Valid()
    {
      hide SysInv, GraphOf, Init;
    }

    /** No module's record differs from `s0`, nor `s`: the invariant is back. */
    lemma Untouched(s0: Sys, s: Sys)
      requires Separate() && SameFlags(s0) && SameRunners(s0) && started && SysInv(s) && model == s
      requires s.rel == s0.rel && s.env.stopped == s0.env.stopped && s.env.policy == s0.env.policy
      requires s.mods.Keys == s0.mods.Keys
      requires forall id :: id in s.mods ==> s.mods[id].runner == s0.mods[id].runner
      ensures Valid()
    {
      hide SysInv, GraphOf, Init;
    }

    /** What the fields themselves therefore always satisfy, between any two
        critical sections: a module holds a lease exactly while it is running,
        its slot is taken exactly while one start, failure-stop or
        dependency-stop of it is in flight, a failed one is idle, and leases are
        conserved. */
    lemma InPlaceSafety(id: Id)
      requires Valid() && id in runners
      ensures runners[id].lease.Some? <==> runners[id].state == Running
      ensures runners[id].opInFlight <==> exists o :: o in model.mods[id].ops && IsSlot(model.mods[id].ops[o])
      ensures runners[id].state in {Failed, CrashLooping} ==> !runners[id].opInFlight
      ensures Conserved(model)
    {
      InvAt(model, id);
      assert runners[id].View() == model.mods[id].runner;
      hide GraphOf, Init, Conserved, InFlightInv, RecordInv;
    }

    // ---- shared by the critical sections ----

    /** Apply a state change and report it; staying put is neither. */
    method SetState(r: Runner, to: State)
      modifies this`emitted, r`state
      ensures r.state == to
      ensures emitted == old(emitted) + Emits(r.id, R.SetState(R.Outcome(old(r.View()), []), to).moves)
    {
      EmitsMore(r.id, [], R.Move(r.state, to));
      if r.state == to { return; }
      emitted := emitted + [StateChanged(r.id, r.state, to)];
      r.state := to;
    }

    /** Charge a failure: schedule a retry, or quarantine when the budget is spent. */
    method FailLocked(r: Runner, now: Time, delay: nat)
      modifies this`emitted, r, r.window
      ensures r.View() == R.Fail(R.Outcome(old(r.View()), []), now, policy, delay).runner
      ensures emitted == old(emitted) + Emits(r.id, R.Fail(R.Outcome(old(r.View()), []), now, policy, delay).moves)
    {
      hide Emits, RW.Recorded;
      if !policy.restart {
        SetState(r, Failed);
        return;
      }
      r.attempt := r.attempt + 1;
      var within := r.window.Record(now);
      if !within {
        SetState(r, CrashLooping);
        return;
      }
      r.retryAt := Some(now + delay);
      SetState(r, Failed);
    }

    /** Whether every dependency the graph lists is running. */
    method DependenciesRunning(id: Id) returns (ok: bool)
      requires Separate() && SameRunners(model) && SameFlags(model)
      ensures ok == DepsRunning(model, id)
    {
      var deps := Dependencies(graph, id);
      DependenciesAre(graph, model.rel, id);
      hide GraphOf, Dependencies;
      for i := 0 to |deps|
        invariant forall k :: 0 <= k < i ==> deps[k] in model.mods && model.mods[deps[k]].runner.state == Running
      {
        if deps[i] !in runners || runners[deps[i]].state != Running {
          assert deps[i] in Elems(deps);
          return false;
        }
      }
      assert forall d :: d in DepsOf(model.rel, id) ==> d in deps;
      return true;
    }

    // ---- starting ----

    /** A dependency is down: wait for it at no charge.  The state is assigned
        before it is reported, so this change is never emitted. */
    method Defer(r: Runner, now: Time)
      modifies this`emitted, r
      ensures r.View() == R.Defer(old(r.View()), now, policy).runner && emitted == old(emitted)
    {
      r.state := Failed;
      r.blockedOnDeps := true;
      r.retryAt := Some(now + policy.initialBackoff);
      SetState(r, Failed);
    }

    method Take(r: Runner)
      modifies this`emitted, r
      ensures r.View() == R.Take(old(r.View())).runner
      ensures emitted == old(emitted) + Emits(r.id, R.Take(old(r.View())).moves)
    {
      r.generation := r.generation + 1;
      r.opInFlight := true;
      r.blockedOnDeps := false;
      r.retryAt := None;
      SetState(r, Starting);
    }

    /** Defer the start, take the slot, or do nothing. */
    method Claim(r: Runner, now: Time) returns (gen: Option<nat>)
      requires Separate() && SameRunners(model) && SameFlags(model)
      modifies this`emitted, r
      ensures r.View() == Claimed(old(r.View()), stopped, DepsRunning(model, r.id), now, policy)
      ensures gen == if R.MayClaim(old(r.View()), stopped) && DepsRunning(model, r.id) then Some(old(r.View()).generation + 1) else None
      ensures emitted == old(emitted) + if gen.Some? then Emits(r.id, R.Take(old(r.View())).moves) else []
    {
      hide CanTransition, DepsRunning, Emits, SameFlags, SameRunners, Separate;
      gen := None;
      if !stopped && !r.opInFlight && r.cfg.enabled && CanTransition(r.state, Starting) {
        var ready := DependenciesRunning(r.id);
        if !ready {
          Defer(r, now);
        } else {
          Take(r);
          gen := Some(r.generation);
        }
      }
    }

    method ClaimStart(id: Id, now: Time, ghost st: SysStep) returns (gen: Option<nat>)
      requires Valid() && started && ActsOn(model, now, st, id) && (st.ClaimDue? || st.ClaimListed? || st.ClaimReload?)
      modifies this`emitted, this`model, Of(id)
      ensures Valid() && model == Moved(old(model), now, st)
      ensures gen == ClaimAnswer(old(model), id)
    {
      hide ActsOn, ClaimAnswer, Claimed, DepsRunning, Emits, GraphOf, Init, Lists, Moved, R.MayClaim, Repr,
        Runner.View, SameButFor, SysInv;
      ghost var s0, s := model, Moved(model, now, st);
      ClaimActs(s0, now, st, id);
      MovedInv(s0, now, st);
      gen := Claim(runners[id], now);
      model := s;
      Settled(id, s0, s);
    }

    /** Record how a start ended; a stale one only gives the slot back, and its
        lease is the caller's to release. */
    method Finish(r: Runner, gen: nat, lease: Option<R.Lease>, v: R.Verdict, now: Time, delay: nat) returns (late: Option<R.Lease>)
      modifies this`emitted, r, r.window
      ensures r.View() == R.FinishStart(old(r.View()), gen, lease, v, now, policy, delay).runner
      ensures emitted == old(emitted) + Emits(r.id, R.FinishStart(old(r.View()), gen, lease, v, now, policy, delay).moves)
      ensures late == if R.Stale(old(r.View()), gen) then lease else None
    {
      hide R.Fail;
      assert emitted == emitted + Emits(r.id, []);
      r.opInFlight := false;
      late := None;
      if gen != r.generation { return lease; }
      match v
      case Ok =>
        r.lease := lease;
        r.attempt := 0;
        SetState(r, Running);
      case NotSupported =>
        SetState(r, Unsupported);
      case Erred =>
        FailLocked(r, now, delay);
    }

    method FinishStart(id: Id, ghost o: OpId, gen: nat, lease: Option<R.Lease>, v: R.Verdict, now: Time, delay: nat)
      returns (late: Option<R.Lease>)
      requires Valid() && started && ActsOn(model, now, Local(id, Protocol.FinishStart(o, delay)), id)
      requires Holds(model, id, o, Start(gen, Finishing(v), lease))
      modifies this`emitted, this`model, Of(id)
      ensures Valid() && model == Moved(old(model), now, Local(id, Protocol.FinishStart(o, delay)))
      ensures late == LateAnswer(old(model), id, gen, lease)
      ensures late.Some? ==> Holds(model, id, old(NextOp(model, id)), LateRelease(late))
    {
      hide ActsOn, Emits, GraphOf, Holds, Init, LateAnswer, Lists, Moved, NextOp, R.Stale, Repr, Runner.View,
        SameButFor, SysInv;
      ghost var s0, s := model, Moved(model, now, Local(id, Protocol.FinishStart(o, delay)));
      FinishActs(s0, now, id, o, gen, lease, v, delay);
      MovedInv(s0, now, Local(id, Protocol.FinishStart(o, delay)));
      late := Finish(runners[id], gen, lease, v, now, delay);
      model := s;
      Settled(id, s0, s);
    }

    // ---- a reported runtime failure ----

    method BeginFailStop(r: Runner) returns (lease: Option<R.Lease>)
      modifies this`emitted, r
      ensures r.View() == R.BeginFailStop(old(r.View())).runner && lease == old(r.View()).lease
      ensures emitted == old(emitted) + Emits(r.id, R.BeginFailStop(old(r.View())).moves)
    {
      r.opInFlight := true;
      lease := r.lease;
      SetState(r, Stopping);
      r.lease := None;
    }

    /** The report is about the instance that is running now. */
    method IsCurrent(r: Runner, gen: nat) returns (ok: bool)
      ensures ok == R.MayFail(r.View(), stopped, gen)
    {
      ok := !(stopped || gen != r.generation || r.state != Running || r.opInFlight);
    }

    /** A running module reported a failure: take its slot, and list everything
        that depends on it in the order it is to be stopped. */
    method HandleRuntimeFailure(id: Id, gen: nat, now: Time) returns (accepted: bool, lease: Option<R.Lease>, dependents: seq<Id>)
      requires Valid() && started && model.env.now <= now
      modifies this`emitted, this`model, Of(id)
      ensures Valid() && accepted == MayFailNow(old(model), id, gen)
      ensures accepted ==> model == Moved(old(model), now, ReportFailure(id, gen, dependents))
      ensures accepted ==> Holds(model, id, old(NextOp(model, id)), FailStop(Pending, lease))
      ensures !accepted ==> model == old(model) && emitted == old(emitted)
    {
      hide DependentsInOrder, GraphOf, Holds, Init, Lists, Moved, NextOp, R.MayFail, Repr, Runner.View, SysInv;
      accepted, lease, dependents := false, None, [];
      if id !in runners { return; }
      accepted := IsCurrent(runners[id], gen);
      if !accepted { return; }
      dependents := Dependents(id);
      lease := TakeFailing(id, gen, now, dependents);
    }

    method TakeFailing(id: Id, gen: nat, now: Time, ghost dependents: seq<Id>) returns (lease: Option<R.Lease>)
      requires Valid() && started && model.env.now <= now && MayFailNow(model, id, gen)
      requires DependentsInOrder(model.rel, id, dependents)
      modifies this`emitted, this`model, Of(id)
      ensures Valid() && model == Moved(old(model), now, ReportFailure(id, gen, dependents))
      ensures Holds(model, id, old(NextOp(model, id)), FailStop(Pending, lease))
    {
      hide DependentsInOrder, Emits, GraphOf, Holds, Init, Lists, MayFailNow, Moved, NextOp, Repr, Runner.View,
        SameButFor, SysInv;
      ghost var s0, s := model, Moved(model, now, ReportFailure(id, gen, dependents));
      FailureActs(s0, now, id, gen, dependents);
      MovedInv(s0, now, ReportFailure(id, gen, dependents));
      lease := BeginFailStop(runners[id]);
      model := s;
      Settled(id, s0, s);
    }

    /** Everything that depends on `id`, dependents before dependencies. */
    method Dependents(id: Id) returns (out: seq<Id>)
      requires GraphOf(graph, model.rel)
      ensures DependentsInOrder(model.rel, id, out)
    {
      hide Clean, Resolved, DependsOn;
      out := [];
      if graph.Some? {
        out := TransitiveDependents(graph.value, id, model.rel);
      }
    }

    method FinishFailStop(r: Runner, now: Time, delay: nat)
      modifies this`emitted, r, r.window
      ensures r.View() == R.EndFailStop(old(r.View()), now, policy, delay).runner
      ensures emitted == old(emitted) + Emits(r.id, R.EndFailStop(old(r.View()), now, policy, delay).moves)
    {
      hide Emits, R.Fail;
      r.opInFlight := false;
      SetState(r, Stopped);
      ghost var halfway := r.View();
      FailLocked(r, now, delay);
      FailIgnoresMoves(R.SetState(R.Outcome(old(r.View()).(opInFlight := false), []), Stopped), now, policy, delay);
      assert halfway == R.SetState(R.Outcome(old(r.View()).(opInFlight := false), []), Stopped).runner;
      EmitsJoin(r.id, R.SetState(R.Outcome(old(r.View()).(opInFlight := false), []), Stopped).moves,
        R.Fail(R.Outcome(halfway, []), now, policy, delay).moves);
    }

    /** The failed module's own stop has really returned: charge the failure. */
    method EndFailStop(id: Id, ghost o: OpId, now: Time, delay: nat)
      requires Valid() && started && ActsOn(model, now, Local(id, Protocol.EndFailStop(o, delay)), id)
      modifies this`emitted, this`model, Of(id)
      ensures Valid() && model == Moved(old(model), now, Local(id, Protocol.EndFailStop(o, delay)))
    {
      hide ActsOn, GraphOf, Init, Lists, Moved, Repr, Runner.View, SameButFor, SysInv;
      ghost var s0, s := model, Moved(model, now, Local(id, Protocol.EndFailStop(o, delay)));
      EndFailActs(s0, now, id, o, delay);
      MovedInv(s0, now, Local(id, Protocol.EndFailStop(o, delay)));
      FinishFailStop(runners[id], now, delay);
      model := s;
      Settled(id, s0, s);
    }

    // ---- a dependency went away ----

    method BeginDepStop(r: Runner) returns (go: bool, lease: Option<R.Lease>)
      modifies this`emitted, r
      ensures go == R.MayStopForDependency(old(r.View()))
      ensures r.View() == if go then R.BeginDepStop(old(r.View())).runner else old(r.View())
      ensures lease == if go then old(r.View()).lease else None
      ensures emitted == old(emitted) + if go then Emits(r.id, R.BeginDepStop(old(r.View())).moves) else []
    {
      go, lease := false, None;
      if r.opInFlight || !Active(r.state) { return; }
      go := true;
      r.opInFlight := true;
      r.generation := r.generation + 1;
      lease := r.lease;
      r.lease := None;
      SetState(r, Stopping);
    }

    /** Stop the next dependent of a failing module, unless it is busy or at rest. */
    method StopForDependency(cause: Id, ghost o: OpId, id: Id, now: Time)
      returns (go: bool, lease: Option<R.Lease>, retryDelay: nat)
      requires Valid() && started && NextDependent(model, now, cause, o, id)
      modifies this`emitted, this`model, Of(id)
      ensures Valid() && model == Moved(old(model), now, StopDependent(cause, o))
      ensures go == MayStopNow(old(model), id)
      ensures go ==> Holds(model, id, old(NextOp(model, id)), DepStop(InCall, lease))
      ensures retryDelay == policy.initialBackoff
    {
      hide Emits, GraphOf, Holds, Init, Lists, MayStopNow, Moved, NextDependent, NextOp, R.MayStopForDependency, Repr,
        Runner.View, SameButFor, SysInv;
      ghost var s0, s := model, Moved(model, now, StopDependent(cause, o));
      MovedInv(s0, now, StopDependent(cause, o));
      go, lease, retryDelay := false, None, policy.initialBackoff;
      if id !in runners {
        UnknownDependent(s0, now, cause, o, id);
        model := s;
        Untouched(s0, s);
        return;
      }
      DependentActs(s0, now, cause, o, id);
      go, lease := BeginDepStop(runners[id]);
      model := s;
      Settled(id, s0, s);
    }

    method FinishDepStop(r: Runner, now: Time, retryDelay: nat)
      modifies this`emitted, r
      ensures r.View() == R.EndDepStop(old(r.View()), now, retryDelay).runner
      ensures emitted == old(emitted) + Emits(r.id, R.EndDepStop(old(r.View()), now, retryDelay).moves)
      ensures r.state == Failed && r.retryAt == Some(now + retryDelay) && !r.opInFlight
    {
      hide Emits, CanTransition;
      r.opInFlight := false;
      r.blockedOnDeps := true;
      r.retryAt := Some(now + retryDelay);
      ghost var waiting := r.View();
      SetState(r, Stopped);
      ghost var halfway := r.View();
      SetState(r, Failed);
      SetStateAdds(R.SetState(R.Outcome(waiting, []), Stopped), Failed);
      EmitsJoin(r.id, R.SetState(R.Outcome(waiting, []), Stopped).moves, R.SetState(R.Outcome(halfway, []), Failed).moves);
    }

    /** The dependent's stop has really returned: it waits, uncharged. */
    method EndDepStop(id: Id, ghost o: OpId, now: Time, retryDelay: nat)
      requires Valid() && started && ActsOn(model, now, Local(id, Protocol.EndDepStop(o, retryDelay)), id)
      modifies this`emitted, this`model, Of(id)
      ensures Valid() && model == Moved(old(model), now, Local(id, Protocol.EndDepStop(o, retryDelay)))
      ensures id in runners && runners[id].state == Failed && runners[id].retryAt == Some(now + retryDelay) && !runners[id].opInFlight
    {
      hide ActsOn, GraphOf, Init, Lists, Moved, Repr, Runner.View, SameButFor, SysInv;
      ghost var s0, s := model, Moved(model, now, Local(id, Protocol.EndDepStop(o, retryDelay)));
      EndDepActs(s0, now, id, o, retryDelay);
      MovedInv(s0, now, Local(id, Protocol.EndDepStop(o, retryDelay)));
      FinishDepStop(runners[id], now, retryDelay);
      model := s;
      Settled(id, s0, s);
    }

    // ---- shutdown and disabling ----

    method BeginStop(r: Runner) returns (call: bool, lease: Option<R.Lease>)
      modifies this`emitted, r
      ensures call == Active(old(r.View()).state) && lease == if call then old(r.View()).lease else None
      ensures var o := if call then R.BeginStopModule(old(r.View())) else R.StopInactive(old(r.View()));
        r.View() == o.runner && emitted == old(emitted) + Emits(r.id, o.moves)
    {
      call, lease := Active(r.state), None;
      if call {
        lease := TakeForStop(r);
      } else if r.state != Disabled && r.state != Unsupported {
        MarkStopped(r);
      }
    }

    method TakeForStop(r: Runner) returns (lease: Option<R.Lease>)
      modifies this`emitted, r
      ensures lease == old(r.View()).lease && r.View() == R.BeginStopModule(old(r.View())).runner
      ensures emitted == old(emitted) + Emits(r.id, R.BeginStopModule(old(r.View())).moves)
    {
      r.generation := r.generation + 1;
      lease := r.lease;
      r.lease := None;
      SetState(r, Stopping);
    }

    /** The first half of stopModule: what is not active is merely marked Stopped. */
    method StopModule(id: Id, now: Time, ghost byReload: bool) returns (call: bool, lease: Option<R.Lease>)
      requires Valid() && started && ActsOn(model, now, Local(id, Protocol.StopModule(byReload)), id)
      modifies this`emitted, this`model, Of(id)
      ensures Valid() && model == Moved(old(model), now, Local(id, Protocol.StopModule(byReload)))
      ensures call == ActiveNow(old(model), id) && (!call ==> lease == None)
      ensures call ==> Holds(model, id, old(NextOp(model, id)), ModStop(InCall, lease, byReload))
    {
      hide Active, ActiveNow, ActsOn, GraphOf, Holds, Init, Lists, Moved, NextOp, R.BeginStopModule, R.StopInactive,
        Repr, Runner.View, SameButFor, SysInv;
      ghost var s0, s := model, Moved(model, now, Local(id, Protocol.StopModule(byReload)));
      StopActs(s0, now, id, byReload);
      MovedInv(s0, now, Local(id, Protocol.StopModule(byReload)));
      call, lease := BeginStop(runners[id]);
      model := s;
      Settled(id, s0, s);
    }

    method MarkStopped(r: Runner)
      modifies this`emitted, r
      ensures r.View() == R.EndStopModule(old(r.View())).runner
      ensures emitted == old(emitted) + Emits(r.id, R.EndStopModule(old(r.View())).moves)
    {
      r.retryAt := None;
      SetState(r, Stopped);
    }

    /** The second half, once the call has returned or overrun its deadline. */
    method EndStopModule(id: Id, ghost o: OpId, now: Time)
      requires Valid() && started && ActsOn(model, now, Local(id, EndModStop(o)), id)
      modifies this`emitted, this`model, Of(id)
      ensures Valid() && model == Moved(old(model), now, Local(id, EndModStop(o)))
    {
      hide ActsOn, GraphOf, Init, Lists, Moved, Repr, Runner.View, SameButFor, SysInv;
      ghost var s0, s := model, Moved(model, now, Local(id, EndModStop(o)));
      EndModActs(s0, now, id, o);
      MovedInv(s0, now, Local(id, EndModStop(o)));
      MarkStopped(runners[id]);
      model := s;
      Settled(id, s0, s);
    }

    method MarkDisabled(r: Runner)
      modifies this`emitted, r
      ensures r.View() == R.Disable(old(r.View())).runner
      ensures emitted == old(emitted) + Emits(r.id, R.Disable(old(r.View())).moves)
    {
      r.retryAt := None;
      SetState(r, Disabled);
    }

    /** A reload has stopped the module it turns off. */
    method DisableStopped(id: Id, now: Time)
      requires Valid() && started && ActsOn(model, now, Local(id, DisableModule), id)
      modifies this`emitted, this`model, Of(id)
      ensures Valid() && model == Moved(old(model), now, Local(id, DisableModule))
    {
      hide ActsOn, GraphOf, Init, Lists, Moved, R.Disable, Repr, Runner.View, SameButFor, SysInv;
      ghost var s0, s := model, Moved(model, now, Local(id, DisableModule));
      DisableActs(s0, now, id);
      MovedInv(s0, now, Local(id, DisableModule));
      MarkDisabled(runners[id]);
      model := s;
      Settled(id, s0, s);
    }

    // ---- the whole table at once ----

    /** The restarts that have come due, in registration order. */
    method CollectDue(now: Time) returns (due: seq<Id>)
      requires Valid() && started && model.env.now <= now && model.due == []
      modifies this`model
      ensures Valid()
      ensures stopped ==> due == [] && model == old(model)
      ensures !stopped ==> model == Moved(old(model), now, SysStep.CollectDue(due)) && model.due == due
      ensures !stopped ==> forall id :: id in due <==> id in old(model).mods && R.Due(old(model).mods[id].runner, now)
    {
      hide Clocked, GraphOf, Init, Lists, Moved, R.Due, Repr, Runner.View, SysInv;
      due := [];
      if stopped { return; }
      ghost var s0 := model;
      due := ScanDue(now);
      CollectActs(s0, now, due);
      MovedInv(s0, now, SysStep.CollectDue(due));
      model := Moved(s0, now, SysStep.CollectDue(due));
      Untouched(s0, model);
    }

    method ScanDue(now: Time) returns (due: seq<Id>)
      requires Separate() && SameRunners(model)
      ensures forall id :: id in due <==> id in model.mods && R.Due(model.mods[id].runner, now)
    {
      due := [];
      for i := 0 to |regOrder|
        invariant forall id :: id in due <==> id in regOrder[..i] && id in model.mods && R.Due(model.mods[id].runner, now)
      {
        var id := regOrder[i];
        assert id in Elems(regOrder);
        var r := runners[id];
        if !(r.state != Failed || r.opInFlight || r.retryAt.None?) && r.retryAt.value <= now {
          due := due + [id];
        }
        assert regOrder[..i+1] == regOrder[..i] + [id];
      }
      assert regOrder[..|regOrder|] == regOrder;
      assert forall id :: id in model.mods ==> id in Elems(regOrder);
    }

    /** One module under a new configuration; a quarantine is released. */
    method SwapOne(r: Runner, cfg: R.ModuleConfig, now: Time)
      modifies this`emitted, r, r.window
      ensures r.View() == R.Reconfigure(old(r.View()), cfg, now).runner
      ensures emitted == old(emitted) + Emits(r.id, R.Reconfigure(old(r.View()), cfg, now).moves)
    {
      r.cfg := cfg;
      if r.state == CrashLooping && cfg.enabled {
        r.window.Reset();
        r.attempt := 0;
        r.retryAt := Some(now);
        SetState(r, Failed);
      }
    }

    method Swap(id: Id, cfg: R.ModuleConfig, now: Time) returns (was: R.ModuleConfig)
      requires Separate() && id in runners
      modifies this`emitted, Of(id)
      ensures was == old(Views())[id].cfg
      ensures Views() == old(Views())[id := R.Reconfigure(old(Views())[id], cfg, now).runner]
    {
      hide Lists, R.Reconfigure, Repr;
      ghost var views := Views();
      assert views[id] == runners[id].View();
      was := runners[id].cfg;
      assert was == views[id].cfg;
      SwapOne(runners[id], cfg, now);
      ViewsChanged(id, views);
    }

    method SwapAll(cfgs: map<Id, R.ModuleConfig>, now: Time) returns (toStop: seq<Id>, toStart: seq<Id>)
      requires Separate() && cfgs.Keys == runners.Keys
      modifies this`emitted, Repr()
      ensures Views() == SwappedViews(old(Views()), cfgs, now, runners.Keys)
      ensures forall id :: id in toStop <==> TurnsOff(old(Views()), cfgs, runners.Keys, id)
      ensures forall id :: id in toStart <==> TurnsOn(old(Views()), cfgs, runners.Keys, id)
    {
      hide Elems, Lists, R.Reconfigure, SwappedViews, TurnsOff, TurnsOn, Views;
      toStop, toStart := [], [];
      ghost var views := Views();
      ghost var done: set<Id> := {};
      ListBegins(regOrder, runners.Keys);
      NothingSwapped(views, cfgs, now);
      ViewsKeys();
      for i := 0 to |regOrder|
        invariant done == Elems(regOrder[..i]) && Views() == SwappedViews(views, cfgs, now, done)
        invariant forall id :: id in toStop <==> TurnsOff(views, cfgs, done, id)
        invariant forall id :: id in toStart <==> TurnsOn(views, cfgs, done, id)
      {
        var id := regOrder[i];
        NextInOrder(regOrder, i, done, runners.Keys);
        SwapMore(views, cfgs, now, done, id);
        var was := Swap(id, cfgs[id], now);
        if was.enabled && !cfgs[id].enabled { toStop := toStop + [id]; }
        if !was.enabled && cfgs[id].enabled { toStart := toStart + [id]; }
        done := done + {id};
      }
      assert regOrder[..|regOrder|] == regOrder;
    }

    lemma ViewsAre(s: Sys)
      ensures SameRunners(s) <==> Views() == RunnersOf(s)
    {
      assert SameRunners(s) ==> RunnersOf(s).Keys == Views().Keys;
      if Views() == RunnersOf(s) {
        assert Views().Keys == runners.Keys && RunnersOf(s).Keys == s.mods.Keys;
        assert forall id :: id in runners ==> Views()[id] == runners[id].View();
      }
    }

    lemma Opened()
      requires Valid()
      ensures Separate() && Views() == RunnersOf(model) && SameFlags(model) && SysInv(model)
      ensures runners.Keys == model.mods.Keys && Views().Keys == runners.Keys && this !in Repr()
      ensures stopped == model.env.stopped && policy == model.env.policy && GraphOf(graph, model.rel)
      ensures !started && !stopped ==> Init(model)
      ensures !started ==> R.ValidRestarts(policy, maxRestarts, restartWindow)
    {
      ViewsAre(model);
      hide SysInv, Init, Separate, GraphOf;
    }

    lemma Closed()
      requires Separate() && Views() == RunnersOf(model) && SysInv(model)
      requires stopped == model.env.stopped && policy == model.env.policy && GraphOf(graph, model.rel)
      requires !started && !stopped ==> Init(model)
      requires !started ==> R.ValidRestarts(policy, maxRestarts, restartWindow)
      ensures Valid()
    {
      ViewsAre(model);
      hide SysInv, Init, Separate, GraphOf;
    }

    lemma ViewsKeys()
      ensures Views().Keys == runners.Keys
    {
    }

    /** Phase three of a reload: swap configuration and graph, and say which
        modules are now to be stopped and started. */
    method ApplyReload(cfgs: map<Id, R.ModuleConfig>, newGraph: Graph, newPolicy: R.Policy, now: Time, ghost rel: Relation)
      returns (toStop: seq<Id>, toStart: seq<Id>)
      requires Valid() && started && model.env.now <= now && NoReload(model)
      requires cfgs.Keys == runners.Keys && GraphOf(Some(newGraph), rel)
      modifies this`policy, this`graph, this`emitted, this`model, Repr()
      ensures Valid()
      ensures model == Moved(old(model), now, SysStep.ApplyReload(cfgs, rel, newPolicy))
      ensures forall id :: id in toStop <==> id in model.mods && model.mods[id].tag == MustStop
      ensures forall id :: id in toStart <==> id in model.mods && model.mods[id].tag == MustStart
    {
      hide *;
      Opened();
      ghost var s0, s := model, Moved(model, now, SysStep.ApplyReload(cfgs, rel, newPolicy));
      ReloadActs(s0, now, cfgs, rel, newPolicy);
      MovedInv(s0, now, SysStep.ApplyReload(cfgs, rel, newPolicy));
      ReloadViews(s0, s, cfgs, now);
      policy := newPolicy;
      graph := Some(newGraph);
      toStop, toStart := SwapAll(cfgs, now);
      model := s;
      Closed();
    }

    method Reopen(id: Id)
      requires Separate() && id in runners
      modifies this`emitted, Of(id)
      ensures Views() == old(Views())[id := R.Reenable(old(Views())[id]).runner]
    {
      hide Lists, R.Reenable, Runner.View, SameRunners;
      ghost var views := Views();
      assert views[id] == runners[id].View();
      LeaveDisabled(runners[id]);
      ViewsChanged(id, views);
    }

    method LeaveDisabled(r: Runner)
      modifies this`emitted, r
      ensures r.View() == R.Reenable(old(r.View())).runner
      ensures emitted == old(emitted) + Emits(r.id, R.Reenable(old(r.View())).moves)
    {
      if r.state == Disabled { SetState(r, Stopped); }
    }

    method ReenableAll(toStart: seq<Id>)
      requires Separate() && forall id :: id in toStart ==> id in runners
      modifies this`emitted, Repr()
      ensures Views() == ReenabledViews(old(Views()), Elems(toStart))
    {
      hide Lists, R.Reenable, Views;
      ghost var views := Views();
      ghost var done: set<Id> := {};
      ViewsKeys();
      assert Elems(toStart[..0]) == {};
      assert ReenabledViews(views, {}) == views;
      for i := 0 to |toStart|
        invariant done == Elems(toStart[..i]) && Views() == ReenabledViews(views, done)
      {
        NextElem(toStart, i, done);
        ReenableMore(views, done, toStart[i]);
        Reopen(toStart[i]);
        done := done + {toStart[i]};
      }
      assert toStart[..|toStart|] == toStart;
    }

    /** The modules the reload turns on leave Disabled, ready to be claimed. */
    method OpenToStart(toStart: seq<Id>, now: Time)
      requires Valid() && started && model.env.now <= now && Enabled(Clocked(model, now), OpenStarts)
      requires forall id :: id in toStart <==> id in model.mods && model.mods[id].tag == MustStart
      modifies this`emitted, this`model, Repr()
      ensures Valid() && model == Moved(old(model), now, OpenStarts)
    {
      hide Clocked, Elems, Enabled, GraphOf, Init, Moved, R.Reenable, ReenabledViews, RunnersOf, SameFlags, Separate,
        SysInv, Valid, Views;
      Opened();
      ghost var s0, s := model, Moved(model, now, OpenStarts);
      OpenActs(s0, now);
      MovedInv(s0, now, OpenStarts);
      OpenViews(s0, s, toStart);
      ReenableAll(toStart);
      model := s;
      Closed();
    }

    /** Shutdown begins: no start is claimed from here on, and modules are to be
        stopped dependents first. */
    method BeginShutdown(now: Time) returns (first: bool, order: seq<Id>)
      requires Valid() && model.env.now <= now
      modifies this`stopped, this`model
      ensures Valid() && stopped && first == !old(stopped)
      ensures model == if first then Moved(old(model), now, Shutdown) else old(model)
      ensures StopsDependentsFirst(model.rel, order)
      ensures first && started && graph.Some? ==> forall id :: id in order <==> id in model.rel
    {
      hide Clean, DependsOn, Init, Lists, Moved, Repr, Resolved, Runner.View, SysInv;
      first, order := !stopped, [];
      assert StopsDependentsFirst(model.rel, order);
      if !first { return; }
      ghost var s0 := model;
      ShutdownActs(s0, now);
      MovedInv(s0, now, Shutdown);
      stopped := true;
      model := Moved(s0, now, Shutdown);
      if started && graph.Some? {
        order := StopOrder(graph.value);
        StopOrderIs(model.rel, graph.value, order);
      }
    }

    // ---- registration and start-up ----

    constructor (policy: R.Policy, maxRestarts: int, restartWindow: int, now: Time)
      requires R.ValidRestarts(policy, maxRestarts, restartWindow)
      ensures Valid() && !started && !stopped && runners == map[] && model.env == Env(false, now, policy)
      ensures this.maxRestarts == maxRestarts && this.restartWindow == restartWindow
    {
      this.maxRestarts, this.restartWindow := maxRestarts, restartWindow;
      runners, regOrder, this.policy, graph, started, stopped, emitted := map[], [], policy, None, false, false, [];
      model := Sys(map[], map[], Env(false, now, policy), 0, [], [], [], map[]);
      new;
      InitInv(model);
    }

    /** A supervisor, unless the configuration's restart budget is invalid. */
    static method New(policy: R.Policy, maxRestarts: int, restartWindow: int, now: Time) returns (r: Option<Supervisor>)
      ensures r.Some? <==> R.ValidRestarts(policy, maxRestarts, restartWindow)
      ensures r.Some? ==> fresh(r.value) && r.value.Valid() && !r.value.started && !r.value.stopped && r.value.runners == map[]
      ensures r.Some? ==> r.value.maxRestarts == maxRestarts && r.value.restartWindow == restartWindow
    {
      if !R.ValidRestarts(policy, maxRestarts, restartWindow) { return None; }
      var s := new Supervisor(policy, maxRestarts, restartWindow, now);
      r := Some(s);
    }

    /** Add a module, before Start and under a new identifier only. */
    method Register(id: Id, dependencies: seq<Id>, cfg: R.ModuleConfig) returns (ok: bool)
      requires Valid()
      modifies this`runners, this`regOrder, this`model
      ensures Valid() && ok == (!started && id !in old(runners))
      ensures ok ==> regOrder == old(regOrder) + [id]
      ensures ok ==> model == old(model).(mods := old(model).mods[id := NewMod(cfg, maxRestarts, restartWindow)])
      ensures !ok ==> model == old(model) && runners == old(runners)
    {
      hide *;
      ok := !started && id !in runners;
      if !ok { return; }
      Opened();
      RegisterActs(model, id, cfg, maxRestarts, restartWindow);
      Add(id, dependencies, cfg, maxRestarts, restartWindow);
      model := model.(mods := model.mods[id := NewMod(cfg, maxRestarts, restartWindow)]);
      Closed();
    }

    /** A record of its own for a new module. */
    method Add(id: Id, dependencies: seq<Id>, cfg: R.ModuleConfig, max: int, window: int)
      requires Separate() && id !in runners
      modifies this`runners, this`regOrder
      ensures Separate() && regOrder == old(regOrder) + [id] && fresh(Of(id))
      ensures Views() == old(Views())[id := NewMod(cfg, max, window).runner] && this !in Repr()
    {
      hide Lists, Runner.View, SameRunners;
      ghost var views := Views();
      var r := new Runner(id, dependencies, cfg, max, window);
      assert r.View() == NewMod(cfg, max, window).runner;
      assert forall j :: j in runners ==> runners[j].View() == views[j];
      ListsMore(regOrder, runners.Keys, id);
      runners := runners[id := r];
      regOrder := regOrder + [id];
      assert runners.Keys == old(runners).Keys + {id};
      ViewsChanged(id, views);
    }

    /** Resolve the enabled modules and open the start list. */
    method BeginStart() returns (r: Result<seq<Id>, StartError>)
      requires Valid()
      modifies this`started, this`graph, this`model
      ensures Valid()
      ensures r.Success? ==> started && Init(model) && LeastOrder(model.rel, r.value)
      ensures r.Success? ==> model == old(model).(rel := RelationOf(Wanted()), starting := r.value)
      ensures r.Success? <==> !old(started) && !stopped && Clean(RelationOf(Wanted())) && Acyclic(RelationOf(Wanted()))
      ensures r.Failure? ==> model == old(model) && started == old(started)
    {
      hide *;
      Opened();
      if started { return Failure(AlreadyStarted); }
      if stopped { return Failure(AlreadyShutDown); }
      var resolved := ResolveWanted();
      if resolved.Failure? { return Failure(Structural(resolved.error)); }
      Opened();
      graph := Some(resolved.value);
      started := true;
      ghost var rel := RelationOf(Wanted());
      StartActs(model, rel, resolved.value);
      model := model.(rel := rel, starting := resolved.value.order);
      Closed();
      r := Success(resolved.value.order);
    }

    method ResolveWanted() returns (r: Result<Graph, ResolveError>)
      requires Valid()
      ensures Valid() && Wanted() == old(Wanted()) && this !in Repr()
      ensures RelationOf(Wanted()).Keys <= runners.Keys
      ensures r.Success? ==> Resolved(RelationOf(Wanted()), r.value)
      ensures r.Success? <==> Clean(RelationOf(Wanted())) && Acyclic(RelationOf(Wanted()))
    {
      hide SysInv, Init, GraphOf, Acyclic, Clean, Resolved, Separate;
      var manifests := map id | id in runners && runners[id].cfg.enabled :: runners[id].dependencies;
      assert manifests == Wanted();
      r := Resolve.Resolve(manifests);
      assert manifests == Wanted();
    }

    /** The manifests of the enabled modules. */
    ghost function Wanted(): Manifests
      reads this`runners, Repr()
    {
      map id | id in runners && runners[id].cfg.enabled :: runners[id].dependencies
    }

    // ---- between the critical sections ----

    /** The calls a goroutine makes while it holds no lock: admission, the
        module's own Start and Stop, releases, and the clock. */
    ghost method Outside(st: SysStep)
      requires Valid() && started && Enabled(model, st)
      requires st.Tick? || st.AdmitStart? || (st.Local? && IsCall(st.st))
      modifies this`model
      ensures Valid() && model == Step(old(model), st)
    {
      hide Enabled, GraphOf, Init, IsCall, Lists, Repr, Runner.View, Step, SysInv;
      OutsideActs(model, st);
      ghost var s0 := model;
      StepInv(s0, st);
      model := Step(s0, st);
      Untouched(s0, model);
    }
  }

  /** Operation `o` of module `id` is in flight, and is `op`. */
  ghost predicate Holds(s: Sys, id: Id, o: OpId, op: Op) {
    id in s.mods && o in s.mods[id].ops && s.mods[id].ops[o] == op
  }

  ghost function NextOp(s: Sys, id: Id): OpId {
    if id in s.mods then s.mods[id].nextOp else 0
  }

  ghost predicate MayFailNow(s: Sys, id: Id, gen: nat) {
    id in s.mods && R.MayFail(s.mods[id].runner, s.env.stopped, gen)
  }

  ghost predicate DependentsInOrder(rel: Relation, id: Id, out: seq<Id>) {
    && (forall x :: x in out <==> id in rel && x in rel && DependsOn(rel, x, id))
    && StopsDependentsFirst(rel, out)
  }

  lemma FailIgnoresMoves(o: R.Outcome, now: Time, policy: R.Policy, delay: nat)
    ensures R.Fail(o, now, policy, delay).runner == R.Fail(R.Outcome(o.runner, []), now, policy, delay).runner
    ensures R.Fail(o, now, policy, delay).moves == o.moves + R.Fail(R.Outcome(o.runner, []), now, policy, delay).moves
  {
  }

  lemma SetStateAdds(o: R.Outcome, to: State)
    ensures R.SetState(o, to).runner == R.SetState(R.Outcome(o.runner, []), to).runner
    ensures R.SetState(o, to).moves == o.moves + R.SetState(R.Outcome(o.runner, []), to).moves
  {
  }

  lemma LocalActs(s: Sys, now: Time, id: Id, l: ModStep)
    requires ActsOn(s, now, Local(id, l), id)
    ensures var s' := Moved(s, now, Local(id, l));
      && id in s.mods && id in s'.mods && SameButFor(s, s', id)
      && Guard(s.mods[id], Clocked(s, now).env, l) && s'.mods[id] == Next(s.mods[id], Clocked(s, now).env, l)
  {
    MovedAt(s, now, Local(id, l), id);
    hide Enabled, Moved, SameButFor, Guard, Next;
  }

  /** The lease an outdated start attempt hands back. */
  ghost function LateAnswer(s: Sys, id: Id, gen: nat, lease: Option<R.Lease>): Option<R.Lease> {
    if id in s.mods && R.Stale(s.mods[id].runner, gen) then lease else None
  }

  lemma FinishActs(s: Sys, now: Time, id: Id, o: OpId, gen: nat, lease: Option<R.Lease>, v: R.Verdict, delay: nat)
    requires ActsOn(s, now, Local(id, Protocol.FinishStart(o, delay)), id) && Holds(s, id, o, Start(gen, Finishing(v), lease))
    ensures var s' := Moved(s, now, Local(id, Protocol.FinishStart(o, delay)));
      && id in s.mods && id in s'.mods && SameButFor(s, s', id)
      && s'.mods[id].runner == R.FinishStart(s.mods[id].runner, gen, lease, v, now, s.env.policy, delay).runner
      && (R.Stale(s.mods[id].runner, gen) && lease.Some? ==> Holds(s', id, s.mods[id].nextOp, LateRelease(lease)))
      && NextOp(s, id) == s.mods[id].nextOp
      && LateAnswer(s, id, gen, lease) == if R.Stale(s.mods[id].runner, gen) then lease else None
  {
    LocalActs(s, now, id, Protocol.FinishStart(o, delay));
    hide Enabled, Moved, SameButFor, R.FinishStart, ActsOn;
  }

  lemma FailureActs(s: Sys, now: Time, id: Id, gen: nat, dependents: seq<Id>)
    requires s.env.now <= now && MayFailNow(s, id, gen) && DependentsInOrder(s.rel, id, dependents)
    ensures var s' := Moved(s, now, ReportFailure(id, gen, dependents));
      && id in s.mods && id in s'.mods && SameButFor(s, s', id)
      && s'.mods[id].runner == R.BeginFailStop(s.mods[id].runner).runner
      && Holds(s', id, s.mods[id].nextOp, FailStop(Pending, s.mods[id].runner.lease)) && NextOp(s, id) == s.mods[id].nextOp
  {
    hide DependsOn, StopsDependentsFirst, R.BeginFailStop;
    assert ActsOn(s, now, ReportFailure(id, gen, dependents), id);
    MovedAt(s, now, ReportFailure(id, gen, dependents), id);
    hide Enabled, Moved, SameButFor, ActsOn;
  }

  lemma EndFailActs(s: Sys, now: Time, id: Id, o: OpId, delay: nat)
    requires ActsOn(s, now, Local(id, Protocol.EndFailStop(o, delay)), id)
    ensures var s' := Moved(s, now, Local(id, Protocol.EndFailStop(o, delay)));
      && id in s.mods && id in s'.mods && SameButFor(s, s', id)
      && s'.mods[id].runner == R.EndFailStop(s.mods[id].runner, now, s.env.policy, delay).runner
  {
    LocalActs(s, now, id, Protocol.EndFailStop(o, delay));
    hide Enabled, Moved, SameButFor, R.EndFailStop, ActsOn;
  }

  /** The generation a claim hands out, if it takes the slot. */
  ghost function ClaimAnswer(s: Sys, id: Id): Option<nat> {
    if id in s.mods && R.MayClaim(s.mods[id].runner, s.env.stopped) && DepsRunning(s, id)
    then Some(s.mods[id].runner.generation + 1) else None
  }

  /** The runner after a claim. */
  ghost function Claimed(r: R.RunnerState, stopped: bool, depsRunning: bool, now: Time, policy: R.Policy): R.RunnerState {
    if !R.MayClaim(r, stopped) then r
    else if depsRunning then R.Take(r).runner else R.Defer(r, now, policy).runner
  }

  /** What a claim does to the module it names. */
  lemma ClaimActs(s: Sys, now: Time, st: SysStep, id: Id)
    requires ActsOn(s, now, st, id) && (st.ClaimDue? || st.ClaimListed? || st.ClaimReload?)
    ensures id in s.mods && id in Moved(s, now, st).mods && SameButFor(s, Moved(s, now, st), id)
    ensures Moved(s, now, st).mods[id].runner == Claimed(s.mods[id].runner, s.env.stopped, DepsRunning(s, id), now, s.env.policy)
    ensures ClaimAnswer(s, id) ==
      if R.MayClaim(s.mods[id].runner, s.env.stopped) && DepsRunning(s, id) then Some(s.mods[id].runner.generation + 1) else None
  {
    MovedAt(s, now, st, id);
    assert DepsRunning(Clocked(s, now), id) == DepsRunning(s, id);
    hide Enabled, Moved, DepsRunning, R.Take, R.Defer, R.MayClaim, SameButFor;
  }

  ghost predicate NextDependent(s: Sys, now: Time, cause: Id, o: OpId, id: Id) {
    && s.env.now <= now && Enabled(Clocked(s, now), StopDependent(cause, o))
    && s.plans[(cause, o)].rest[0] == id
  }

  /** The module is known, active and not busy. */
  ghost predicate MayStopNow(s: Sys, id: Id) {
    id in s.mods && R.MayStopForDependency(s.mods[id].runner)
  }

  /** A dependent the supervisor does not know is passed over. */
  lemma UnknownDependent(s: Sys, now: Time, cause: Id, o: OpId, id: Id)
    requires NextDependent(s, now, cause, o, id) && id !in s.mods
    ensures var s' := Moved(s, now, StopDependent(cause, o));
      !MayStopNow(s, id) && s'.mods == s.mods && s'.rel == s.rel && s'.env.stopped == s.env.stopped && s'.env.policy == s.env.policy
  {
    hide Guard;
  }

  lemma DependentActs(s: Sys, now: Time, cause: Id, o: OpId, id: Id)
    requires NextDependent(s, now, cause, o, id) && id in s.mods
    ensures var s', r := Moved(s, now, StopDependent(cause, o)), s.mods[id].runner;
      && id in s'.mods && SameButFor(s, s', id) && NextOp(s, id) == s.mods[id].nextOp
      && s'.mods[id].runner == (if R.MayStopForDependency(r) then R.BeginDepStop(r).runner else r)
      && MayStopNow(s, id) == R.MayStopForDependency(r)
      && (R.MayStopForDependency(r) ==> Holds(s', id, s.mods[id].nextOp, DepStop(InCall, r.lease)))
  {
    hide R.BeginDepStop, R.MayStopForDependency;
    assert ActsOn(s, now, StopDependent(cause, o), id);
    MovedAt(s, now, StopDependent(cause, o), id);
    hide Enabled, Moved, SameButFor, ActsOn;
  }

  lemma EndDepActs(s: Sys, now: Time, id: Id, o: OpId, delay: nat)
    requires ActsOn(s, now, Local(id, Protocol.EndDepStop(o, delay)), id)
    ensures var s' := Moved(s, now, Local(id, Protocol.EndDepStop(o, delay)));
      && id in s.mods && id in s'.mods && SameButFor(s, s', id)
      && s'.mods[id].runner == R.EndDepStop(s.mods[id].runner, now, delay).runner
  {
    LocalActs(s, now, id, Protocol.EndDepStop(o, delay));
    hide Enabled, Moved, SameButFor, R.EndDepStop, ActsOn;
  }

  ghost predicate ActiveNow(s: Sys, id: Id) {
    id in s.mods && Active(s.mods[id].runner.state)
  }

  lemma StopActs(s: Sys, now: Time, id: Id, byReload: bool)
    requires ActsOn(s, now, Local(id, Protocol.StopModule(byReload)), id)
    ensures var s' := Moved(s, now, Local(id, Protocol.StopModule(byReload)));
      && id in s.mods && id in s'.mods && SameButFor(s, s', id) && NextOp(s, id) == s.mods[id].nextOp
      && var r := s.mods[id].runner;
      && s'.mods[id].runner == (if Active(r.state) then R.BeginStopModule(r) else R.StopInactive(r)).runner
      && ActiveNow(s, id) == Active(r.state)
      && (Active(r.state) ==> Holds(s', id, s.mods[id].nextOp, ModStop(InCall, r.lease, byReload)))
  {
    LocalActs(s, now, id, Protocol.StopModule(byReload));
    hide Enabled, Moved, SameButFor, R.BeginStopModule, R.StopInactive, ActsOn, Active;
  }

  lemma EndModActs(s: Sys, now: Time, id: Id, o: OpId)
    requires ActsOn(s, now, Local(id, EndModStop(o)), id)
    ensures var s' := Moved(s, now, Local(id, EndModStop(o)));
      && id in s.mods && id in s'.mods && SameButFor(s, s', id)
      && s'.mods[id].runner == R.EndStopModule(s.mods[id].runner).runner
  {
    LocalActs(s, now, id, EndModStop(o));
    hide Enabled, Moved, SameButFor, R.EndStopModule, ActsOn;
  }

  lemma DisableActs(s: Sys, now: Time, id: Id)
    requires ActsOn(s, now, Local(id, DisableModule), id)
    ensures var s' := Moved(s, now, Local(id, DisableModule));
      && id in s.mods && id in s'.mods && SameButFor(s, s', id)
      && s'.mods[id].runner == R.Disable(s.mods[id].runner).runner
  {
    LocalActs(s, now, id, DisableModule);
    hide Enabled, Moved, SameButFor, R.Disable, ActsOn;
  }

  function NewMod(cfg: R.ModuleConfig, max: int, window: int): Mod {
    Mod(R.RunnerState(cfg, if cfg.enabled then Registered else Disabled, None, max, window, [], 0, false, None, false, 0),
        map[], 0, Untouched, [], [])
  }

  lemma RegisterActs(s: Sys, id: Id, cfg: R.ModuleConfig, max: int, window: int)
    requires SysInv(s) && id !in s.mods
    ensures var s' := s.(mods := s.mods[id := NewMod(cfg, max, window)]);
      && SysInv(s') && (Init(s) && R.ValidRestarts(s.env.policy, max, window) ==> Init(s'))
      && RunnersOf(s') == RunnersOf(s)[id := NewMod(cfg, max, window).runner]
  {
    hide SysInv;
    var m := NewMod(cfg, max, window);
    assert FreshMod(m);
    FreshModJoins(s, id, m);
    assert Init(s) && BudgetIsValid(s.env, m) ==> Init(s.(mods := s.mods[id := m]));
    assert RunnersOf(s.(mods := s.mods[id := m])) == RunnersOf(s)[id := m.runner];
  }

  lemma FreshModJoins(s: Sys, id: Id, m: Mod)
    requires SysInv(s) && id !in s.mods && FreshMod(m)
    ensures SysInv(s.(mods := s.mods[id := m]))
  {
    hide Conserved, FreshMod, LeaseAt, ModInv;
    var s' := s.(mods := s.mods[id := m]);
    FreshModInv(m, s.env);
    assert ModsInv(s') && Conserved(s);
    forall p ensures LeaseAt(s', p) == LeaseAt(s, p) { FreshHoldsNothing(s, id, m, p); }
    SwapConserves(s, s', InLog(0), InLog(0));
  }

  lemma FreshHoldsNothing(s: Sys, id: Id, m: Mod, p: Place)
    requires id !in s.mods && FreshMod(m)
    ensures LeaseAt(s.(mods := s.mods[id := m]), p) == LeaseAt(s, p)
  {
  }

  lemma FreshModInv(m: Mod, env: Env)
    requires FreshMod(m)
    ensures ModInv(m, env)
  {
  }

  predicate IsCall(l: ModStep) {
    l.DeadlinePasses? || l.StartReturns? || l.CleanupReturns? || l.ReleaseLate? || l.CallStop? || l.StopReturns? || l.StopSettles?
  }

  lemma ListBegins(s: seq<Id>, all: set<Id>)
    requires Lists(s, all)
    ensures Elems(s[..0]) == {} && Elems(s) == all
  {
  }

  lemma NextInOrder(s: seq<Id>, i: nat, done: set<Id>, all: set<Id>)
    requires i < |s| && Lists(s, all) && done == Elems(s[..i])
    ensures s[i] in all && s[i] !in done && Elems(s[..i+1]) == done + {s[i]}
  {
    assert s[..i+1] == s[..i] + [s[i]];
    assert s[i] in Elems(s);
  }

  ghost function RunnersOf(s: Sys): map<Id, R.RunnerState> {
    map id | id in s.mods :: s.mods[id].runner
  }

  ghost function SwappedViews(views: map<Id, R.RunnerState>, cfgs: map<Id, R.ModuleConfig>, now: Time, done: set<Id>): map<Id, R.RunnerState> {
    map id | id in views :: if id in done && id in cfgs then R.Reconfigure(views[id], cfgs[id], now).runner else views[id]
  }

  ghost predicate TurnsOff(views: map<Id, R.RunnerState>, cfgs: map<Id, R.ModuleConfig>, done: set<Id>, id: Id) {
    id in done && id in views && id in cfgs && views[id].cfg.enabled && !cfgs[id].enabled
  }

  ghost predicate TurnsOn(views: map<Id, R.RunnerState>, cfgs: map<Id, R.ModuleConfig>, done: set<Id>, id: Id) {
    id in done && id in views && id in cfgs && !views[id].cfg.enabled && cfgs[id].enabled
  }

  lemma ReloadViews(s: Sys, s': Sys, cfgs: map<Id, R.ModuleConfig>, now: Time)
    requires cfgs.Keys == s.mods.Keys == s'.mods.Keys
    requires forall id :: id in s.mods ==>
      && s'.mods[id].runner == R.Reconfigure(s.mods[id].runner, cfgs[id], now).runner
      && (s'.mods[id].tag == MustStop <==> s.mods[id].runner.cfg.enabled && !cfgs[id].enabled)
      && (s'.mods[id].tag == MustStart <==> !s.mods[id].runner.cfg.enabled && cfgs[id].enabled)
    ensures SwappedViews(RunnersOf(s), cfgs, now, s.mods.Keys) == RunnersOf(s')
    ensures forall id :: TurnsOff(RunnersOf(s), cfgs, s.mods.Keys, id) <==> id in s'.mods && s'.mods[id].tag == MustStop
    ensures forall id :: TurnsOn(RunnersOf(s), cfgs, s.mods.Keys, id) <==> id in s'.mods && s'.mods[id].tag == MustStart
  {
    hide R.Reconfigure;
  }

  lemma OpenViews(s: Sys, s': Sys, toStart: seq<Id>)
    requires s'.mods.Keys == s.mods.Keys
    requires forall id :: id in toStart <==> id in s.mods && s.mods[id].tag == MustStart
    requires forall id :: id in s.mods ==>
      s'.mods[id].runner == if s.mods[id].tag == MustStart then R.Reenable(s.mods[id].runner).runner else s.mods[id].runner
    ensures ReenabledViews(RunnersOf(s), Elems(toStart)) == RunnersOf(s')
  {
    hide R.Reenable;
    assert forall id :: id in Elems(toStart) <==> id in toStart;
  }

  lemma NothingSwapped(views: map<Id, R.RunnerState>, cfgs: map<Id, R.ModuleConfig>, now: Time)
    ensures SwappedViews(views, cfgs, now, {}) == views
    ensures forall id :: !TurnsOff(views, cfgs, {}, id) && !TurnsOn(views, cfgs, {}, id)
  {
  }

  lemma SwapMore(views: map<Id, R.RunnerState>, cfgs: map<Id, R.ModuleConfig>, now: Time, done: set<Id>, id: Id)
    requires id in views && id in cfgs && id !in done
    ensures id in SwappedViews(views, cfgs, now, done) && SwappedViews(views, cfgs, now, done)[id] == views[id]
    ensures SwappedViews(views, cfgs, now, done + {id})
         == SwappedViews(views, cfgs, now, done)[id := R.Reconfigure(views[id], cfgs[id], now).runner]
    ensures forall j :: TurnsOff(views, cfgs, done + {id}, j) <==>
      TurnsOff(views, cfgs, done, j) || (j == id && views[id].cfg.enabled && !cfgs[id].enabled)
    ensures forall j :: TurnsOn(views, cfgs, done + {id}, j) <==>
      TurnsOn(views, cfgs, done, j) || (j == id && !views[id].cfg.enabled && cfgs[id].enabled)
  {
    hide R.Reconfigure;
  }

  ghost function ReenabledViews(views: map<Id, R.RunnerState>, done: set<Id>): map<Id, R.RunnerState> {
    map id | id in views :: if id in done then R.Reenable(views[id]).runner else views[id]
  }

  /** A list may name a module twice: the second time changes nothing. */
  lemma ReenableMore(views: map<Id, R.RunnerState>, done: set<Id>, id: Id)
    requires id in views
    ensures id in ReenabledViews(views, done)
    ensures ReenabledViews(views, done + {id}) ==
      ReenabledViews(views, done)[id := R.Reenable(ReenabledViews(views, done)[id]).runner]
  {
    assert R.Reenable(R.Reenable(views[id]).runner).runner == R.Reenable(views[id]).runner;
    hide R.Reenable;
  }

  lemma NextElem(s: seq<Id>, i: nat, done: set<Id>)
    requires i < |s| && done == Elems(s[..i])
    ensures Elems(s[..i+1]) == done + {s[i]} && s[i] in s
  {
    assert s[..i+1] == s[..i] + [s[i]];
  }

  lemma CollectActs(s: Sys, now: Time, due: seq<Id>)
    requires s.env.now <= now && s.due == [] && !s.env.stopped
    requires forall id :: id in due <==> id in s.mods && R.Due(s.mods[id].runner, now)
    ensures Moved(s, now, SysStep.CollectDue(due)) == Clocked(s, now).(due := due)
    ensures Clocked(s, now).mods == s.mods && Clocked(s, now).rel == s.rel
    ensures Clocked(s, now).env == s.env.(now := now)
  {
  }

  lemma ReloadActs(s: Sys, now: Time, cfgs: map<Id, R.ModuleConfig>, rel: Relation, policy: R.Policy)
    requires s.env.now <= now && NoReload(s) && cfgs.Keys == s.mods.Keys
    ensures var s' := Moved(s, now, SysStep.ApplyReload(cfgs, rel, policy));
      && s'.mods.Keys == s.mods.Keys && s'.rel == rel && s'.env == Env(s.env.stopped, now, policy)
      && forall id :: id in s.mods ==>
           && s'.mods[id].runner == R.Reconfigure(s.mods[id].runner, cfgs[id], now).runner
           && (s'.mods[id].tag == MustStop <==> s.mods[id].runner.cfg.enabled && !cfgs[id].enabled)
           && (s'.mods[id].tag == MustStart <==> !s.mods[id].runner.cfg.enabled && cfgs[id].enabled)
  {
    ReloadIs(s, now, cfgs, rel, policy);
    hide Moved, NoReload, R.Reconfigure, ReconfigureStep;
    var s' := Moved(s, now, SysStep.ApplyReload(cfgs, rel, policy));
    forall id | id in s.mods
      ensures s'.mods[id].runner == R.Reconfigure(s.mods[id].runner, cfgs[id], now).runner
      ensures s'.mods[id].tag == MustStop <==> s.mods[id].runner.cfg.enabled && !cfgs[id].enabled
      ensures s'.mods[id].tag == MustStart <==> !s.mods[id].runner.cfg.enabled && cfgs[id].enabled
    {
      ReconfigureActs(s.mods[id], Clocked(s, now).env, cfgs[id]);
    }
  }

  lemma ReloadIs(s: Sys, now: Time, cfgs: map<Id, R.ModuleConfig>, rel: Relation, policy: R.Policy)
    requires s.env.now <= now && NoReload(s) && cfgs.Keys == s.mods.Keys
    ensures var s' := Moved(s, now, SysStep.ApplyReload(cfgs, rel, policy));
      && s'.mods.Keys == s.mods.Keys && s'.rel == rel && s'.env == Env(s.env.stopped, now, policy)
      && forall id :: id in s.mods ==> s'.mods[id] == ReconfigureStep(s.mods[id], Clocked(s, now).env, cfgs[id])
  {
    hide ReconfigureStep, Next, Guard;
    forall id | id in s.mods
      ensures Guard(s.mods[id], Clocked(s, now).env, Reconfigure(cfgs[id]))
      ensures Next(s.mods[id], Clocked(s, now).env, Reconfigure(cfgs[id])) == ReconfigureStep(s.mods[id], Clocked(s, now).env, cfgs[id])
    {
      MayReconfigure(s.mods[id], Clocked(s, now).env, cfgs[id]);
    }
  }

  lemma MayReconfigure(m: Mod, env: Env, cfg: R.ModuleConfig)
    requires m.tag == Untouched
    ensures Guard(m, env, Reconfigure(cfg)) && Next(m, env, Reconfigure(cfg)) == ReconfigureStep(m, env, cfg)
  {
    hide ReconfigureStep;
  }

  lemma ReconfigureActs(m: Mod, env: Env, cfg: R.ModuleConfig)
    ensures var m' := ReconfigureStep(m, env, cfg);
      && m'.runner == R.Reconfigure(m.runner, cfg, env.now).runner
      && (m'.tag == MustStop <==> m.runner.cfg.enabled && !cfg.enabled)
      && (m'.tag == MustStart <==> !m.runner.cfg.enabled && cfg.enabled)
  {
  }

  lemma OpenActs(s: Sys, now: Time)
    requires s.env.now <= now && Enabled(Clocked(s, now), OpenStarts)
    ensures var s' := Moved(s, now, OpenStarts);
      && s'.mods.Keys == s.mods.Keys && s'.rel == s.rel && s'.env == s.env.(now := now)
      && forall id :: id in s.mods ==>
           s'.mods[id].runner == if s.mods[id].tag == MustStart then R.Reenable(s.mods[id].runner).runner else s.mods[id].runner
  {
    forall id | id in s.mods && s.mods[id].tag == MustStart
      ensures Guard(s.mods[id], Clocked(s, now).env, OpenStart)
      ensures Next(s.mods[id], Clocked(s, now).env, OpenStart).runner == R.Reenable(s.mods[id].runner).runner
    {
      hide R.Reenable, Enabled;
    }
    hide R.Reenable, Enabled, Guard, Next;
  }

  lemma ShutdownActs(s: Sys, now: Time)
    requires s.env.now <= now && !s.env.stopped
    ensures Moved(s, now, Shutdown) == s.(env := Env(true, now, s.env.policy))
  {
  }

  lemma StopOrderIs(rel: Relation, g: Graph, order: seq<Id>)
    requires Clean(rel) && Resolved(rel, g)
    requires |order| == |g.order| && forall i :: 0 <= i < |order| ==> order[i] == g.order[|g.order|-1-i]
    ensures StopsDependentsFirst(rel, order) && forall id :: id in order <==> id in rel
  {
    ResolvedParts(rel, g);
    BackwardsStopsDependentsFirst(rel, g.order, order);
    hide StopsDependentsFirst, Clean, Resolved;
    forall id ensures id in order <==> id in rel {
      assert id in rel <==> id in Elems(g.order);
      if id in g.order {
        var k :| 0 <= k < |g.order| && g.order[k] == id;
        assert order[|g.order|-1-k] == id;
      }
    }
  }

  lemma StartActs(s: Sys, rel: Relation, g: Graph)
    requires Init(s) && SysInv(s) && Resolved(rel, g) && rel.Keys <= s.mods.Keys && Clean(rel)
    ensures var s' := s.(rel := rel, starting := g.order);
      && Init(s') && SysInv(s') && RunnersOf(s') == RunnersOf(s) && GraphOf(Some(g), rel) && LeastOrder(rel, g.order)
  {
    hide SysInv, DepsListed, DependentsListed, Clean, FreshMod, BudgetIsValid, LexLe;
    assert forall id :: id in g.order ==> id in Elems(g.order);
    InitInv(s.(rel := rel, starting := g.order));
  }

  lemma OutsideActs(s: Sys, st: SysStep)
    requires Enabled(s, st) && (st.Tick? || st.AdmitStart? || (st.Local? && IsCall(st.st)))
    ensures var s' := Step(s, st);
      && s'.mods.Keys == s.mods.Keys && s'.rel == s.rel && s'.env.stopped == s.env.stopped && s'.env.policy == s.env.policy
      && forall id :: id in s.mods ==> s'.mods[id].runner == s.mods[id].runner
  {
    if st.AdmitStart? {
      CallKeepsRunner(s.mods[st.id], s.env, Admit(st.o, if st.ok then Some(s.granted) else None, st.v));
    } else if st.Local? {
      CallKeepsRunner(s.mods[st.id], s.env, st.st);
    }
    hide Next, Guard;
  }

  lemma CallKeepsRunner(m: Mod, env: Env, l: ModStep)
    requires Guard(m, env, l) && (l.Admit? || IsCall(l))
    ensures Next(m, env, l).runner == m.runner
  {
  }
}
