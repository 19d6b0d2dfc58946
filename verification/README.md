# Verified model of the telemetry agent's core

A Dafny model of four stateful parts of the agent, with machine-checked proofs
of what each is for.  `dafny verify dfyconfig.toml` checks everything.

**The module supervisor** (`internal/supervisor`).  Dependency resolution is the
imperative algorithm of `graph.go`, proved against the least topological order
and against the existence of a cycle.  The lifecycle protocol is a state machine
whose steps are the mutex-protected sections; everything that happens outside
the mutex (admission, Start, Stop, deadlines, late returns, releases, the clock,
reports, reloads, shutdown) is a choice of the environment, so a run is any
interleaving.  One invariant is kept by every step and its consequences hold
after every run.  `Supervisor.dfy` then gives the same sections as methods on
objects whose fields they update in place, each proved to make exactly one step
of the machine, so that the machine's guarantees are guarantees about the
fields.  `Reload.dfy` adds the prepare / commit / rollback transaction with its
participants.

**The discovery engine** (`internal/modules/discovery`): the capacity-bounded
entity table with its in-place selection, the change list, the resumable
snapshot, and the functional edge set.

**The fleet store** (`internal/fleet`): series, their two ring budgets and their
counters, sample and log rings, the entity table and its overview counts.

**Two readers of external formats**: the walk over systemd's journal files,
which gets back what a writer of the format wrote, and the `/proc/net` address
decoder with its IPv6 printer.

Files, from the bottom up: `Wrappers`, `Sorting`; `StartOrders` (what a start
order is), `Graph` (Kahn's loop), `CycleSearch`, `Resolve`; `Lifecycle`,
`RestartWindow`, `Backoff`, `Runners` (one critical section as a function of one record),
`Protocol` (one module with its operations in flight), `Leases`, `Supervision`
(all modules), `Safety`, `Guarantees`, `Outcomes`, `Retries`, `Transitions`,
`Quarantine`, `Witnesses`, `Supervisor`, `Reload`;
`EntityKeys`, `Capacity`, `Topology`, `Diffs`, `Attributes`, `Snapshots`,
`Relations`; `FleetSeries`, `Rings`, `Inventory`; `Journal`, `JournalFormat`;
`Addresses`.

Two conventions.  Identifiers, keys and names that the code only compares are
natural numbers in the same order, with 0 for the empty string where emptiness
matters; times and durations are integers.  Where a loop ranges over a Go map,
the model picks the next element freely, so what is proved holds for every
order.

## Where the code differs from what it says

- The transition table (`internal/module/state.go:116-140`) calls itself the
  complete state machine.  The supervisor makes four other changes: Registered
  to Failed and Disabled to Failed (`claimStart` assigns Failed directly when a
  dependency is down), and Starting and Stopped to CrashLooping (`failLocked`).
  `RunsAreSafe` shows there are no others, `ExtraEdgesAreMade` that each of the
  four happens, and `ExactlyLeavesTable` which guards, read before a step, say
  that it leaves the table: both directions, for every step and every run.  The
  two deferrals also go unreported: the field is assigned first, so the call that
  would emit the change finds nothing changed
  (`internal/supervisor/supervisor.go:267-279`).
- A quarantine is said to last until a reload or a restart of the agent.  A list
  of starts drawn up before the quarantine and still naming the module starts it
  all the same, because CrashLooping to Starting is a legal transition.
  `QuarantineEscapes` is such a run: the control loop lists a due restart, two
  reloads and a second failure quarantine the module, and the loop goes on with
  its list.  `LeavesQuarantine` gives the exact condition for one step,
  `QuarantineEndsByClaim` and `QuarantineCanEnd` for runs without a reload.
- `opInFlight` is documented as true while any Start or Stop is outstanding
  (`internal/supervisor/runner.go:39-41`).  The Stop of `stopModule` does not
  take it (`StopModuleTakesNoSlot` is a run); the exact statement is
  `SlotExclusive`.
- A prepare that overruns its deadline counts as refused and is not rolled back,
  so it stages its fragment after the reload was rejected (`CanStageAnew` says
  when, both directions).  The next prepare overwrites that; but if the overrun
  prepare finishes between a later prepare and its commit, the commit switches to
  the rejected fragment (`RejectedFragmentIsCommitted` is a run).  The condition
  can be read before a reload begins: it is sure to leave every module it asks on
  its new fragment if and only if no prepare that is still executing has
  something else to stage at one of them (`AllSureToSwitch`; in particular when
  none is executing), and then running modules that were in step with their
  configuration stay so (`Reloader.Reload`).
- A repeated cycle reports nothing only if candidates that share a key agree on
  its fingerprint (`RepeatIsSilent`, both directions); with distinct keys they
  do.
- The snapshot's cursor uses the empty key for "from the beginning".  Every key
  the agent builds starts with its kind, so none is empty; `EmptyKeyRepeats`
  shows that the promise of sending nothing twice depends on that.
- The comment in `formatIPv6` says IPv4-compatible addresses are printed as IPv4
  as well; the code does so for IPv4-mapped ones only.

## Model

| member | source | states |
|---|---|---|
| `StartOrders.TopologicalExcludesCycle` | internal/supervisor/graph.go:103-135 | a set of modules with a topological order has no dependency cycle inside it |
| `StartOrders.GreedyLeast` | internal/supervisor/graph.go:111-126 | always placing the lowest ready module precedes, lexicographically, every other order that finishes the job |
| `StartOrders.GreedyIsLeast` | internal/supervisor/graph.go:58-64 | that choice, once it places everything, is the least topological order of all modules |
| `StartOrders.LeastOrderIsDetermined` | internal/supervisor/graph.go:58-64 | there is at most one such order, so the start order is a function of the dependency relation alone, not of map order or of repeated dependencies |
| `Graph.BuildEdges` | internal/supervisor/graph.go:81-101 | without a fault, dependencies, dependents and counts are exactly the edges of the relation, duplicates ignored; otherwise the reported fault is the first one in identifier order, then listed order |
| `Graph.Kahn` | internal/supervisor/graph.go:103-126 | the counted loop produces exactly the greedy order and stops only when nothing more is ready |
| `Graph.Release` | internal/supervisor/graph.go:118-125 | placing a module lowers the count of exactly its dependents and adds to the ready list exactly those whose count reaches zero |
| `Resolve.KahnStuck` | internal/supervisor/graph.go:128-135 | an order that is too short leaves a set of unresolved modules that has no topological order of its own |
| `CycleSearch.Search.Visit` | internal/supervisor/graph.go:146-203 | the coloured search ends; it either reports a closed walk of dependency edges inside the unresolved set, or finishes the module after everything it depends on |
| `Resolve.FindCycle` | internal/supervisor/graph.go:146-203 | the search reports a genuine cycle whenever there is one; only on an acyclic set does it fall back to listing the set |
| `Resolve.CycleAmongUnresolved` | internal/supervisor/graph.go:128-136 | called as the resolver calls it, the search always reports a genuine cycle: neither fallback can be reached |
| `Resolve.Resolve` | internal/supervisor/graph.go:64-143 | succeeds if and only if every dependency is another known module and the relation is acyclic, with the least order; otherwise the error is the first fault, or a genuine cycle |
| `Resolve.StopOrder` | internal/supervisor/graph.go:213-219 | the start order backwards |
| `Resolve.BackwardsStopsDependentsFirst` | internal/supervisor/graph.go:210-219 | in stop order no module precedes one that depends on it, directly or through others |
| `Resolve.Walk` | internal/supervisor/graph.go:234-248 | one walk adds the transitive dependents of a module, closed, and nothing else |
| `Resolve.TransitiveDependents` | internal/supervisor/graph.go:234-255 | exactly the modules that depend on the given one, directly or not, each once and each before anything it depends on |
| `RestartWindow.RestartWindow.Record` | internal/supervisor/backoff.go:87-91 | one charge leaves the pruned window and the new failure; the answer is whether the budget still holds |
| `RestartWindow.RestartWindow.Prune` | internal/supervisor/backoff.go:94-108 | the in-place shift drops exactly the leading entries not after the cutoff |
| `RestartWindow.RestartWindow.Count` | internal/supervisor/backoff.go:111-114 | the number of failures still inside the window |
| `RestartWindow.WindowIsRecount` | internal/supervisor/backoff.go:85-108 | with a clock that never goes back the pruned window holds exactly the failures of the whole history since the reset that lie inside the window |
| `RestartWindow.SpanBudget` | internal/supervisor/backoff.go:69-91 | of the failures inside any span of the window's length, at most `max` leave the module restartable |
| `Backoff.DoublesUpToCap` | internal/supervisor/backoff.go:38-58 | each attempt waits twice as long as the one before, up to the cap |
| `Backoff.FirstWait` | internal/supervisor/backoff.go:42-58 | the first wait is the configured initial one, or a second if none is configured, within the cap |
| `Backoff.NeverShrinks` | internal/supervisor/backoff.go:38-58 | before jitter the wait is positive, never shrinks from one attempt to a later one, and never exceeds the cap |
| `Backoff.DelayIsInRange` | internal/supervisor/backoff.go:60-67 | with a jitter of at most the whole delay the result is within the jitter of the curve, and never negative or beyond 64 bits however many attempts there were |
| `Protocol.StepInFlight` | internal/supervisor/supervisor.go:253-381 | under any step, a passing deadline included, the slot is taken exactly when one start, failure-stop or dependency-stop is outstanding, and only the current start attempt is Starting |
| `Protocol.FinishStaleInFlight` | internal/supervisor/supervisor.go:380-389 | the end of an outdated start frees its own slot only, and leaves the state alone |
| `Protocol.FinishCurrentInFlight` | internal/supervisor/supervisor.go:391-437 | the end of the current start frees the slot and leaves Starting |
| `Protocol.StopActiveInFlight` | internal/supervisor/lifecycle.go:132-136 | stopping an active module outdates the start in flight without freeing its slot |
| `Protocol.EndModStopInFlight` | internal/supervisor/lifecycle.go:143-147 | the end of stopModule moves an inactive module to Stopped without touching the slot |
| `Protocol.StepRecords` | internal/module/state.go:122-154 | every step keeps this: all state changes so far are edges of the table or one of four others, and the pruned window stands for the whole failure history since the last release |
| `Transitions.ExactlyLeavesTable` | internal/supervisor/supervisor.go:263-281 | a step makes a change outside the table if and only if it defers a module that is Registered or Disabled, or it ends a current start that erred, or a failure-stop, with restarts on and the budget spent: all readable before the step |
| `Transitions.ExactlyLegalRuns` | internal/module/state.go:116-154 | a run keeps to the table for a module if and only if none of its steps meets one of those guards |
| `Protocol.StepLeases` | internal/supervisor/supervisor.go:391-398 | a lease field is set exactly while the module is Running, and every operation holds a lease exactly in the stages in which it must give one back |
| `Protocol.StepIdle` | internal/supervisor/supervisor.go:441-487 | a failed or quarantined module has nothing in its slot |
| `Protocol.StepKeeps` | internal/supervisor/supervisor.go:245-437 | every step of a module's protocol keeps the whole invariant |
| `Leases.StepFlows` | internal/supervisor/supervisor.go:313-400 | a step fills one empty place with a granted lease, empties one place into the release log, moves one lease to an empty place, or touches none |
| `Safety.SwapConserves` | internal/supervisor/loop.go:349-363 | exchanging what two places hold, one of which may be empty, conserves leases |
| `Safety.GrantConserves` | internal/supervisor/supervisor.go:325-333 | a granted lease goes to one place that was empty |
| `Safety.OnKeeps` | internal/supervisor/supervisor.go:245-437 | one module's step keeps the invariant of the whole supervisor |
| `Safety.ReloadKeeps` | internal/supervisor/reload.go:180-211 | the swap of configuration and graph keeps it |
| `Safety.StepInv` | internal/supervisor/supervisor.go:245-437 | every step of the supervisor keeps every module's invariant and conserves leases |
| `Safety.InitInv` | internal/supervisor/supervisor.go:132-211 | it holds when Start has resolved the modules |
| `Safety.RunInv` | internal/supervisor/supervisor.go:176-241 | it holds after every run, whatever calls return, overrun or interleave |
| `Guarantees.RunsAreSafe` | internal/supervisor/supervisor.go:253-400 | after every run each lease granted is in exactly one place or was released exactly once; the slot is taken exactly when one operation holds it; a current start implies Starting; a lease field implies Running and conversely; every state change was one of the table's or one of four others |
| `Guarantees.ActionOnIs` | internal/supervisor/loop.go:23-69 | a step of the supervisor changes a module exactly as one step of that module's protocol does, or not at all |
| `Guarantees.OutdatedForever` | internal/supervisor/supervisor.go:380-389 | a start attempt that was outdated once stays outdated in every continuation |
| `Guarantees.NoResurrection` | internal/supervisor/lifecycle.go:132-147 | a start in flight when its module is stopped never changes the module's state afterwards, in any continuation: its end only frees the slot and passes its lease on for release |
| `Guarantees.QuarantineHolds` | internal/supervisor/loop.go:72-109 | a quarantined module that no list of starts drawn up earlier names stays out of service in every run without a reload |
| `Quarantine.LeavesQuarantine` | internal/supervisor/supervisor.go:249-290 | one step takes a quarantined module to Starting if and only if it is the module's turn on a list of starts, it is enabled, the supervisor is not shut down and its dependencies run; and to Failed if and only if all that holds but for the dependencies, or a reload keeps it enabled |
| `Quarantine.QuarantineEndsByClaim` | internal/supervisor/supervisor.go:249-290 | in a run without a reload a quarantined module starts or waits for a retry again if and only if its turn on a list of starts comes while it is enabled and before shutdown |
| `Quarantine.QuarantineCanEnd` | internal/supervisor/loop.go:72-109 | such a run exists if and only if the module is enabled, the supervisor is not shut down, and a list of starts names it or a reload is to start it, whether it has opened its starts yet or not |
| `Quarantine.AllFinish` | internal/supervisor/reload.go:213-244 | a reload that has turned a module on can always finish its stops, open its starts and claim that module |
| `Quarantine.ReachedQuarantineCanEnd` | internal/supervisor/loop.go:72-109 | the same for every state the supervisor reaches |
| `Quarantine.StaleClaimEscapes` | internal/supervisor/supervisor.go:256-290 | its turn on a list drawn up earlier starts a quarantined module whose dependencies run |
| `Guarantees.ShutdownSettles` | internal/supervisor/lifecycle.go:24-46 | after shutdown has begun a module at rest stays at rest |
| `Guarantees.ChargeVerdict` | internal/supervisor/supervisor.go:457-486 | a charged failure ends in Failed exactly when a recount of every charge since the last reset is within budget, and in CrashLooping otherwise |
| `Guarantees.OnlyFailuresCharge` | internal/supervisor/loop.go:290-335 | no dependency wait, stop, stale result or unsupported module charges the budget, and nothing but the release of a quarantine clears it |
| `Guarantees.BudgetHolds` | internal/supervisor/backoff.go:85-108 | in every run, of the failures charged since the last release of a quarantine, at most `max` in any span of the window's length leave the module restartable |
| `Guarantees.ChargesAccumulate` | internal/supervisor/reload.go:198-209 | along a run that does not release the module no charge is forgotten, so that bound covers every span without a release |
| `Outcomes.StateAfter` | internal/supervisor/supervisor.go:245-487 | the state each step leaves a module in, case by case, from what can be read before the step |
| `Outcomes.GenerationAfter` | internal/supervisor/supervisor.go:285-290 | the generation moves on exactly when a start is claimed or an active module is stopped for a dependency or by stopModule, and the configuration exactly with a reload |
| `Outcomes.DependentIsStopped` | internal/supervisor/loop.go:290-303 | visiting a dependent stops it if it is running and idle, and leaves it alone if it is busy |
| `Outcomes.VisitedOrPlanned` | internal/supervisor/loop.go:257-263 | along any run a dependent on a failing module's plan stays on it until it is visited |
| `Outcomes.DependentsFirst` | internal/supervisor/loop.go:229-265 | by the time a failing module's own Stop is called, every module that depends on it, directly or not, has been visited |
| `Retries.RetryKept` | internal/supervisor/supervisor.go:263-290 | every step keeps this: only a failed module has a retry scheduled, and nothing active or busy is waiting for a dependency |
| `Retries.RetryIsDue` | internal/supervisor/loop.go:72-88 | the earliest instant a failed module is due: now and the delay after a dependency-stop, or a failure while restarts are on; now and the initial backoff after a start put off; now after the release of a quarantine; and never after a failure while restarts are off |
| `Retries.OnlyTheseFail` | internal/supervisor/loop.go:318-326 | no other step takes a module into Failed, and none touches the retry of a module that stays there |
| `Retries.WaitingIsToldApart` | internal/supervisor/loop.go:229-235 | a module stopped or put off for a dependency is marked as waiting, one that failed is not |
| `Retries.AttemptsFollow` | internal/supervisor/supervisor.go:457-486 | the attempts that stretch the delay go up by one with each failure charged, and back to none with a start that succeeds or a release |
| `Retries.UnsupportedIsNoFailure` | internal/supervisor/supervisor.go:401-418 | a start that finds the module unsupported ends in Unsupported, with no retry and nothing in flight |
| `Retries.UnsupportedStays` | internal/supervisor/supervisor.go:401-404 | an unsupported module stays so, and is never started, unless a reload turns it off |
| `Retries.RetriedKept` | internal/supervisor/supervisor.go:441-487 | a step leaves every failed module with a retry unless it ends in a failure while restarts are off |
| `Retries.FailedIsRetried` | internal/supervisor/loop.go:229-235 | along any run a failed module is without a retry only if it failed while restarts were off |
| `Retries.FailedModulesAreRetried` | internal/supervisor/loop.go:229-235 | so after any run from start-up every failed module that did not fail while restarts were off has a retry scheduled |
| `Retries.StartsNeedDependencies` | internal/supervisor/supervisor.go:260-283 | a step starts a module only if it is enabled, idle, the supervisor is not shut down and every module it depends on is running |
| `Witnesses.ExtraEdgesAreMade` | internal/module/state.go:122-140 | each of the four state changes outside the table is made by some run from a start-up with a valid restart budget |
| `Witnesses.RegisteredToFailed` | internal/supervisor/supervisor.go:263-281 | deferring a first start moves Registered to Failed |
| `Witnesses.DisabledToFailed` | internal/supervisor/loop.go:72-109 | deferring a start moves Disabled to Failed, when two reloads overtake the control loop between listing a due restart and claiming it |
| `Witnesses.StartingToCrashLooping` | internal/supervisor/supervisor.go:457-460 | a second refused start inside the window moves Starting to CrashLooping |
| `Witnesses.StoppedToCrashLooping` | internal/supervisor/loop.go:278-283 | a runtime failure after a refused start inside the window moves Stopped to CrashLooping |
| `Witnesses.QuarantineEscapes` | internal/supervisor/loop.go:72-109 | a run from start-up in which the control loop starts a module quarantined since it drew up its list of due restarts, with no reload in between |
| `Witnesses.StopModuleTakesNoSlot` | internal/supervisor/lifecycle.go:132-141 | a run in which shutdown has a module's Stop outstanding and its slot is free |
| `Supervisors.Supervisor.New` | internal/supervisor/supervisor.go:91-123 | refuses exactly an invalid restart budget; otherwise a supervisor with no module that satisfies the invariant |
| `Supervisors.Supervisor.Register` | internal/supervisor/supervisor.go:132-164 | refuses exactly after Start or for a known identifier; otherwise one fresh module is added, the others are untouched and the invariant holds |
| `Supervisors.Supervisor.BeginStart` | internal/supervisor/supervisor.go:176-211 | fails exactly as Start does, changing nothing; otherwise the machine is in its initial state with the least order as its start list |
| `Supervisors.Supervisor.DependenciesRunning` | internal/supervisor/supervisor.go:263-266 | whether every dependency of the relation, not merely of the lists, is Running |
| `Supervisors.Supervisor.ClaimStart` | internal/supervisor/supervisor.go:245-290 | the fields follow the machine's claim step, and the generation handed out is the one that step gave |
| `Supervisors.Supervisor.FinishStart` | internal/supervisor/supervisor.go:371-437 | the fields follow the machine's end of a start; exactly an outdated attempt hands its lease back for release |
| `Supervisors.Supervisor.FailLocked` | internal/supervisor/supervisor.go:441-487 | charging a failure in place, window included, is the specified failure |
| `Supervisors.Supervisor.SetState` | internal/supervisor/supervisor.go:505-530 | every change of state is emitted once, and staying put is not |
| `Supervisors.Supervisor.HandleRuntimeFailure` | internal/supervisor/loop.go:236-253 | a stale report changes nothing; a current one takes the slot and lease and lists exactly the transitive dependents in stop order |
| `Supervisors.Supervisor.EndFailStop` | internal/supervisor/loop.go:278-284 | the fields follow the machine's end of a failure-stop |
| `Supervisors.Supervisor.StopForDependency` | internal/supervisor/loop.go:290-303 | the fields follow the machine: exactly a known, active and idle dependent is taken, any other is passed over |
| `Supervisors.Supervisor.EndDepStop` | internal/supervisor/loop.go:318-326 | the fields follow the machine: the dependent is Failed, uncharged, idle, and due again after exactly the retry delay |
| `Supervisors.Supervisor.StopModule` | internal/supervisor/lifecycle.go:113-136 | the fields follow the machine's first half of stopModule; Stop is to be called exactly for a module that was active, with its lease |
| `Supervisors.Supervisor.EndStopModule` | internal/supervisor/lifecycle.go:143-147 | the fields follow the machine's second half |
| `Supervisors.Supervisor.DisableStopped` | internal/supervisor/reload.go:218-223 | the fields follow the machine when a reload disables a module |
| `Supervisors.Supervisor.CollectDue` | internal/supervisor/loop.go:72-90 | lists exactly the modules whose restart is due |
| `Supervisors.Supervisor.ApplyReload` | internal/supervisor/reload.go:180-211 | the fields follow the machine's reload of every module, and the two lists are exactly the modules turned off and on |
| `Supervisors.Supervisor.OpenToStart` | internal/supervisor/reload.go:226-237 | exactly the modules the reload turns on leave Disabled, however often the list names them |
| `Supervisors.Supervisor.BeginShutdown` | internal/supervisor/lifecycle.go:24-46 | no start is claimed from here on; the list returned is the stop order, dependents first |
| `Supervisors.Supervisor.Outside` | internal/supervisor/supervisor.go:325-366 | what a goroutine does without the mutex changes no field, and is a step of the machine |
| `Supervisors.Supervisor.InPlaceSafety` | internal/supervisor/supervisor.go:253-400 | between any two critical sections the fields themselves satisfy: lease held exactly while Running, slot taken exactly while one operation holds it, leases conserved |
| `Reloads.Participant.PrepareConfig` | internal/modules/discovery/discovery.go:670-680 | stages what parses, refuses what does not, and leaves live settings alone |
| `Reloads.Participant.CommitConfig` | internal/modules/discovery/discovery.go:691-705 | switches to what is staged, or does nothing |
| `Reloads.Participant.RollbackConfig` | internal/modules/discovery/discovery.go:708-713 | drops what is staged and leaves live settings alone |
| `Reloads.Reloader.Transact` | internal/supervisor/reload.go:144-175 | whatever overrun prepares finish between its calls, the outcome is the specified one: all agreed in time and were committed, or the first that did not is named and all before it were rolled back |
| `Reloads.AcceptedIsApplied` | internal/supervisor/reload.go:144-175 | when all agree, each is prepared once and committed once, nobody else is asked, and what landed was owed by an earlier overrun |
| `Reloads.RejectedIsReverted` | internal/supervisor/reload.go:114-155 | when one does not, all before it are rolled back exactly once, none is committed and none after it is asked |
| `Reloads.RevertedKeepsSettings` | internal/supervisor/reload.go:146-155 | a rejected reload changes no module's settings, whatever lands meanwhile |
| `Reloads.CommitSwitches` | internal/modules/discovery/discovery.go:670-705 | a commit switches to the fragment its own reload prepared if and only if the last thing staged before it is that fragment; what landed in between is taken otherwise |
| `Reloads.AppliedUnlessOvertaken` | internal/supervisor/reload.go:158-175 | an accepted reload leaves an affected module on its new fragment exactly if no overrun prepare overtook its commit, and every other module as it was |
| `Reloads.SureToSwitch` | internal/supervisor/reload.go:144-175 | read before the call: an accepted reload leaves a module on its new fragment whatever finishes when, if and only if no prepare that overran earlier and still executes has something else to stage there |
| `Reloads.AllSureToSwitch` | internal/supervisor/reload.go:144-175 | so all modules are sure to switch if and only if nothing still executing conflicts with any of them |
| `Reloads.RollbackClears` | internal/modules/discovery/discovery.go:707-713 | after a rollback something is staged if and only if an overrun prepare landed since |
| `Reloads.RejectedFragmentIsCommitted` | internal/supervisor/reload.go:144-175 | the run in which a prepare that overran, and so rejected its reload, finishes between prepare and commit of the next reload, whose commit switches to the rejected fragment |
| `Reloads.CanStageAnew` | internal/supervisor/reload.go:146-155 | read before the call, whatever is owed: a rejected reload can leave something new staged at a module if and only if a prepare is owed there, by an earlier reload or by the overrun that rejects this one, whose fragment is not the one staged before |
| `Reloads.OnlyAnOverrunStaysStaged` | internal/supervisor/reload.go:146-155 | when nothing else was owed and everything has landed, a rejected reload has left something new staged at a module if and only if that module rejected it by overrunning, its fragment parses, and the parsed value is not what was staged before |
| `Reloads.Reloader.Check` | internal/supervisor/reload.go:43-84 | rejected without asking any module exactly when the candidate is invalid, names an unknown module, the supervisor is not running, or the enabled modules do not resolve |
| `Reloads.Reloader.Affected` | internal/supervisor/reload.go:96-112 | lists exactly the running configurable modules whose fragment changes |
| `Reloads.Reloader.Reload` | internal/supervisor/reload.go:39-211 | accepted exactly when the supervisor can take it and every affected module parses its fragment in time; a rejection changes no configuration, graph, state or settings; modules that ran their configured fragments still do after a rejection, and after an acceptance if and only if no overrun prepare overtook a commit, which cannot happen unless one that is still executing when the reload begins conflicts with it |
| `Reloads.RunningStays` | internal/supervisor/reload.go:184-209 | the swap moves no module into or out of Running |
| `EntityKeys.KeyIsReadable` | internal/modules/discovery/entity.go:56-75 | kind and components can be read back from a key, in order, when none contains the separator |
| `EntityKeys.KeysAreDistinct` | internal/modules/discovery/entity.go:56-75 | two entities never share a key unless kind and components agree |
| `EntityKeys.UncleanKeysCollide` | internal/modules/discovery/entity.go:73-75 | without that guarantee keys do collide |
| `Capacity.Apply` | internal/modules/discovery/topology.go:257-284 | the in-place pass leaves exactly the greedy choice from the ranked candidates in front, and kept plus dropped is everything |
| `Capacity.CapsHold` | internal/modules/discovery/topology.go:269-283 | neither the total nor any kind's cap is exceeded |
| `Capacity.KindKeepsPrefix` | internal/modules/discovery/topology.go:248-283 | each kind keeps exactly a prefix of its candidates in rank order, no longer than its cap, and loses some only when the kind or the table is full |
| `Capacity.DropMeansFull` | internal/modules/discovery/topology.go:272-279 | a candidate is dropped only if its kind or the table is full |
| `Capacity.TheBestAreKept` | internal/modules/discovery/topology.go:248-283 | everyone of its kind that is kept beats a dropped candidate by a smaller rank, or an equal rank and no greater key; and while its kind has room no less important kind is kept at all, so no process when a cloud instance is dropped |
| `Capacity.DroppedAtTheCap` | internal/modules/discovery/topology.go:269-283 | a candidate is dropped only when the table, or its kind, holds exactly as many as its cap allows |
| `Capacity.AdmissionForgetsOrder` | internal/modules/discovery/topology.go:248-268 | with distinct keys the admitted candidates are the same, in the same order, for every order of discovery |
| `Topology.Topology.ObserveOne` | internal/modules/discovery/topology.go:161-196 | folding one candidate changes its own entry as specified and notes a change exactly when the entry is new or its fingerprint differs |
| `Topology.Topology.ObserveAll` | internal/modules/discovery/topology.go:161-196 | the loop over admitted candidates is the fold, in the table and in the notes |
| `Topology.Topology.Sweep` | internal/modules/discovery/topology.go:198-206 | deletes exactly the entries this cycle did not observe, noting each once |
| `Topology.Topology.Reconcile` | internal/modules/discovery/topology.go:153-218 | table, change list and drop counter are the specified ones, the list is ordered by kind of change and key, and added minus removed remains the size of the table |
| `Topology.ObserveSorted` | internal/modules/discovery/entity.go:112-126 | sorting a candidate's attributes in place before the fold does not change what is tracked |
| `Diffs.TableIsAdmitted` | internal/modules/discovery/topology.go:153-206 | after a cycle the table tracks exactly the admitted keys, and the cycle removed exactly the other ones |
| `Diffs.ReplayGivesTheTable` | internal/modules/discovery/topology.go:159-217 | replaying the change list on the previous fingerprints gives the new ones, also when candidates repeat a key |
| `Diffs.ExactDiff` | internal/modules/discovery/topology.go:159-217 | with distinct keys the change list names each entity at most once, as added, updated or removed exactly when it was |
| `Attributes.TableHoldsAttributes` | internal/modules/discovery/topology.go:161-196 | for a hash that separates attribute lists, after a cycle each tracked entity holds exactly the attributes of its last candidate, in order |
| `Attributes.ChangesAreOfAttributes` | internal/modules/discovery/topology.go:161-196 | for such a hash and distinct keys, an entity is reported added if and only if it was not tracked, and updated if and only if it was, with other attributes as a multiset |
| `Attributes.RemovedMeansAbsent` | internal/modules/discovery/topology.go:198-206 | a tracked entity is reported removed if and only if no candidate has its key |
| `Attributes.ChangesInOrder` | internal/modules/discovery/topology.go:208-217 | additions come before updates and updates before removals, each by key |
| `Attributes.HashedKept` | internal/modules/discovery/entity.go:82-126 | the fold keeps attributes sorted, with their hash, and every entity's kind |
| `Diffs.SilentReport` | internal/modules/discovery/topology.go:186-206 | a cycle reports nothing exactly when every candidate is tracked with its fingerprint and every tracked entity is a candidate |
| `Diffs.RepeatIsSilent` | internal/modules/discovery/topology.go:186-196 | a cycle that repeats the previous one's candidates reports nothing if and only if no two of them disagree about one key |
| `Diffs.StableHostIsSilent` | internal/modules/discovery/entity.go:112-126 | a host whose candidates have distinct keys stays silent, even over its caps, when they are reported in another order with their attributes in another order |
| `Snapshots.Emitter.BeginEvents` | internal/modules/discovery/emit.go:145 | each cycle starts with its whole budget |
| `Snapshots.Emitter.EmitEvent` | internal/modules/discovery/emit.go:154-166 | an event leaves exactly while the budget has room, and what does not leave is counted |
| `Snapshots.Snapshot` | internal/modules/discovery/topology.go:222-229 | every tracked key once, in order |
| `Snapshots.Module.EmitEntitySnapshotFrom` | internal/modules/discovery/collect.go:515-534 | one cycle sends the pending keys in order until the budget is used up, and reports completion exactly when none is left |
| `Snapshots.SentExactlyOnce` | internal/modules/discovery/collect.go:508-534 | however the table changes between cycles, one snapshot sends no entity twice and sends every entity tracked throughout |
| `Snapshots.SteadyPartway` | internal/modules/discovery/collect.go:515-534 | a snapshot of an unchanged table truncated m times has sent m full budgets and not everything |
| `Snapshots.CyclesNeeded` | internal/modules/discovery/collect.go:515-534 | on an unchanged table of n entities, a snapshot under budget b takes the ceiling of n / b cycles |
| `Snapshots.EmptyKeyRepeats` | internal/modules/discovery/collect.go:518-532 | an entity with the empty key could not be resumed after: the cursor would read as the beginning |
| `Relations.RelationSet.Add` | internal/modules/discovery/relate.go:217-233 | records an edge unless it is meaningless or its slot is taken, and counts exactly the conflicting proposals |
| `Relations.FirstWriterWins` | internal/modules/discovery/relate.go:188-233 | each source and type that was meaningfully proposed has exactly its first meaningful proposal |
| `Relations.LinearBound` | internal/modules/discovery/relate.go:181-201 | a closed edge set has at most six edges per tracked entity |
| `Relations.ProcessEndsTracked` | internal/modules/discovery/relate.go:302-351 | every process edge joins two admitted entities |
| `Relations.EndpointEndsTracked` | internal/modules/discovery/relate.go:400-429 | every endpoint edge joins two admitted entities |
| `Relations.ProcessEdgesAreProved` | internal/modules/discovery/relate.go:302-351 | an edge is proposed from the processes if and only if some process proves it: the process at its tail; its parent, its service or its container at its head; the evidence and role that say why |
| `Relations.PodEdgesAreProved` | internal/modules/discovery/relate.go:361-376 | an edge is proposed from the containers if and only if some container proves it: the container at its tail, its pod at its head |
| `Relations.EndpointEdgesAreProved` | internal/modules/discovery/relate.go:400-429 | an edge is proposed from the endpoints if and only if some endpoint proves it: the endpoint at its tail, its owner or its interface at its head |
| `Relations.EdgesAreProved` | internal/modules/discovery/collect.go:314-333 | every edge of a cycle is proved by a process, a container or an endpoint |
| `Relations.ProvedIsKept` | internal/modules/discovery/relate.go:217-233 | for whatever edge a fact proves between two different named entities, an edge of that source and type is kept |
| `Relations.AdmittedExactly` | internal/modules/discovery/collect.go:314-333 | the index the rules work from has exactly the entries whose entities are tracked |
| `Relations.RelateProcesses` | internal/modules/discovery/relate.go:293-352 | the loop proposes exactly the parent, service and container edges of each process in turn |
| `Relations.RelateContainersToPods` | internal/modules/discovery/relate.go:355-377 | the loop proposes exactly the pod edges of the containers in turn |
| `Relations.RelateEndpoints` | internal/modules/discovery/relate.go:393-430 | the loop proposes exactly the owner and interface edges of the endpoints in turn |
| `Relations.ClaimsAt` | internal/modules/discovery/relate.go:446-456 | an address is claimed for an interface exactly when some admitted interface of that key has it, whatever the order of enumeration |
| `Relations.AddressBeforeSlash` | internal/modules/discovery/relate.go:470-478 | the address of a text with a prefix length is what stands before the last slash |
| `Relations.WildcardsHaveNoOwner` | internal/modules/discovery/relate.go:439-456 | no interface claims the empty address or a wildcard |
| `Relations.BuildAddressOwners` | internal/modules/discovery/relate.go:442-468 | an address has an owner if and only if exactly one admitted interface claims it, and that is the owner |
| `Relations.Relate` | internal/modules/discovery/collect.go:314-333 | the edges are the first meaningful proposals, with addresses that exactly one interface claims; every edge joins two tracked entities and is no self-edge, and edges number at most six times the entities |
| `FleetSeries.PutFacts` | internal/fleet/store.go:378-417 | the maintained counters grant a ring exactly when a recount would, and are exact afterwards |
| `FleetSeries.CountedRemoved` | internal/fleet/store.go:555-565 | reclaiming a series keeps both counters equal to a recount |
| `FleetSeries.ChartedHostStays` | internal/fleet/store.go:548-558 | no observation reclaims a series named host.* that has a ring |
| `FleetSeries.ChartedHostIsForever` | internal/fleet/store.go:548-558 | nor does any run of observations, with any time stamps |
| `FleetSeries.CoreFromFirstSample` | internal/fleet/store.go:382-388 | a new series named host.* or one of the two container gauges gets its ring at its first sample, exactly while fewer such rings exist than the first budget allows |
| `FleetSeries.OthersFromSecondSample` | internal/fleet/store.go:390-412 | any other new series, unless its name is never charted, gets its ring at its second sample and not before, exactly while the second budget has room |
| `FleetSeries.UnchartedNever` | internal/fleet/store.go:457-468 | after any run a series named process.* or container.instance.network.* has no ring |
| `FleetSeries.HostHistory` | internal/fleet/store.go:414-417 | after any run a charted host.* series holds the newest samples recorded for it in the whole run |
| `FleetSeries.PointIsRecorded` | internal/fleet/store.go:347-374 | a point sets its series' value, time and count; no series reported lately is reclaimed for it, and after a reclaim nothing stale is left but charted host.* series |
| `FleetSeries.DroppedMeansFull` | internal/fleet/store.go:361-367 | a point is dropped if and only if its series has a name and is missing afterwards, and then the table is full |
| `FleetSeries.StaleMakesRoom` | internal/fleet/store.go:353-367 | in a full table a stale series that is not a charted host.* one makes room for a new one |
| `FleetSeries.Host.PruneSeries` | internal/fleet/store.go:542-567 | keeps exactly the series updated since the cutoff and the host.* ones with a ring, unchanged; both counters stay a recount, and every surviving ring its stream |
| `FleetSeries.Host.Observe` | internal/fleet/store.go:347-418 | the table follows the recount specification; counters equal the rings of their class, no budget or table cap is exceeded, and each ring is the newest samples since it was granted |
| `Rings.Ring.Push` | internal/fleet/view.go:340-349 | the stream gains one entry and the buffer still holds its newest ones |
| `Rings.Ring.Snapshot` | internal/fleet/view.go:359-367 | as many of the newest entries of the stream as fit, newest first |
| `Inventory.Host.IngestEvents` | internal/fleet/inventory.go:153-183 | the in-place loop is the fold over the batch, and the drop counter counts exactly the reports turned away |
| `Inventory.TrackedKey` | internal/fleet/inventory.go:163-181 | a key already in the table ends with the batch's last word on it |
| `Inventory.NewKey` | internal/fleet/inventory.go:163-181 | a key the batch brings in ends with the batch's last word on it |
| `Inventory.LastReportStands` | internal/fleet/inventory.go:163-181 | a tracked entity is as its last report in the batch described it, and gone if and only if that said so or a removal came after |
| `Inventory.ReportedIsTracked` | internal/fleet/inventory.go:171-176 | a reported entity is tracked afterwards, unless the table is full |
| `Inventory.UnreportedKeys` | internal/fleet/inventory.go:163-181 | a key the batch does not report is tracked if and only if it was, unchanged but for a removal |
| `Inventory.DropsAreTurnedAway` | internal/fleet/inventory.go:171-174 | the drop counter grows by exactly the reports whose key is not tracked right after them |
| `Inventory.RejectedMeansFull` | internal/fleet/inventory.go:171-174 | a reported key is missing afterwards only if the table is full |
| `Inventory.FoldIsIdempotent` | internal/fleet/inventory.go:153-183 | folding a batch twice leaves the table as once, also at the cap and with reports and removals mixed |
| `Inventory.GroupsByKind` | internal/fleet/inventory.go:194-230 | each group lists the entities of its kind, processes only if no application row covers them, and an entity that is gone or has no name is in no group |
| `Inventory.Inventory` | internal/fleet/inventory.go:186-231 | each group lists every name exactly as often as a full scan shows it there, in any order |
| `Inventory.InventoryCounts` | internal/fleet/inventory.go:663-703 | a group has a count exactly when a full scan shows something in it, and it is that number |
| `Inventory.CountsMatchTheView` | internal/fleet/inventory.go:656-703 | the drill-down lists exactly as many entities per group as the overview promises |
| `Journal.WalkAdvances` | internal/modules/logs/journalfile.go:149-183 | the walk never goes back and never returns more than was asked for |
| `Journal.AppendIsGrowth` | internal/modules/logs/journalfile.go:141-183 | appending where the last read stopped, inside the preallocated arena or at its end, is a growth the results below cover |
| `Journal.SameData` | internal/modules/logs/journalfile.go:283-321 | rewriting a data object's links does not change the field read from it |
| `Journal.SameEntry` | internal/modules/logs/journalfile.go:209-277 | an entry whose references were settled reads the same from the grown file |
| `Journal.WalkGrows` | internal/modules/logs/journalfile.go:149-183 | a bounded walk over an earlier file is the beginning of the full walk over the later one, which goes on where it stopped |
| `Journal.GrownTrans` | internal/modules/logs/journalfile.go:141-148 | growing twice is growing |
| `Journal.ReadsResume` | internal/modules/logs/journalfile.go:141-183 | any sequence of bounded reads and growths, each resumed at the returned offset, returns exactly the first entries of one pass over the final file |
| `Journal.ReadsCatchUp` | internal/modules/logs/journalfile.go:141-183 | once the reads have caught up they have returned the whole pass, and counted its compressed records |
| `Journal.ReadDataField` | internal/modules/logs/journalfile.go:283-321 | with a reused buffer, the field is what the bytes say: unwanted, compressed, or a key with its value |
| `Journal.ReadEntry` | internal/modules/logs/journalfile.go:209-277 | with reused buffers, the entry is what the bytes say, whatever earlier reads left behind |
| `Journal.ReadJournalEntries` | internal/modules/logs/journalfile.go:149-183 | the offset-advancing loop ends on every input and returns the specified walk |
| `JournalFormat.LeRoundTrip` | internal/modules/logs/journalfile.go:166 | a number written lowest byte first is read back |
| `JournalFormat.FieldReadsBack` | internal/modules/logs/journalfile.go:283-321 | a written DATA object is read back: compressed if it was flagged so, its key and value if wanted, the value cut off after 65536 bytes |
| `JournalFormat.EntryReadsBack` | internal/modules/logs/journalfile.go:209-277 | a written ENTRY object is read back with its time stamp and the wanted fields of its first 128 items, regular or compact; without a message it is no record |
| `JournalFormat.WalkReadsBack` | internal/modules/logs/journalfile.go:161-182 | from any object on, the walk over a written file returns exactly the records written there, and ends after the last object |
| `JournalFormat.ReadsWhatWasWritten` | internal/modules/logs/journalfile.go:149-183 | reading a file written byte by byte in the format's layout returns exactly the first records written, as many as one read may return; if that is all of them it has come to the end and counted those lost to compression |
| `Addresses.CanonicalIsUnique` | internal/modules/discovery/parse.go:593-652 | an address has exactly one canonical text |
| `Addresses.CanonicalRoundTrip` | internal/modules/discovery/parse.go:593-652 | a reader of the canonical text recovers the eight fields |
| `Addresses.TextIdentifies` | internal/modules/discovery/parse.go:593-652 | no two sets of eight fields share a canonical text, so the text can stand for the address in a key |
| `Addresses.IPv4ReadsBack` | internal/modules/discovery/parse.go:581-591 | a reader of dotted decimals recovers the four octets in order |
| `Addresses.PrintedReadsBack` | internal/modules/discovery/parse.go:544-652 | a reader of the printed text recovers the bytes, of both families: all sixteen, or the last four of an IPv4-mapped address |
| `Addresses.NumbersAreWritten` | internal/modules/discovery/parse.go:581-646 | samples of the digits: fields in lower-case hexadecimal without leading zeros, octets in decimal |
| `Addresses.NumbersAreRead` | internal/modules/discovery/parse.go:549-557 | samples of the kernel's digits, in either case |
| `Addresses.LoopbackLine` | internal/modules/discovery/parse.go:538-543 | port 22 of 127.0.0.1 is the kernel's 0100007F:0016 |
| `Addresses.SingleZeroIsKept` | internal/modules/discovery/parse.go:617-634 | section 4.2.2 of RFC 5952: a single zero field is not shortened |
| `Addresses.FirstRunIsShortened` | internal/modules/discovery/parse.go:617-634 | section 4.2.3 of RFC 5952: of two runs of equal length the first is shortened |
| `Addresses.LongestRunIsShortened` | internal/modules/discovery/parse.go:617-634 | section 4.2.3 of RFC 5952: the longest run is shortened |
| `Addresses.FindRun` | internal/modules/discovery/parse.go:598-652 | the scan finds the first of the longest runs of zero fields, if one is at least two long |
| `Addresses.Render` | internal/modules/discovery/parse.go:598-652 | the printing loop produces the canonical text |
| `Addresses.FormatIPv6` | internal/modules/discovery/parse.go:598-652 | an IPv4-mapped address is printed as IPv4, every other one in canonical form |
| `Addresses.ParseHexAddr` | internal/modules/discovery/parse.go:544-579 | accepts exactly the well-formed texts, and prints the decoded address |
| `Addresses.KernelRoundTrip` | internal/modules/discovery/parse.go:536-579 | the decoder recovers address and port from the kernel's little-endian words, for every address and port |

## Left out

In the supervisor:

- Health probes, reports, self-metrics, diagnostics, log text, `lastErr`, `startedAt` and the restart count: no decision modelled here reads them.
- Telemetry other than state changes.  What each change of state emits is stated on the methods that change a single record, and not as one sequence over a run.
- Backoff.DelayIsInRange: computes over the reals, so the rounding of 64-bit floats is not modelled.  In the protocol the delay before a retry is a parameter of the step that schedules it, so those proofs hold for every delay.
- The wrap-around of the 64-bit generation.
- Deadlines as durations: a call returns in time or overruns, at the environment's choice, which is what `internal/guard` offers its callers; its goroutines and channels are the stages of an operation in flight.
- The order in which Shutdown stops modules, its waiting for calls in flight and its overall deadline: the machine lets a stop happen in any order and at any time after shutdown has begun, which allows more runs than the code does.  That the list it works through puts dependents first is proved.
- The initial starts run one after the other in the code; the machine lets other steps come between them, again allowing more runs.
- A restart budget's size and window are read when a module is registered, as in the code; a reload that changes them does not change existing windows.
- A failed start is charged at the clock of the section that records it; the code reads the clock just before taking the lock, so a charge may be dated a little earlier.
- Guarantees.BudgetHolds: counts from the last release of a quarantine, since the release empties the window; a span with a release in it may hold the budget twice.
- Reloads.Reloader.Reload: says what the transaction and the swap do with no lifecycle step between them.  Lifecycle steps before, between and after reloads are part of the runs in `Supervision`.
- Reloads.Reloader.Transact: a commit or rollback finishes before the next call and returns no error, as in the one participant modelled (`internal/modules/discovery/discovery.go`); only a prepare may overrun.  What a changed setting then does is not modelled.
- Liveness: that a due restart is eventually attempted.

In the discovery engine:

- The fingerprint is an arbitrary function of kind, key and sorted attributes; FNV-1a and its collisions are not modelled.  In `Diffs` "changed" means a changed fingerprint; `Attributes` says what follows for the attributes themselves from any function that separates attribute lists.
- How sources gather facts and build candidates, which names make up a natural key, and how components are sanitised; `resolveEntities`, which binds identifiers afterwards within a budget and decides nothing else.
- The events about changed relations and the memory of earlier ones: the code ignores the event budget there, and its events do not reproduce the edge set.
- The remainder of a cycle: intervals, pressure, resync timing, the stalled slot.

In the fleet store:

- A series is its name and attributes.  The code keys it by a rendered text that leaves out `entity.id` and joins the other attributes without escaping them, so points that differ only there, or whose texts happen to agree, share a series in the code and not here.
- The eviction of whole hosts, the joins of usage figures into inventory rows, sorting for display, and the rules that name or cover an entity: names and coverage are inputs.
- The relation events of a batch and the count of rendered topology edges.
- The span ring, which repeats the log ring.
- FleetSeries.Host.Observe: needs at least one history point per ring, which the store's defaults guarantee.

In the readers:

- The journal's header and its flags are inputs, and reading past the end of the file is the only I/O error.  Decompression is not part of the code either.
- Journal.ReadsResume: assumes what journald promises: an object once written keeps its type and size, an entry all its bytes, a data object its flags and payload (links, hash tables and entry arrays may be rewritten, and anything may follow the last object, inside the arena or after it); reading starts at an object or at their end, as the tail offset of the header is; and an entry refers only to objects already there when it is read.  An entry read too early can come out with fewer fields.
- IPv4 text beyond plain decimal octets, `parseProcStat`, `parseUint` and the other line scanners.
- All other modules of the agent, its transports, storage and user interface.
