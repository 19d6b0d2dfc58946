/** Where a module's leases are, and how each step moves them. */
module Leases {
  import opened Wrappers
  import opened Lifecycle
  import R = Runners
  import opened Protocol

  /** A place inside one module that can hold a lease. */
  datatype Holder = OfRunner | OfOp(o: OpId)

  ghost function Held(m: Mod, h: Holder): Option<R.Lease> {
    match h
    case OfRunner => m.runner.lease
    case OfOp(o) => if o in m.ops then m.ops[o].lease else None
  }

  /** What one step does with leases. */
  datatype Flow = Still | Shift(from: Holder, to: Holder) | Out(from: Holder) | In(to: Holder)

  ghost predicate SameElsewhere(m: Mod, m': Mod, except: set<Holder>) {
    forall h :: h !in except ==> Held(m', h) == Held(m, h)
  }

  /** `flow` accounts for every lease: nothing is copied, nothing is lost. */
  ghost predicate Flows(m: Mod, m': Mod, flow: Flow, granted: Option<R.Lease>, released: seq<R.Lease>) {
    match flow
    case Still => SameElsewhere(m, m', {}) && granted == None && released == []
    case Shift(a, b) =>
      && a != b && SameElsewhere(m, m', {a, b}) && granted == None && released == []
      && Held(m, b) == None && Held(m', b) == Held(m, a) && Held(m', a) == None
    case Out(a) =>
      && SameElsewhere(m, m', {a}) && granted == None
      && Held(m, a).Some? && Held(m', a) == None && released == [Held(m, a).value]
    case In(b) =>
      && SameElsewhere(m, m', {b}) && released == []
      && granted.Some? && Held(m, b) == None && Held(m', b) == granted
  }

  ghost function Granted(st: ModStep): Option<R.Lease> {
    if st.Admit? then st.granted else None
  }

  /** The leases a step hands back to the capability runtime. */
  ghost function Released(m: Mod, env: Env, st: ModStep): seq<R.Lease>
    requires Guard(m, env, st)
  {
    if (st.CleanupReturns? || st.ReleaseLate? || st.StopReturns?) && m.ops[st.o].lease.Some? then [m.ops[st.o].lease.value]
    else []
  }

  ghost function FlowOf(m: Mod, env: Env, st: ModStep): Flow
    requires Guard(m, env, st)
  {
    match st
    case Admit(o, granted, _) => if granted.Some? then In(OfOp(o)) else Still
    case CleanupReturns(o) => Out(OfOp(o))
    case ReleaseLate(o) => Out(OfOp(o))
    case StopReturns(o, _) => if m.ops[o].lease.Some? then Out(OfOp(o)) else Still
    case FinishStart(o, _) =>
      if m.ops[o].lease.None? then Still
      else if R.Stale(m.runner, m.ops[o].gen) then Shift(OfOp(o), OfOp(m.nextOp))
      else Shift(OfOp(o), OfRunner)
    case Report(_) => Shift(OfRunner, OfOp(m.nextOp))
    case BeginDepStop => Shift(OfRunner, OfOp(m.nextOp))
    case StopModule(_) => if Active(m.runner.state) then Shift(OfRunner, OfOp(m.nextOp)) else Still
    case _ => Still
  }

  /** Every step of a module's protocol moves leases as `FlowOf` says. */
  lemma StepFlows(m: Mod, env: Env, st: ModStep)
    requires InFlightInv(m, env.stopped) && LeaseInv(m) && Guard(m, env, st)
    ensures Flows(m, Next(m, env, st), FlowOf(m, env, st), Granted(st), Released(m, env, st))
  {
    assert OpsAreNumbered(m) && NeverPaused(m);
    match st
    case FinishStart(o, delay) => FinishFlows(m, env, o, delay);
    case EndFailStop(o, delay) => EndFlows(m, env, st);
    case EndDepStop(_, _) => EndFlows(m, env, st);
    case EndModStop(o) => EndFlows(m, env, st);
    case Report(_) => BeginFlows(m, env, st);
    case BeginDepStop => BeginFlows(m, env, st);
    case StopModule(_) => BeginFlows(m, env, st);
    case Claim(_, _) => ClaimFlows(m, env, st);
    case _ => CallFlows(m, env, st);
  }

  lemma EndFlows(m: Mod, env: Env, st: ModStep)
    requires LeaseInv(m) && Guard(m, env, st)
    requires st.EndFailStop? || st.EndDepStop? || st.EndModStop?
    ensures Flows(m, Next(m, env, st), Still, None, [])
  {
    if st.EndFailStop? {
      R.FailEffects(R.SetState(R.Outcome(m.runner.(opInFlight := false), []), Stopped), env.now, env.policy, st.delay);
    }
    hide R.Fail;
  }

  lemma BeginFlows(m: Mod, env: Env, st: ModStep)
    requires OpsAreNumbered(m) && NeverPaused(m) && LeaseInv(m) && Guard(m, env, st)
    requires st.Report? || st.BeginDepStop? || st.StopModule?
    ensures Flows(m, Next(m, env, st), FlowOf(m, env, st), None, [])
  {
    assert m.nextOp !in m.ops;
  }

  lemma ClaimFlows(m: Mod, env: Env, st: ModStep)
    requires OpsAreNumbered(m) && st.Claim? && Guard(m, env, st)
    ensures Flows(m, Next(m, env, st), Still, None, [])
  {
    assert m.nextOp !in m.ops;
  }

  lemma CallFlows(m: Mod, env: Env, st: ModStep)
    requires LeaseInv(m) && Guard(m, env, st)
    requires !st.FinishStart? && !st.EndFailStop? && !st.EndDepStop? && !st.EndModStop? && !st.Claim?
    requires !st.Report? && !st.BeginDepStop? && !st.StopModule?
    ensures Flows(m, Next(m, env, st), FlowOf(m, env, st), Granted(st), Released(m, env, st))
  {
  }

  lemma FinishFlows(m: Mod, env: Env, o: OpId, delay: nat)
    requires InFlightInv(m, env.stopped) && LeaseInv(m) && Guard(m, env, FinishStart(o, delay))
    ensures Flows(m, FinishStep(m, env, o, delay), FlowOf(m, env, FinishStart(o, delay)), None, [])
  {
    FinishFacts(m, env, o, delay);
    assert OpsAreNumbered(m);
    hide InFlightInv;
    assert m.nextOp !in m.ops;
    R.FailEffects(R.Outcome(m.runner.(opInFlight := false), []), env.now, env.policy, delay);
  }
}
