/** What holds over every run of the supervisor. */
module Safety {
  import opened Wrappers
  import opened Lifecycle
  import opened RestartWindow
  import opened StartOrders
  import R = Runners
  import opened Protocol
  import opened Leases
  import opened Supervision

  // ---- leases ----

  ghost function Swap(x: Place, y: Place, p: Place): Place {
    if p == x then y else if p == y then x else p
  }

  /** Exchanging the contents of two places conserves leases. */
  lemma SwapConserves(s: Sys, s': Sys, x: Place, y: Place)
    requires Conserved(s) && s'.granted == s.granted
    requires forall p :: LeaseAt(s', p) == LeaseAt(s, Swap(x, y, p))
    ensures Conserved(s')
  {
    hide LeaseAt;
    forall p | LeaseAt(s', p).Some? ensures LeaseAt(s', p).value < s'.granted {
      assert LeaseAt(s, Swap(x, y, p)).Some?;
    }
    forall p, q | LeaseAt(s', p).Some? && LeaseAt(s', p) == LeaseAt(s', q) ensures p == q {
      assert LeaseAt(s, Swap(x, y, p)) == LeaseAt(s, Swap(x, y, q));
      assert Swap(x, y, p) == Swap(x, y, q);
    }
    forall l | 0 <= l < s'.granted ensures Somewhere(s', l) {
      assert Somewhere(s, l);
      var p :| LeaseAt(s, p) == Some(l);
      assert Swap(x, y, Swap(x, y, p)) == p;
      assert LeaseAt(s', Swap(x, y, p)) == Some(l);
    }
  }

  /** Filling one empty place with the next lease conserves leases. */
  lemma GrantConserves(s: Sys, s': Sys, x: Place)
    requires Conserved(s) && s'.granted == s.granted + 1
    requires LeaseAt(s, x) == None && LeaseAt(s', x) == Some(s.granted)
    requires forall p :: p != x ==> LeaseAt(s', p) == LeaseAt(s, p)
    ensures Conserved(s')
  {
    hide LeaseAt;
    forall l | 0 <= l < s'.granted ensures Somewhere(s', l) {
      if l == s.granted {
        assert LeaseAt(s', x) == Some(l);
      } else {
        assert Somewhere(s, l);
        var p :| LeaseAt(s, p) == Some(l);
        assert LeaseAt(s', p) == Some(l);
      }
    }
    forall p, q | LeaseAt(s', p).Some? && LeaseAt(s', p) == LeaseAt(s', q) ensures p == q {
      assert p != x ==> LeaseAt(s', p).value < s.granted;
      assert q != x ==> LeaseAt(s', q).value < s.granted;
    }
  }

  lemma FlowConserves(s: Sys, s': Sys, id: Id, flow: Flow, granted: Option<R.Lease>, released: seq<R.Lease>)
    requires Conserved(s) && id in s.mods && id in s'.mods
    requires Flows(s.mods[id], s'.mods[id], flow, granted, released)
    requires s'.mods.Keys == s.mods.Keys && forall j :: j in s.mods && j != id ==> s'.mods[j] == s.mods[j]
    requires granted.Some? ==> granted.value == s.granted
    requires s'.granted == if granted.Some? then s.granted + 1 else s.granted
    requires s'.released == s.released + released
    ensures Conserved(s')
  {
    var log := InLog(|s.released|);
    match flow
    case Still => SwapConserves(s, s', log, log);
    case Shift(a, b) => SwapConserves(s, s', InModule(id, a), InModule(id, b));
    case Out(a) => SwapConserves(s, s', InModule(id, a), log);
    case In(b) => GrantConserves(s, s', InModule(id, b));
  }

  // ---- every step ----

  lemma OnKeeps(s: Sys, id: Id, l: ModStep)
    requires SysInv(s) && id in s.mods && Guard(s.mods[id], s.env, l)
    requires Granted(l).Some? ==> Granted(l).value == s.granted
    ensures SysInv(On(s, id, l))
  {
    OnKeepsMods(s, id, l);
    OnConserves(s, id, l);
    hide ModsInv, Conserved, On;
  }

  lemma OnConserves(s: Sys, id: Id, l: ModStep)
    requires ModsInv(s) && Conserved(s) && id in s.mods && Guard(s.mods[id], s.env, l)
    requires Granted(l).Some? ==> Granted(l).value == s.granted
    ensures Conserved(On(s, id, l))
  {
    assert ModInv(s.mods[id], s.env);
    ModInvParts(s.mods[id], s.env);
    hide *;
    StepFlows(s.mods[id], s.env, l);
    OnIs(s, id, l);
    FlowConserves(s, On(s, id, l), id, FlowOf(s.mods[id], s.env, l), Granted(l), Released(s.mods[id], s.env, l));
  }

  lemma OnIs(s: Sys, id: Id, l: ModStep)
    requires id in s.mods && Guard(s.mods[id], s.env, l)
    ensures var s' := On(s, id, l);
      && s'.mods.Keys == s.mods.Keys && s'.mods[id] == Next(s.mods[id], s.env, l)
      && (forall j :: j in s.mods && j != id ==> s'.mods[j] == s.mods[j])
      && s'.granted == (if Granted(l).Some? then s.granted + 1 else s.granted)
      && s'.released == s.released + Released(s.mods[id], s.env, l)
  {
    hide Next, Guard, Granted, Released;
  }

  lemma ModInvParts(m: Mod, env: Env)
    requires ModInv(m, env)
    ensures InFlightInv(m, env.stopped) && LeaseInv(m)
  {
  }

  lemma OnKeepsMods(s: Sys, id: Id, l: ModStep)
    requires ModsInv(s) && id in s.mods && Guard(s.mods[id], s.env, l)
    ensures ModsInv(On(s, id, l))
  {
    StepKeeps(s.mods[id], s.env, l);
    hide ModInv, Next, Guard, Released;
  }

  lemma EnvKeeps(m: Mod, env: Env, env': Env)
    requires ModInv(m, env) && env.now <= env'.now && (env.stopped ==> env'.stopped)
    ensures ModInv(m, env')
  {
  }

  lemma SameLeases(s: Sys, s': Sys)
    requires Conserved(s) && s'.granted == s.granted && s'.released == s.released && s'.mods.Keys == s.mods.Keys
    requires forall id, h :: id in s.mods ==> Held(s'.mods[id], h) == Held(s.mods[id], h)
    ensures Conserved(s')
  {
    SwapConserves(s, s', InLog(0), InLog(0));
  }

  lemma EnvStepKeeps(s: Sys, s': Sys)
    requires SysInv(s) && s' == s.(env := s'.env, due := s'.due, plans := s'.plans)
    requires s.env.now <= s'.env.now && (s.env.stopped ==> s'.env.stopped)
    ensures SysInv(s')
  {
    forall id | id in s.mods ensures ModInv(s'.mods[id], s'.env) { EnvKeeps(s.mods[id], s.env, s'.env); }
    SameLeases(s, s');
  }

  lemma ReconfigureOne(m: Mod, env: Env, env': Env, cfg: R.ModuleConfig)
    requires ModInv(m, env) && m.tag == Untouched
    requires env.now <= env'.now && (env.stopped ==> env'.stopped)
    ensures ModInv(Next(m, env, Reconfigure(cfg)), env')
    ensures forall h :: Held(Next(m, env, Reconfigure(cfg)), h) == Held(m, h)
  {
    StepKeeps(m, env, Reconfigure(cfg));
    EnvKeeps(Next(m, env, Reconfigure(cfg)), env, env');
    hide ModInv;
  }

  /** Steps that touch every module at once, moving no lease. */
  lemma AllModsKeep(s: Sys, s': Sys)
    requires SysInv(s) && s'.granted == s.granted && s'.released == s.released && s'.mods.Keys == s.mods.Keys
    requires forall id :: id in s.mods ==> ModInv(s'.mods[id], s'.env)
    requires forall id, h :: id in s.mods ==> Held(s'.mods[id], h) == Held(s.mods[id], h)
    ensures SysInv(s')
  {
    hide ModInv, Held, Conserved;
    SameLeases(s, s');
  }

  lemma ReloadKeeps(s: Sys, st: SysStep)
    requires SysInv(s) && st.ApplyReload? && Enabled(s, st)
    ensures SysInv(Step(s, st))
  {
    ReloadShape(s, st);
    hide *;
    var s' := Step(s, st);
    forall id | id in s.mods ensures ModInv(s'.mods[id], s'.env)
      && forall h :: Held(s'.mods[id], h) == Held(s.mods[id], h) {
      ReloadOne(s, st, id);
    }
    AllModsKeep(s, s');
  }

  lemma ReloadShape(s: Sys, st: SysStep)
    requires st.ApplyReload? && Enabled(s, st)
    ensures var s' := Step(s, st); s'.granted == s.granted && s'.released == s.released && s'.mods.Keys == s.mods.Keys
  {
    hide Next, Guard;
  }

  lemma ReloadOne(s: Sys, st: SysStep, id: Id)
    requires SysInv(s) && st.ApplyReload? && Enabled(s, st) && id in s.mods
    ensures id in Step(s, st).mods && ModInv(Step(s, st).mods[id], Step(s, st).env)
    ensures forall h :: Held(Step(s, st).mods[id], h) == Held(s.mods[id], h)
  {
    hide ModInv, Next, Held, Conserved;
    ReconfigureOne(s.mods[id], s.env, Step(s, st).env, st.cfgs[id]);
  }

  lemma OpenKeeps(s: Sys)
    requires SysInv(s) && Enabled(s, OpenStarts)
    ensures SysInv(Step(s, OpenStarts))
  {
    OpenShape(s);
    hide *;
    var s' := Step(s, OpenStarts);
    forall id | id in s.mods ensures ModInv(s'.mods[id], s'.env)
      && forall h :: Held(s'.mods[id], h) == Held(s.mods[id], h) {
      OpenAt(s, id);
    }
    AllModsKeep(s, s');
  }

  lemma OpenShape(s: Sys)
    requires Enabled(s, OpenStarts)
    ensures var s' := Step(s, OpenStarts); s'.granted == s.granted && s'.released == s.released && s'.mods.Keys == s.mods.Keys
  {
    hide Next, Guard;
  }

  lemma OpenOne(m: Mod, env: Env)
    requires ModInv(m, env) && m.tag == MustStart
    ensures ModInv(Next(m, env, OpenStart), env)
    ensures forall h :: Held(Next(m, env, OpenStart), h) == Held(m, h)
  {
    StepKeeps(m, env, OpenStart);
    hide ModInv;
  }

  lemma OpenAt(s: Sys, id: Id)
    requires SysInv(s) && Enabled(s, OpenStarts) && id in s.mods
    ensures id in Step(s, OpenStarts).mods && ModInv(Step(s, OpenStarts).mods[id], Step(s, OpenStarts).env)
    ensures forall h :: Held(Step(s, OpenStarts).mods[id], h) == Held(s.mods[id], h)
  {
    hide ModInv, Next, Held, Conserved;
    if s.mods[id].tag == MustStart { OpenOne(s.mods[id], s.env); }
  }

  /** Changing only the loop's lists and plans keeps the invariant. */
  lemma ListsKeep(s: Sys, s': Sys)
    requires SysInv(s) && s' == s.(due := s'.due, starting := s'.starting, plans := s'.plans)
    ensures SysInv(s')
  {
    SameLeases(s, s');
  }

  lemma StepInv(s: Sys, st: SysStep)
    requires SysInv(s) && Enabled(s, st)
    ensures SysInv(Step(s, st))
  {
    hide SysInv, Guard, Next, DepsRunning;
    match st
    case Tick(d) => EnvStepKeeps(s, Step(s, st));
    case CollectDue(_) => EnvStepKeeps(s, Step(s, st));
    case Shutdown => EnvStepKeeps(s, Step(s, st));
    case ApplyReload(_, _, _) => ReloadKeeps(s, st);
    case OpenStarts => OpenKeeps(s);
    case _ => ModuleStepInv(s, st);
  }

  lemma ModuleStepInv(s: Sys, st: SysStep)
    requires SysInv(s) && Enabled(s, st)
    requires !st.Tick? && !st.CollectDue? && !st.Shutdown? && !st.ApplyReload? && !st.OpenStarts?
    ensures SysInv(Step(s, st))
  {
    hide SysInv, Next, DepsRunning;
    match st
    case ClaimDue =>
      var l := Claim(DepsRunning(s, s.due[0]), false);
      OnKeeps(s, s.due[0], l);
      ListsKeep(On(s, s.due[0], l), Step(s, st));
    case ClaimListed =>
      var l := Claim(DepsRunning(s, s.starting[0]), false);
      OnKeeps(s, s.starting[0], l);
      ListsKeep(On(s, s.starting[0], l), Step(s, st));
    case ClaimReload(id) => OnKeeps(s, id, Claim(DepsRunning(s, id), true));
    case AdmitStart(id, o, ok, v) => OnKeeps(s, id, Admit(o, if ok then Some(s.granted) else None, v));
    case ReportFailure(id, gen, _) =>
      OnKeeps(s, id, Report(gen));
      ListsKeep(On(s, id, Report(gen)), Step(s, st));
    case StopDependent(id, o) =>
      var d := s.plans[(id, o)].rest[0];
      if d in s.mods && R.MayStopForDependency(s.mods[d].runner) {
        OnKeeps(s, d, BeginDepStop);
        ListsKeep(On(s, d, BeginDepStop), Step(s, st));
      } else {
        ListsKeep(s, Step(s, st));
      }
    case Local(id, l) => OnKeeps(s, id, l);
  }

  lemma InitInv(s: Sys)
    requires Init(s)
    ensures SysInv(s)
  {
    forall id | id in s.mods ensures ModInv(s.mods[id], s.env) { }
    forall p ensures LeaseAt(s, p) == None { }
  }

  /** The invariant holds after every run. */
  lemma {:induction false} RunInv(s: Sys, steps: seq<SysStep>)
    requires SysInv(s) && Runs(s, steps)
    ensures SysInv(Exec(s, steps))
    decreases steps
  {
    if steps != [] {
      StepInv(s, steps[0]);
      RunInv(Step(s, steps[0]), steps[1..]);
    }
  }
}
