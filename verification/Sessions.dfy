// Two bunkers that take turns: session start, rotation, session end and
// emergency shutdown, as functions on both bunkers, and what every run keeps.
module Sessions {
  import opened Basics
  import opened Host
  import opened Store
  import opened Lifecycle
  import opened LifecycleRuns
  import opened Decontamination

  datatype Slot = First | Second

  function Other(s: Slot): Slot {
    if s.First? then Second else First
  }

  datatype Duo = Duo(
    first: BunkerData, second: BunkerData, host: HostData, rows: Rows,
    active: Option<Slot>, inactive: Option<Slot>, rotations: nat, sessions: nat)
  {
    function At(s: Slot): World {
      World(if s.First? then first else second, host, rows)
    }

    function With(s: Slot, w: World): Duo {
      if s.First? then this.(first := w.b, host := w.host, rows := w.rows)
      else this.(second := w.b, host := w.host, rows := w.rows)
    }

    ghost predicate WellFormed() {
      |first.layers| == LAYER_COUNT && |second.layers| == LAYER_COUNT
    }
  }

  /** The answers one manager call may meet; `init` and `act` are those of the bunker being started. */
  datatype SessionEnv = SessionEnv(init: InitEnv, act: ActivateEnv, term: TermEnv, saves: Saves)

  datatype Outcome = Ended(ok: bool) | Raised

  /** Initialises and activates one bunker; reports whether it is up. */
  function BringOnline(d: Duo, s: Slot, env: SessionEnv): (r: (Duo, bool))
    requires d.WellFormed()
    ensures r.0.WellFormed() && r.0.At(Other(s)).b == d.At(Other(s)).b
    ensures r.0 == d.With(s, r.0.At(s))
  {
    hide Initialize, Activate;
    var (w1, e1) := Initialize(d.At(s), Unhurried(env.init));
    if e1 != Returned(true) then (d.With(s, w1), false)
    else
      var (w2, e2) := Activate(w1, env.act);
      (d.With(s, w2), e2 == Returned(true))
  }

  /** Ends the old bunker if it still runs; None lets the rotation go on, an outcome ends it there. */
  function Retire(d: Duo, s: Slot, env: SessionEnv): (r: (Duo, Option<Outcome>))
    requires d.WellFormed()
    ensures r.0.WellFormed() && r.0.At(Other(s)).b == d.At(Other(s)).b
    ensures r.0 == d.With(s, r.0.At(s))
  {
    hide Terminate, ForceQuarantine;
    if !d.At(s).b.state.Active? && !d.At(s).b.state.Ready? then (d, None)
    else
      var (w1, e) := Terminate(d.At(s), env.term);
      if e == Returned(true) then (d.With(s, w1), if w1.b.state.Destroyed? then None else Some(Ended(false)))
      else if e == Returned(false) then (d.With(s, ForceQuarantine(w1, env.saves)), Some(Ended(false)))
      else (d.With(s, w1), Some(Raised))
  }

  function Rotate(d: Duo, env: SessionEnv): (r: (Duo, Outcome))
    requires d.WellFormed()
    ensures r.0.WellFormed()
  {
    if d.active.None? || d.inactive.None? then (d, Raised)
    else
      var leaving, joining := d.active.value, d.inactive.value;
      var (d1, stop) := Retire(d, leaving, env);
      if stop.Some? then (d1, stop.value)
      else
        var (d2, up) := BringOnline(d1, joining, env);
        if !up then (d2, Ended(false))
        else (d2.(active := Some(joining), inactive := Some(leaving),
                  rotations := d2.rotations + 1, sessions := d2.sessions + 1), Ended(true))
  }

  function StartSession(d: Duo, env: SessionEnv): (r: (Duo, Outcome))
    requires d.WellFormed()
    ensures r.0.WellFormed()
  {
    if d.active.None? then
      var (d1, up) := BringOnline(d, First, env);
      if !up then (d1, Ended(false))
      else (d1.(active := Some(First), inactive := Some(Second), sessions := d1.sessions + 1), Ended(true))
    else if d.At(d.active.value).b.state.Active? then (d, Ended(true))
    else Rotate(d, env)
  }

  function EndSession(d: Duo, env: SessionEnv): (r: (Duo, Outcome))
    requires d.WellFormed()
    ensures r.0.WellFormed()
  {
    if d.active.None? then (d, Ended(true))
    else
      var (w1, e) := Terminate(d.At(d.active.value), env.term);
      var d1 := d.With(d.active.value, w1);
      if e.Returned? then (d1.(active := None, inactive := None), Ended(e.ok)) else (d1, Raised)
  }

  function EmergencyShutdown(d: Duo, env: SessionEnv): (r: Duo)
    requires d.WellFormed()
    ensures r.WellFormed()
  {
    var d1 := if d.active.None? then d else d.With(d.active.value, ForceQuarantine(d.At(d.active.value), env.saves));
    if d1.inactive.None? then d1 else d1.With(d1.inactive.value, ForceQuarantine(d1.At(d1.inactive.value), env.saves))
  }

  // ---- runs ----

  datatype Kind = Start | RotateNow | End | Emergency

  datatype Call = Call(kind: Kind, env: SessionEnv)

  function Step(d: Duo, c: Call): (r: (Duo, Outcome))
    requires d.WellFormed()
    ensures r.0.WellFormed()
  {
    match c.kind
    case Start => StartSession(d, c.env)
    case RotateNow => Rotate(d, c.env)
    case End => EndSession(d, c.env)
    case Emergency => (EmergencyShutdown(d, c.env), Ended(true))
  }

  function Run(d: Duo, calls: seq<Call>): (r: Duo)
    requires d.WellFormed()
    ensures r.WellFormed()
  {
    if calls == [] then d else Step(Run(d, calls[..|calls| - 1]), calls[|calls| - 1]).0
  }

  function FreshDuo(config1: Config, config2: Config, key1: string, key2: string, host: HostData, rows: Rows): Duo {
    Duo(FreshBunker(config1, key1), FreshBunker(config2, key2), host, rows, None, None, 0, 0)
  }

  /** At rest, neither bunker is READY, and only the one pointed at as active can be ACTIVE. */
  ghost predicate Exclusive(d: Duo) {
    && AtRest(d.first) && AtRest(d.second)
    && !d.first.state.Ready? && !d.second.state.Ready?
    && (d.first.state.Active? ==> d.active == Some(First))
    && (d.second.state.Active? ==> d.active == Some(Second))
    && (if d.active.None? then d.inactive.None? else d.inactive == Some(Other(d.active.value)))
    && (if d.sessions == 0 then d.rotations == 0 && d.active.None? else d.rotations < d.sessions)
  }

  lemma OnlineKeepsRest(d: Duo, s: Slot, env: SessionEnv)
    requires d.WellFormed() && AtRest(d.At(s).b)
    ensures var (d1, up) := BringOnline(d, s, env);
      && AtRest(d1.At(s).b)
      && d1.At(s).b.state == (if up then Active else Error)
  {
    InitializeKeepsRest(d.At(s), Unhurried(env.init));
    var (w1, e1) := Initialize(d.At(s), Unhurried(env.init));
    if e1 == Returned(true) {
      ActivateKeepsRest(w1, env.act);
    }
  }

  lemma RetireKeepsRest(d: Duo, s: Slot, env: SessionEnv)
    requires d.WellFormed() && AtRest(d.At(s).b)
    ensures var (d1, stop) := Retire(d, s, env);
      && AtRest(d1.At(s).b) && !d1.At(s).b.state.Active? && !d1.At(s).b.state.Ready?
      && (stop.Some? ==> d1.At(s).b.state.Error? && stop == Some(Ended(false)))
      && (d.At(s).b.state.Active? ==> (stop.None? <==> d1.At(s).b.state.Destroyed?))
  {
    hide Terminate;
    TerminateKeepsRest(d.At(s), env.term);
  }

  lemma RotateKeepsExclusive(d: Duo, env: SessionEnv)
    requires Exclusive(d)
    ensures Exclusive(Rotate(d, env).0)
  {
    hide Retire, BringOnline;
    if d.active.Some? {
      var leaving := d.active.value;
      RetireKeepsRest(d, leaving, env);
      var (d1, stop) := Retire(d, leaving, env);
      if stop.None? {
        OnlineKeepsRest(d1, Other(leaving), env);
      }
    }
  }

  lemma EndKeepsExclusive(d: Duo, env: SessionEnv)
    requires Exclusive(d)
    ensures Exclusive(EndSession(d, env).0)
  {
    hide Terminate;
    if d.active.Some? {
      TerminateKeepsRest(d.At(d.active.value), env.term);
    }
  }

  lemma StartKeepsExclusive(d: Duo, env: SessionEnv)
    requires Exclusive(d)
    ensures Exclusive(StartSession(d, env).0)
  {
    hide Rotate, BringOnline;
    if d.active.None? { OnlineKeepsRest(d, First, env); } else { RotateKeepsExclusive(d, env); }
  }

  lemma EmergencyKeepsExclusive(d: Duo, env: SessionEnv)
    requires Exclusive(d)
    ensures Exclusive(EmergencyShutdown(d, env))
  {
    hide ForceQuarantine;
    if d.active.Some? {
      QuarantineKeepsRest(d.At(d.active.value), env.saves);
      var d1 := d.With(d.active.value, ForceQuarantine(d.At(d.active.value), env.saves));
      QuarantineKeepsRest(d1.At(d1.inactive.value), env.saves);
    }
  }

  lemma StepKeepsExclusive(d: Duo, c: Call)
    requires Exclusive(d)
    ensures Exclusive(Step(d, c).0)
  {
    hide Rotate, StartSession, EndSession, EmergencyShutdown, Exclusive;
    match c.kind {
      case Start => StartKeepsExclusive(d, c.env);
      case RotateNow => RotateKeepsExclusive(d, c.env);
      case End => EndKeepsExclusive(d, c.env);
      case Emergency => EmergencyKeepsExclusive(d, c.env);
    }
  }

  /** Mutual exclusion, in every run of the four calls whatever the host answers. */
  lemma {:induction false} RunKeepsExclusive(d: Duo, calls: seq<Call>)
    requires Exclusive(d)
    ensures Exclusive(Run(d, calls))
    ensures !(Run(d, calls).first.state.Active? && Run(d, calls).second.state.Active?)
  {
    hide Step;
    if calls != [] {
      RunKeepsExclusive(d, calls[..|calls| - 1]);
      StepKeepsExclusive(Run(d, calls[..|calls| - 1]), calls[|calls| - 1]);
    }
  }

  /** A fresh manager satisfies the invariant every run keeps. */
  lemma FreshIsExclusive(config1: Config, config2: Config, key1: string, key2: string, host: HostData, rows: Rows,
                         calls: seq<Call>)
    ensures Exclusive(Run(FreshDuo(config1, config2, key1, key2, host, rows), calls))
  {
    hide Run;
    assert Exclusive(FreshDuo(config1, config2, key1, key2, host, rows));
    RunKeepsExclusive(FreshDuo(config1, config2, key1, key2, host, rows), calls);
  }

  /** start_session never terminates a bunker: what the decontamination would answer is irrelevant to it. */
  lemma StartNeverTerminates(d: Duo, env: SessionEnv, term: TermEnv)
    requires Exclusive(d)
    ensures StartSession(d, env) == StartSession(d, env.(term := term))
  {
    hide Initialize, Activate, Terminate;
  }

  /** A rotation whose termination fails leaves the old bunker in ERROR; the quarantine it asks for is refused. */
  lemma FailedRetirementIsError(d: Duo, env: SessionEnv)
    requires Exclusive(d) && d.active.Some? && d.At(d.active.value).b.state.Active?
    requires Terminate(d.At(d.active.value), env.term).1 != Returned(true)
    ensures Rotate(d, env).1 == Ended(false)
    ensures Rotate(d, env).0 == d.With(d.active.value, Terminate(d.At(d.active.value), env.term).0)
    ensures Rotate(d, env).0.At(d.active.value).b.state.Error?
  {
    TerminateKeepsRest(d.At(d.active.value), env.term);
  }

  // ---- what the calls do ----

  /** What an emergency shutdown makes of one bunker: an ACTIVE one is quarantined with its monitor stopped. */
  predicate ShutDown(b: BunkerData, c: BunkerData) {
    c == if b.state.Active? then b.(state := Quarantine, monitoring := false) else b
  }

  /** An emergency shutdown quarantines the ACTIVE bunker and touches no other state, host resource, pointer or counter. */
  lemma EmergencyStops(d: Duo, env: SessionEnv)
    requires Exclusive(d)
    ensures var e := EmergencyShutdown(d, env);
      && !e.first.state.Active? && !e.second.state.Active?
      && ShutDown(d.first, e.first) && ShutDown(d.second, e.second)
      && e.host == d.host && e.active == d.active && e.inactive == d.inactive
      && e.rotations == d.rotations && e.sessions == d.sessions
  {
    hide ForceQuarantine;
    if d.active.Some? {
      QuarantineShutsDown(d.At(d.active.value), env.saves);
      var d1 := d.With(d.active.value, ForceQuarantine(d.At(d.active.value), env.saves));
      QuarantineKeepsRest(d.At(d.active.value), env.saves);
      QuarantineShutsDown(d1.At(d1.inactive.value), env.saves);
    }
  }

  /** In whatever state the manager is, no bunker that is pointed at is ACTIVE after an emergency shutdown. */
  lemma EmergencyStopsPointed(d: Duo, env: SessionEnv, s: Slot)
    requires d.WellFormed() && (d.active == Some(s) || d.inactive == Some(s))
    ensures var b, c := d.At(s).b, EmergencyShutdown(d, env).At(s).b;
      if b.state.Active? then c == b.(state := Quarantine, monitoring := false) else c.state == b.state
  {
    hide ForceQuarantine;
    QuarantineOf(d.At(s), env.saves);
    if d.active.Some? {
      var d1 := d.With(d.active.value, ForceQuarantine(d.At(d.active.value), env.saves));
      QuarantineOf(d1.At(s), env.saves);
    }
  }

  lemma QuarantineOf(w: World, saves: Saves)
    ensures var b, c := w.b, ForceQuarantine(w, saves).b;
      if b.state.Active? then c == b.(state := Quarantine, monitoring := false)
      else c.state == b.state && (b.state.Quarantine? && !b.monitoring ==> c == b)
  {
  }

  lemma QuarantineShutsDown(w: World, saves: Saves)
    requires AtRest(w.b)
    ensures ShutDown(w.b, ForceQuarantine(w, saves).b) && ForceQuarantine(w, saves).host == w.host
  {
  }

  /** A rotation that succeeds swaps the pointers, adds one to both counters and leaves the new bunker ACTIVE. */
  lemma RotationCounts(d: Duo, env: SessionEnv)
    requires Exclusive(d)
    ensures var (e, out) := Rotate(d, env);
      if out == Ended(true) then
        && d.active.Some? && e.active == d.inactive && e.inactive == d.active
        && e.rotations == d.rotations + 1 && e.sessions == d.sessions + 1
        && e.At(e.active.value).b.state.Active?
      else e.active == d.active && e.inactive == d.inactive && e.rotations == d.rotations && e.sessions == d.sessions
  {
    hide Retire, BringOnline;
    if d.active.Some? {
      var d1 := Retire(d, d.active.value, env).0;
      RetireKeepsRest(d, d.active.value, env);
      OnlineKeepsRest(d1, Other(d.active.value), env);
    }
  }

  /** A first start that succeeds points at bunker 1 and counts one session, and one that finds a session changes nothing. */
  lemma StartCounts(d: Duo, env: SessionEnv)
    requires Exclusive(d)
    ensures var (e, out) := StartSession(d, env);
      && (d.active.None? && out == Ended(true) ==>
            && e.active == Some(First) && e.inactive == Some(Second) && e.first.state.Active?
            && e.sessions == d.sessions + 1 && e.rotations == d.rotations)
      && (d.active.None? && out != Ended(true) ==>
            e.active.None? && e.sessions == d.sessions && e.rotations == d.rotations)
      && (d.active.Some? && d.At(d.active.value).b.state.Active? ==> e == d)
      && (d.active.Some? && !d.At(d.active.value).b.state.Active? ==> (e, out) == Rotate(d, env))
  {
    hide BringOnline, Rotate;
    OnlineKeepsRest(d, First, env);
  }

  /** An end that returns clears both pointers and answers what the termination answered; it counts nothing. */
  lemma EndClears(d: Duo, env: SessionEnv)
    requires Exclusive(d)
    ensures var (e, out) := EndSession(d, env);
      && e.sessions == d.sessions && e.rotations == d.rotations
      && (out.Ended? ==> e.active.None? && e.inactive.None?)
      && (out.Raised? ==> e == d && d.active.Some? && d.At(d.active.value).b.state.Destroyed?)
      && (d.active.Some? && out.Ended? ==> out.ok == (Terminate(d.At(d.active.value), env.term).1 == Returned(true)))
  {
    if d.active.Some? { TerminateKeepsRest(d.At(d.active.value), env.term); }
    hide Terminate;
  }

  // ---- names ----

  /** Both bunkers and every row name no VM and switch but their own. */
  ghost predicate DuoNamesOwn(d: Duo) {
    d.WellFormed() && NamesOwn(d.At(First)) && NamesItsOwn(d.second)
  }

  lemma SlotNames(d: Duo, s: Slot, w: World)
    requires DuoNamesOwn(d) && NamesOwn(w) && |w.b.layers| == LAYER_COUNT
    ensures DuoNamesOwn(d.With(s, w))
  {
  }

  lemma OnlineNames(d: Duo, s: Slot, env: SessionEnv)
    requires DuoNamesOwn(d)
    ensures DuoNamesOwn(BringOnline(d, s, env).0)
  {
    hide Initialize, Activate, DuoNamesOwn, NamesOwn, NamesItsOwn;
    SlotNamesOwn(d, s);
    InitializeNames(d.At(s), Unhurried(env.init));
    var w1 := Initialize(d.At(s), Unhurried(env.init)).0;
    SlotNames(d, s, w1);
    ActivateNames(w1, env.act);
    SlotNames(d, s, Activate(w1, env.act).0);
  }

  lemma RetireNames(d: Duo, s: Slot, env: SessionEnv)
    requires DuoNamesOwn(d)
    ensures DuoNamesOwn(Retire(d, s, env).0)
  {
    hide Terminate, ForceQuarantine, DuoNamesOwn, NamesOwn, NamesItsOwn;
    SlotNamesOwn(d, s);
    TerminateNames(d.At(s), env.term);
    var w1 := Terminate(d.At(s), env.term).0;
    SlotNames(d, s, w1);
    QuarantineNames(w1, env.saves);
    SlotNames(d, s, ForceQuarantine(w1, env.saves));
  }

  lemma RotateNames(d: Duo, env: SessionEnv)
    requires DuoNamesOwn(d)
    ensures DuoNamesOwn(Rotate(d, env).0)
  {
    hide Retire, BringOnline, NamesOwn, NamesItsOwn;
    if d.active.Some? && d.inactive.Some? {
      RetireNames(d, d.active.value, env);
      OnlineNames(Retire(d, d.active.value, env).0, d.inactive.value, env);
    }
  }

  lemma EndNames(d: Duo, env: SessionEnv)
    requires DuoNamesOwn(d)
    ensures DuoNamesOwn(EndSession(d, env).0)
  {
    hide Terminate, NamesOwn, NamesItsOwn;
    if d.active.Some? {
      SlotNamesOwn(d, d.active.value);
      TerminateNames(d.At(d.active.value), env.term);
      SlotNames(d, d.active.value, Terminate(d.At(d.active.value), env.term).0);
    }
  }

  lemma SlotNamesOwn(d: Duo, s: Slot)
    requires DuoNamesOwn(d)
    ensures NamesOwn(d.At(s)) && |d.At(s).b.layers| == LAYER_COUNT
  {
  }

  lemma QuarantinedNames(d: Duo, s: Slot, saves: Saves)
    requires DuoNamesOwn(d)
    ensures DuoNamesOwn(d.With(s, ForceQuarantine(d.At(s), saves)))
  {
    hide ForceQuarantine, NamesOwn, NamesItsOwn;
    SlotNamesOwn(d, s);
    QuarantineNames(d.At(s), saves);
    SlotNames(d, s, ForceQuarantine(d.At(s), saves));
  }

  lemma ShutdownNames(d: Duo, env: SessionEnv)
    requires DuoNamesOwn(d)
    ensures DuoNamesOwn(EmergencyShutdown(d, env))
  {
    hide ForceQuarantine, NamesOwn, NamesItsOwn;
    var d1 := if d.active.None? then d else d.With(d.active.value, ForceQuarantine(d.At(d.active.value), env.saves));
    if d.active.Some? { QuarantinedNames(d, d.active.value, env.saves); }
    if d1.inactive.Some? { QuarantinedNames(d1, d1.inactive.value, env.saves); }
  }

  lemma CallNames(d: Duo, c: Call)
    requires DuoNamesOwn(d)
    ensures DuoNamesOwn(Step(d, c).0)
  {
    hide Rotate, BringOnline, EndSession, EmergencyShutdown, NamesOwn, NamesItsOwn;
    match c.kind {
      case Start => OnlineNames(d, First, c.env); RotateNames(d, c.env);
      case RotateNow => RotateNames(d, c.env);
      case End => EndNames(d, c.env);
      case Emergency => ShutdownNames(d, c.env);
    }
  }

  /** In every run of the manager both bunkers and the rows they write name only their own VMs and switches. */
  lemma {:induction false} RunKeepsNames(d: Duo, calls: seq<Call>)
    requires DuoNamesOwn(d)
    ensures DuoNamesOwn(Run(d, calls))
  {
    hide Step, NamesOwn, NamesItsOwn;
    if calls != [] {
      RunKeepsNames(d, calls[..|calls| - 1]);
      CallNames(Run(d, calls[..|calls| - 1]), calls[|calls| - 1]);
    }
  }

  // ---- the dead ends ----

  /** No session can be started any more: the bunker start_session would bring up is not DESTROYED. */
  ghost predicate Stuck(d: Duo) {
    if d.active.None? then !d.first.state.Destroyed?
    else !d.At(d.active.value).b.state.Active? && !d.At(Other(d.active.value)).b.state.Destroyed?
  }

  /** Every answer a bunker needs to come up. */
  predicate Starts(env: SessionEnv) {
    && Comes(Unhurried(env.init))
    && FirstFailure(0, env.act.hook) == LAYER_COUNT && env.act.monitorStarts && env.act.metricsStart
  }

  /** A bunker comes online exactly from DESTROYED and with every answer it needs; otherwise it is in ERROR. */
  lemma OnlineIff(d: Duo, s: Slot, env: SessionEnv)
    requires d.WellFormed() && AtRest(d.At(s).b)
    ensures BringOnline(d, s, env).1 <==> d.At(s).b.state.Destroyed? && Starts(env)
    ensures BringOnline(d, s, env).0.At(s).b.state == if BringOnline(d, s, env).1 then Active else Error
  {
    OnlineKeepsRest(d, s, env);
    hide Initialize, Activate;
    var (w1, e1) := Initialize(d.At(s), Unhurried(env.init));
    if e1 == Returned(true) {
      InitializeKeepsRest(d.At(s), Unhurried(env.init));
      ActivateIff(w1, env.act);
    }
  }

  /** start_session succeeds exactly when a session runs, or the manager is not stuck and the bunker gets its answers. */
  lemma StartSucceedsIff(d: Duo, env: SessionEnv)
    requires Exclusive(d)
    ensures StartSession(d, env).1 == Ended(true) <==>
      || (d.active.Some? && d.At(d.active.value).b.state.Active?)
      || (!Stuck(d) && Starts(env))
  {
    hide BringOnline, Starts;
    OnlineIff(d, if d.active.None? then First else Other(d.active.value), env);
  }

  /** A manager that is not stuck can start a session: every answer True does it. */
  lemma UnstuckCanStart(d: Duo) returns (env: SessionEnv)
    requires Exclusive(d) && !Stuck(d)
    ensures StartSession(d, env).1 == Ended(true)
  {
    var fine, saves: Saves := Answer(Yes, true, true), s => None;
    var init := InitEnv(NeverLate, Yes, fine, fine, Yes, Yes, 0.0, saves, fine, fine, fine);
    env := SessionEnv(init, ActivateEnv(k => Yes, true, true, 0.0, saves),
                      TermEnv(Yes, Yes, Yes, 0.0, k => fine, saves), saves);
    assert Starts(env) by { assert Comes(init); }
    hide StartSession, Stuck, Starts;
    StartSucceedsIff(d, env);
  }

  lemma StuckRotates(d: Duo, env: SessionEnv)
    requires Exclusive(d) && Stuck(d) && d.active.Some?
    ensures Stuck(Rotate(d, env).0) && Rotate(d, env).1 == Ended(false)
    ensures Rotate(d, env).0.sessions == d.sessions && Rotate(d, env).0.rotations == d.rotations
  {
    hide BringOnline, Starts;
    OnlineIff(d, Other(d.active.value), env);
    assert Retire(d, d.active.value, env) == (d, None);
  }

  lemma StuckEnds(d: Duo, env: SessionEnv)
    requires Exclusive(d) && Stuck(d)
    ensures var e := EndSession(d, env).0; Stuck(e) && e.sessions == d.sessions && e.rotations == d.rotations
  {
    hide Terminate;
    if d.active.Some? {
      TerminateKeepsRest(d.At(d.active.value), env.term);
      TerminateTrueIff(d.At(d.active.value), env.term);
    }
  }

  lemma StuckShutsDown(d: Duo, env: SessionEnv)
    requires Exclusive(d) && Stuck(d)
    ensures var e := EmergencyShutdown(d, env); Stuck(e) && e.sessions == d.sessions && e.rotations == d.rotations
  {
    hide ForceQuarantine;
    if d.active.Some? {
      QuarantineKeepsRest(d.At(d.active.value), env.saves);
      var d1 := d.With(d.active.value, ForceQuarantine(d.At(d.active.value), env.saves));
      QuarantineKeepsRest(d1.At(d1.inactive.value), env.saves);
    }
  }

  lemma StuckStep(d: Duo, c: Call)
    requires Exclusive(d) && Stuck(d)
    ensures var (e, out) := Step(d, c);
      && Stuck(e) && e.sessions == d.sessions && e.rotations == d.rotations
      && (c.kind.Start? || c.kind.RotateNow? ==> out != Ended(true))
  {
    hide Rotate, EndSession, EmergencyShutdown, BringOnline, Starts;
    match c.kind {
      case Start => if d.active.None? { OnlineIff(d, First, c.env); } else { StuckRotates(d, c.env); }
      case RotateNow => if d.active.Some? { StuckRotates(d, c.env); } else { NoRotation(d, c.env); }
      case End => StuckEnds(d, c.env);
      case Emergency => StuckShutsDown(d, c.env);
    }
  }

  lemma NoRotation(d: Duo, env: SessionEnv)
    requires d.WellFormed() && d.active.None?
    ensures Rotate(d, env) == (d, Raised)
  {
  }

  /** A stuck manager stays stuck through every run: no start and no rotation succeeds, and no counter moves. */
  lemma {:induction false} StuckForever(d: Duo, calls: seq<Call>)
    requires Exclusive(d) && Stuck(d)
    ensures var e := Run(d, calls);
      && Exclusive(e) && Stuck(e) && e.sessions == d.sessions && e.rotations == d.rotations
      && forall c: Call :: c.kind.Start? || c.kind.RotateNow? ==> Step(e, c).1 != Ended(true)
  {
    assert d.WellFormed();
    hide Step, Stuck, Exclusive;
    if calls != [] {
      StuckForever(d, calls[..|calls| - 1]);
      StuckStep(Run(d, calls[..|calls| - 1]), calls[|calls| - 1]);
      StepKeepsExclusive(Run(d, calls[..|calls| - 1]), calls[|calls| - 1]);
    }
    var e := Run(d, calls);
    assert Exclusive(e) && Stuck(e);
    forall c: Call | c.kind.Start? || c.kind.RotateNow? ensures Step(e, c).1 != Ended(true) {
      StuckStep(e, c);
    }
  }

  /** After these calls a start with these answers succeeds. */
  ghost predicate StartsAfter(d: Duo, calls: seq<Call>, env: SessionEnv)
    requires d.WellFormed()
  {
    StartSession(Run(d, calls), env).1 == Ended(true)
  }

  /** Whether a session can ever be started again, after any calls and with any answers, is decided by the state alone. */
  lemma RestartableIff(d: Duo)
    requires Exclusive(d) && !(d.active.Some? && d.At(d.active.value).b.state.Active?)
    ensures !Stuck(d) <==> exists calls: seq<Call>, env: SessionEnv :: StartsAfter(d, calls, env)
  {
    assert d.WellFormed();
    hide StartSession, Stuck, Exclusive, Run, StartsAfter;
    if Stuck(d) {
      forall calls: seq<Call>, env: SessionEnv ensures !StartsAfter(d, calls, env) { NeverStarts(d, calls, env); }
    } else {
      var env := UnstuckCanStart(d);
      assert StartsAfter(d, [], env) by { NoCalls(d, env); }
    }
  }

  lemma NoCalls(d: Duo, env: SessionEnv)
    requires d.WellFormed() && StartSession(d, env).1 == Ended(true)
    ensures StartsAfter(d, [], env)
  {
    hide StartSession;
    assert Run(d, []) == d;
  }

  lemma NeverStarts(d: Duo, calls: seq<Call>, env: SessionEnv)
    requires Exclusive(d) && Stuck(d)
    ensures !StartsAfter(d, calls, env)
  {
    assert d.WellFormed();
    hide StartSession, Stuck, Exclusive, Run;
    StuckForever(d, calls);
    assert Step(Run(d, calls), Call(Start, env)).1 != Ended(true);
  }

  /** Without a running session a start leaves the manager stuck exactly when it was, or an answer fails. */
  lemma StartSticksIff(d: Duo, env: SessionEnv)
    requires Exclusive(d) && !(d.active.Some? && d.At(d.active.value).b.state.Active?)
    ensures Stuck(StartSession(d, env).0) <==> Stuck(d) || !Starts(env)
  {
    hide BringOnline, Starts;
    OnlineIff(d, if d.active.None? then First else Other(d.active.value), env);
  }

  /**
    Ending a running session leaves the manager stuck exactly when the first bunker is not DESTROYED afterwards: when it
    was the one ended and did not end well, or was not DESTROYED before.
   */
  lemma EndSticksIff(d: Duo, env: SessionEnv)
    requires Exclusive(d) && d.active.Some? && d.At(d.active.value).b.state.Active?
    ensures Stuck(EndSession(d, env).0) <==>
      if d.active == Some(First) then !EndsWell(d.first.config.id, env.term) else !d.first.state.Destroyed?
  {
    TerminateTrueIff(d.At(d.active.value), env.term);
    TerminateKeepsRest(d.At(d.active.value), env.term);
    hide Terminate, AllStepsPass;
  }

  /** A first start of a new manager leaves it stuck exactly when it fails: one failed answer is enough. */
  lemma FailedFirstStartSticks(config1: Config, config2: Config, key1: string, key2: string, host: HostData, rows: Rows,
                               env: SessionEnv)
    ensures var d := FreshDuo(config1, config2, key1, key2, host, rows);
      && Exclusive(d) && !Stuck(d)
      && (Stuck(StartSession(d, env).0) <==> !Starts(env))
  {
    var d := FreshDuo(config1, config2, key1, key2, host, rows);
    assert Exclusive(d);
    hide BringOnline, Starts, Exclusive;
    OnlineIff(d, First, env);
  }

  /** The answers with which an ACTIVE bunker ends well. */
  predicate EndsWell(id: string, env: TermEnv) {
    !StrandsTermination(VmName(id), env) && AllStepsPass(VmName(id), env.answers)
  }

  /**
    Rotating away from a running bunker leaves the manager stuck exactly when the other one is not DESTROYED, or the
    old one ends well and the new one lacks an answer.
   */
  lemma RotationSticksIff(d: Duo, env: SessionEnv)
    requires Exclusive(d) && d.active.Some? && d.At(d.active.value).b.state.Active?
    ensures Stuck(Rotate(d, env).0) <==>
      || !d.At(Other(d.active.value)).b.state.Destroyed?
      || (EndsWell(d.At(d.active.value).Id(), env.term) && !Starts(env))
  {
    hide Retire, BringOnline, Starts, Terminate, VmName;
    var leaving := d.active.value;
    RetiresIff(d, leaving, env);
    var (d1, stop) := Retire(d, leaving, env);
    if stop.None? { OnlineIff(d1, Other(leaving), env); }
  }

  lemma RetiresIff(d: Duo, s: Slot, env: SessionEnv)
    requires d.WellFormed() && AtRest(d.At(s).b) && d.At(s).b.state.Active?
    ensures var (d1, stop) := Retire(d, s, env);
      && (stop.None? <==> EndsWell(d.At(s).Id(), env.term))
      && d1.At(s).b.state == (if stop.None? then BunkerState.Destroyed else Error)
  {
    RetireKeepsRest(d, s, env);
    TerminateTrueIff(d.At(s), env.term);
    TerminateKeepsRest(d.At(s), env.term);
    hide Terminate, AllStepsPass, ForceQuarantine;
  }

  /** Stuck with pointers set: the active bunker is gone and the other one is in ERROR. */
  ghost predicate Wedged(d: Duo) {
    && d.WellFormed() && d.active.Some? && d.inactive == Some(Other(d.active.value))
    && d.At(d.active.value).b.state.Destroyed?
    && d.At(Other(d.active.value)).b.state.Error?
  }

  /** Rotating away from a running bunker wedges the manager exactly when the old one ends well and the new one cannot start. */
  lemma RotationWedgesIff(d: Duo, env: SessionEnv)
    requires Exclusive(d) && d.active.Some? && d.At(d.active.value).b.state.Active?
    ensures Wedged(Rotate(d, env).0) <==>
      && EndsWell(d.At(d.active.value).Id(), env.term)
      && !(d.At(Other(d.active.value)).b.state.Destroyed? && Starts(env))
    ensures Wedged(Rotate(d, env).0) ==> Stuck(Rotate(d, env).0)
  {
    hide Retire, BringOnline, Starts, Terminate, VmName;
    var leaving := d.active.value;
    RetiresIff(d, leaving, env);
    var (d1, stop) := Retire(d, leaving, env);
    if stop.None? { OnlineIff(d1, Other(leaving), env); }
  }

  /** No sequence of calls leaves that dead end: none starts a session, and end_session raises. */
  lemma {:induction false} WedgedForever(d: Duo, calls: seq<Call>)
    requires Wedged(d)
    ensures var e := Run(d, calls);
      && Wedged(e) && e.active == d.active && e.sessions == d.sessions && e.rotations == d.rotations
    ensures forall c: Call :: !c.kind.Emergency? ==> Step(Run(d, calls), c).1 != Ended(true)
    ensures forall c: Call :: c.kind.End? ==> Step(Run(d, calls), c) == (Run(d, calls), Raised)
  {
    if calls != [] {
      WedgedForever(d, calls[..|calls| - 1]);
      WedgedStep(Run(d, calls[..|calls| - 1]), calls[|calls| - 1]);
    }
    var e := Run(d, calls);
    forall c: Call
      ensures !c.kind.Emergency? ==> Step(e, c).1 != Ended(true)
      ensures c.kind.End? ==> Step(e, c) == (e, Raised)
    {
      WedgedStep(e, c);
    }
  }

  lemma WedgedEnds(d: Duo, env: SessionEnv)
    requires Wedged(d)
    ensures EndSession(d, env) == (d, Raised)
  {
    var s := d.active.value;
    assert Terminate(d.At(s), env.term) == (d.At(s), InvalidTransition);
    assert d.With(s, d.At(s)) == d;
  }

  lemma WedgedShutsDown(d: Duo, env: SessionEnv)
    requires Wedged(d)
    ensures EmergencyShutdown(d, env) == d
  {
    var s := d.active.value;
    assert ForceQuarantine(d.At(s), env.saves) == d.At(s);
    assert d.With(s, d.At(s)) == d;
  }

  lemma WedgedRotates(d: Duo, env: SessionEnv)
    requires Wedged(d)
    ensures var (e, out) := Rotate(d, env);
      Wedged(e) && out == Ended(false) && e.active == d.active && e.sessions == d.sessions && e.rotations == d.rotations
  {
    hide Initialize, Terminate, Activate;
    var s := d.active.value;
    assert Retire(d, s, env) == (d, None);
    var w := d.At(Other(s));
    assert Initialize(w, Unhurried(env.init)).1 == Returned(false);
  }

  lemma WedgedStep(d: Duo, c: Call)
    requires Wedged(d)
    ensures var e := Step(d, c).0;
      Wedged(e) && e.active == d.active && e.sessions == d.sessions && e.rotations == d.rotations
    ensures !c.kind.Emergency? ==> Step(d, c).1 != Ended(true)
    ensures c.kind.End? ==> Step(d, c) == (d, Raised)
  {
    hide Rotate, EndSession, EmergencyShutdown;
    match c.kind {
      case End => WedgedEnds(d, c.env);
      case Emergency => WedgedShutsDown(d, c.env);
      case _ => WedgedRotates(d, c.env);
    }
  }
}
