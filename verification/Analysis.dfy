// The one-shot cycle: bring an ephemeral bunker up, run the sample in it, and
// decontaminate on every way out.
module Analysis {
  import opened Basics
  import opened Host
  import opened Store
  import opened Monitoring
  import opened Decontamination
  import opened Lifecycle
  import opened LifecycleRuns
  import opened BunkerClass
  import Deadline

  /** A command run in the guest: it works, raises, or raises FileNotFoundError. */
  datatype GuestCall = Works | Breaks | FileMissing

  /** What happens during one cycle; `late(k)` says the deadline is spent at the k-th checkpoint. */
  datatype CycleEnv = CycleEnv(
    late: nat -> bool, init: InitEnv, act: ActivateEnv, stage: GuestCall, execute: GuestCall,
    term: TermEnv, rmVm: Answer, rmSwitch: Answer, rmDisk: Answer, deleteRaises: bool)

  /** How the guarded part of the cycle ends. */
  datatype Stop = Collected | Overdue | NotFound | Broken

  function AfterGuest(call: GuestCall, late: bool): Stop {
    match call
    case Works => if late then Overdue else Collected
    case Breaks => Broken
    case FileMissing => NotFound
  }

  /** Staging, execution and the monitor wait, once the bunker is active. */
  function Observe(env: CycleEnv): Stop {
    var staged := AfterGuest(env.stage, env.late(3));
    if !staged.Collected? then staged
    else
      var executed := AfterGuest(env.execute, env.late(4));
      if !executed.Collected? then executed
      else if env.late(5) || env.late(6) then Overdue
      else Collected
  }

  /** The guarded part of the cycle, from a bunker that has just been created. */
  function Work(w: World, env: CycleEnv): (World, Stop)
    requires |w.b.layers| == LAYER_COUNT
  {
    var (w1, e1) := Initialize(w, env.init);
    if e1.DeadlineExceeded? then (w1, Overdue)
    else if e1 != Returned(true) then (w1, Broken)
    else if env.late(1) then (w1, Overdue)
    else
      var (w2, e2) := Activate(w1, env.act);
      if e2 != Returned(true) then (w2, Broken)
      else if env.late(2) then (w2, Overdue)
      else (w2, Observe(env))
  }

  /** Removes what a bunker that is not ACTIVE still names, and its disk; a name survives only a raising call. */
  function TearDown(w: World, env: CycleEnv): (r: World)
    ensures r.b == w.b.(vmName := r.b.vmName, switchName := r.b.switchName) && r.rows == w.rows
    ensures r.host.snapshots == w.host.snapshots
  {
    var w1 :=
      if NameOr(w.b.vmName) == "" then w
      else w.(b := w.b.(vmName := if env.rmVm.reply.Raises? then w.b.vmName else None),
              host := w.host.RemoveVm(w.b.vmName.value, w.Disk(), env.rmVm));
    var w2 :=
      if NameOr(w1.b.switchName) == "" then w1
      else w1.(b := w1.b.(switchName := if env.rmSwitch.reply.Raises? then w1.b.switchName else None),
               host := w1.host.RemoveSwitch(w1.b.switchName.value, env.rmSwitch));
    if w2.Disk() in w2.host.files then w2.(host := w2.host.DeleteFile(w2.Disk(), env.rmDisk)) else w2
  }

  /** Destroys the bunker and its row, and reports success. */
  function Decontaminate(w: World, env: CycleEnv): (World, bool) {
    var w0 := w.(b := w.b.(monitoring := false));
    var (w1, success) :=
      if w.b.state.Active? then
        var (t, exit) := Terminate(w0, env.term);
        (t, if t.b.report.Some? then t.b.report.value.success else exit == Returned(true))
      else (TearDown(w0, env), true);
    (if env.deleteRaises then w1 else w1.(rows := w1.rows - {w1.Id()}), success)
  }

  /** The whole cycle of a new bunker; without a bunker there is nothing to decontaminate. */
  function Cycle(config: Config, key: string, host: HostData, rows: Rows, env: CycleEnv): (World, Stop, bool) {
    var w := World(FreshBunker(config, key), host, rows);
    if env.late(0) then (w, Overdue, false)
    else
      var (w1, stop) := Work(w, env);
      var (w2, success) := Decontaminate(w1, env);
      (w2, stop, success)
  }

  // ---- what is left behind ----

  /** Nothing on the host or in the store belongs to the id yet. */
  predicate FreshId(id: string, host: HostData, rows: Rows) {
    && VmName(id) !in host.vms && SwitchName(id) !in host.switches
    && DiskPath(host.snapshots, id) !in host.files && id !in rows
  }

  /** The bunker becomes ACTIVE. */
  predicate GoesActive(env: CycleEnv) {
    && !env.late(0) && Comes(env.init) && !env.late(1)
    && FirstFailure(0, env.act.hook) == LAYER_COUNT && env.act.monitorStarts && env.act.metricsStart
  }

  /** The bunker becomes ACTIVE, and a call made before the decontamination steps raises. */
  predicate Strands(env: CycleEnv) {
    GoesActive(env) && (env.term.checkpoint.Raises? || env.term.stop.Raises? || env.term.secret.Raises?)
  }

  /** The cycle leaves its VM: initialize left one, and neither the steps nor the fallback, which knows it by name, removed it. */
  predicate LeavesVm(env: CycleEnv) {
    && !env.late(0) && InitLeavesVm(env.init)
    && if GoesActive(env) then Strands(env) || !env.term.answers(4).done else Comes(env.init) ==> !env.rmVm.done
  }

  predicate LeavesSwitch(env: CycleEnv) {
    && !env.late(0) && InitLeavesSwitch(env.init)
    && if GoesActive(env) then Strands(env) || !env.term.answers(3).done else Comes(env.init) ==> !env.rmSwitch.done
  }

  predicate LeavesDisk(env: CycleEnv, confined: bool) {
    && !env.late(0) && InitLeavesDisk(env.init, confined)
    && if GoesActive(env) then Strands(env) || !(env.term.answers(2).done || env.term.answers(4).disk)
       else !(Comes(env.init) && env.rmVm.disk) && !env.rmDisk.done
  }

  predicate Leaks(env: CycleEnv, confined: bool) {
    LeavesVm(env) || LeavesSwitch(env) || LeavesDisk(env, confined)
  }

  /** The guarded part changes the host only through initialize, and ends ACTIVE exactly when every start succeeded. */
  lemma WorkFootprint(w: World, env: CycleEnv)
    requires AtRest(w.b) && w.b.state.Destroyed? && !env.late(0)
    ensures var w1 := Work(w, env).0;
      && AtRest(w1.b) && w1.b.config == w.b.config && w1.b.report == w.b.report
      && (w1.b.state.Active? <==> GoesActive(env))
      && w1.host == Initialize(w, env.init).0.host
      && w1.b.vmName == Initialize(w, env.init).0.b.vmName
      && w1.b.switchName == Initialize(w, env.init).0.b.switchName
  {
    hide Initialize;
    InitializeKeepsRest(w, env.init);
    var (w1, e1) := Initialize(w, env.init);
    if e1 == Returned(true) {
      ActivateKeepsRest(w1, env.act);
    }
  }

  /** A fallback teardown clears what the bunker names as far as the removals take effect, and its disk. */
  lemma TearDownClears(w: World, env: CycleEnv)
    ensures var vm, sw := NameOr(w.b.vmName), NameOr(w.b.switchName);
      TearDown(w, env).host == w.host.(
        vms := Dropping(w.host.vms, vm != "" && env.rmVm.done, vm),
        switches := Dropping(w.host.switches, sw != "" && env.rmSwitch.done, sw),
        files := Dropping(w.host.files, (vm != "" && env.rmVm.disk) || env.rmDisk.done, w.Disk()))
  {
    hide DiskPath;
  }

  /** The fallback forgets a name exactly when its removal was called and did not raise. */
  lemma TearDownForgets(w: World, env: CycleEnv)
    ensures var b := TearDown(w, env).b;
      && b.vmName == (if NameOr(w.b.vmName) == "" || env.rmVm.reply.Raises? then w.b.vmName else None)
      && b.switchName == (if NameOr(w.b.switchName) == "" || env.rmSwitch.reply.Raises? then w.b.switchName else None)
  {
    hide DiskPath;
  }

  /** Whatever happens, the bunker's monitor is stopped when the cycle is over. */
  lemma MonitorStops(config: Config, key: string, host: HostData, rows: Rows, env: CycleEnv)
    ensures !Cycle(config, key, host, rows, env).0.b.monitoring
  {
    hide Work, TearDown;
    if !env.late(0) {
      var w1 := Work(World(FreshBunker(config, key), host, rows), env).0;
      if w1.b.state.Active? { TerminationStopsMonitor(w1.(b := w1.b.(monitoring := false)), env.term); }
    }
  }

  lemma TerminationStopsMonitor(w: World, env: TermEnv)
    requires !w.b.monitoring
    ensures !Terminate(w, env).0.b.monitoring
  {
    hide Purge, Wind;
  }

  /** A termination strands everything, or its steps run and clear what their removals took. */
  lemma TerminationClears(w: World, env: TermEnv)
    requires AtRest(w.b) && w.b.state.Active?
    ensures Terminate(w, env).0.host ==
      if StrandsTermination(VmName(w.Id()), env) then w.host
      else w.host.(
        vms := Dropping(w.host.vms, env.answers(4).done, VmName(w.Id())),
        switches := Dropping(w.host.switches, env.answers(3).done, SwitchName(w.Id())),
        files := Dropping(w.host.files, env.answers(2).done || env.answers(4).disk, w.Disk()))
  {
    hide VmName, SwitchName, DiskPath;
    StepsClean(w.host, w.Id(), VmName(w.Id()), env.answers);
  }

  /** The report of a first termination says what the call answers, and True takes every step. */
  lemma ReportIsAnswer(w: World, env: TermEnv)
    requires AtRest(w.b) && w.b.state.Active? && w.b.report.None?
    ensures var (t, exit) := Terminate(w, env);
      && (t.b.report.Some? ==> (t.b.report.value.success <==> exit == Returned(true)))
      && (exit == Returned(true) <==>
            !StrandsTermination(VmName(w.Id()), env) && AllStepsPass(VmName(w.Id()), env.answers))
  {
    hide VmName, SwitchName, DiskPath;
    TerminateTrueIff(w, env);
  }

  /** What the decontamination of a cycle leaves of what is there, and what it reports. */
  lemma DecontaminateFootprint(w: World, env: CycleEnv)
    requires AtRest(w.b) && w.b.report.None?
    ensures var (w1, success) := Decontaminate(w, env);
      var vm, sw := NameOr(w.b.vmName), NameOr(w.b.switchName);
      && (w.b.state.Active? ==>
            && w1.host == Terminate(w, env.term).0.host
            && (success <==> !StrandsTermination(VmName(w.Id()), env.term) && AllStepsPass(VmName(w.Id()), env.term.answers)))
      && (!w.b.state.Active? ==> success && w1.host == TearDown(w, env).host)
      && w1.rows - {w.Id()} == w.rows - {w.Id()}
      && (!env.deleteRaises ==> w1.rows == w.rows - {w.Id()})
  {
    hide VmName, SwitchName, DiskPath, Terminate, TearDown;
    var w0 := w.(b := w.b.(monitoring := false));
    if w.b.state.Active? {
      ReportIsAnswer(w, env.term);
      TerminateWithoutMonitor(w, env.term);
      StepTouchesOwnRow(w, CallTerminate(env.term));
    } else {
      TearDownWithoutMonitor(w, env);
    }
  }

  lemma TearDownWithoutMonitor(w: World, env: CycleEnv)
    ensures TearDown(w.(b := w.b.(monitoring := false)), env).host == TearDown(w, env).host
  {
    hide DiskPath;
  }

  /** Stopping the monitor first changes nothing termination would not. */
  lemma TerminateWithoutMonitor(w: World, env: TermEnv)
    requires w.b.state.Active?
    ensures Terminate(w.(b := w.b.(monitoring := false)), env) == Terminate(w, env)
  {
    hide Purge, FailToError;
    WindWithoutMonitor(w, NameOr(w.b.vmName), env);
    hide Wind;
  }

  lemma WindWithoutMonitor(w: World, vm: string, env: TermEnv)
    requires w.b.state.Active?
    ensures Wind(w.(b := w.b.(monitoring := false)), vm, env) == Wind(w, vm, env)
  {
    var v := w.(b := w.b.(monitoring := false));
    var w1, v1 := TransitionTo(w, Terminating, env.saves).0, TransitionTo(v, Terminating, env.saves).0;
    assert Quiesced(v1.b) == Quiesced(w1.b);
  }

  /** The rows of the cycle: no other one has changed, and the own one is gone if its delete does not raise. */
  lemma CycleRows(config: Config, key: string, host: HostData, rows: Rows, env: CycleEnv)
    requires config.id !in rows
    ensures var w := Cycle(config, key, host, rows, env).0;
      w.rows - {config.id} == rows && (!env.deleteRaises ==> w.rows == rows)
  {
    hide Decontaminate, Work;
    var w := World(FreshBunker(config, key), host, rows);
    FreshIsAtRest(config, key);
    assert rows - {config.id} == rows;
    if !env.late(0) {
      WorkFootprint(w, env);
      WorkTouchesOwnRow(w, env);
      DecontaminateFootprint(Work(w, env).0, env);
    }
  }

  /**
    Every way out of the cycle, for all answers: the host is what it was plus exactly what the cycle leaves, and no
    row but the bunker's own has changed; that one is gone if its delete does not raise.
   */
  lemma CycleFootprint(config: Config, key: string, host: HostData, rows: Rows, env: CycleEnv)
    requires FreshId(config.id, host, rows)
    ensures var w := Cycle(config, key, host, rows, env).0;
      var disk := DiskPath(host.snapshots, config.id);
      && w.host == host.(
           vms := Adding(host.vms, LeavesVm(env), VmName(config.id)),
           switches := Adding(host.switches, LeavesSwitch(env), SwitchName(config.id)),
           files := Adding(host.files, LeavesDisk(env, Confined(host.snapshots, disk)), disk))
      && w.rows - {config.id} == rows
      && (!env.deleteRaises ==> w.rows == rows)
  {
    hide VmName, SwitchName, DiskPath, Confined, Decontaminate, Work, Initialize, TearDown, Terminate;
    hide InitLeavesVm, InitLeavesSwitch, InitLeavesDisk, Comes;
    CycleRows(config, key, host, rows, env);
    var w := World(FreshBunker(config, key), host, rows);
    FreshIsAtRest(config, key);
    if !env.late(0) {
      InitializeFootprint(w, env.init);
      WorkFootprint(w, env);
      var w1 := Work(w, env).0;
      DecontaminateFootprint(w1, env);
      if w1.b.state.Active? { TerminationClears(w1, env.term); } else { TearDownClears(w1, env); }
    }
  }

  lemma FreshIsAtRest(config: Config, key: string)
    ensures AtRest(FreshBunker(config, key))
  {
  }

  lemma WorkTouchesOwnRow(w: World, env: CycleEnv)
    requires |w.b.layers| == LAYER_COUNT
    ensures SameOtherRows(w, Work(w, env).0)
  {
    hide Initialize, Activate;
    StepTouchesOwnRow(w, CallInitialize(env.init));
    var (w1, e1) := Initialize(w, env.init);
    StepTouchesOwnRow(w1, CallActivate(env.act));
  }

  /** Exactly when a cycle leaves the host as it found it. */
  lemma LeakFreeIff(config: Config, key: string, host: HostData, rows: Rows, env: CycleEnv)
    requires FreshId(config.id, host, rows)
    ensures Cycle(config, key, host, rows, env).0.host == host <==>
      !Leaks(env, Confined(host.snapshots, DiskPath(host.snapshots, config.id)))
  {
    hide Cycle, VmName, SwitchName, DiskPath, Confined, LeavesVm, LeavesSwitch, LeavesDisk;
    CycleFootprint(config, key, host, rows, env);
  }

  /** Every removal the cycle may ask for takes effect, whatever it reports. */
  predicate SoundRemovals(env: CycleEnv) {
    && env.init.rmVm.done && env.init.rmSwitch.done && env.init.rmDisk.done
    && env.rmVm.done && env.rmSwitch.done && env.rmDisk.done
    && env.term.answers(2).done && env.term.answers(3).done && env.term.answers(4).done
  }

  /** Leak freedom: a backend whose removals work, that creates no VM it does not report and does not raise while winding down. */
  lemma HonestBackendLeavesNothing(config: Config, key: string, host: HostData, rows: Rows, env: CycleEnv)
    requires FreshId(config.id, host, rows) && SoundRemovals(env) && !env.deleteRaises
    requires env.init.mkVm.done ==> env.init.mkVm.reply.Yes?
    requires !env.term.checkpoint.Raises? && !env.term.stop.Raises? && !env.term.secret.Raises?
    ensures Cycle(config, key, host, rows, env).0.host == host
    ensures Cycle(config, key, host, rows, env).0.rows == rows
  {
    hide Cycle, VmName, SwitchName, DiskPath, Confined;
    CycleFootprint(config, key, host, rows, env);
    LeakFreeIff(config, key, host, rows, env);
  }

  /** The cycle got a bunker, and if that went ACTIVE its termination ran all seven steps without a failure. */
  predicate ClaimsSuccess(id: string, env: CycleEnv) {
    !env.late(0) && (GoesActive(env) ==> !Strands(env) && AllStepsPass(VmName(id), env.term.answers))
  }

  /** Success is reported for every bunker that did not go ACTIVE, whatever its teardown answered. */
  lemma SuccessIff(config: Config, key: string, host: HostData, rows: Rows, env: CycleEnv)
    ensures Cycle(config, key, host, rows, env).2 <==> ClaimsSuccess(config.id, env)
  {
    hide VmName, SwitchName, DiskPath, Decontaminate, Work, Initialize, AllStepsPass;
    var w := World(FreshBunker(config, key), host, rows);
    FreshIsAtRest(config, key);
    if !env.late(0) {
      WorkFootprint(w, env);
      DecontaminateFootprint(Work(w, env).0, env);
    }
  }

  /** Exactly when the cycle reports success although it leaves something behind, for all answers. */
  lemma SuccessWithLeakIff(config: Config, key: string, host: HostData, rows: Rows, env: CycleEnv)
    requires FreshId(config.id, host, rows)
    ensures var (w, _, success) := Cycle(config, key, host, rows, env);
      success && w.host != host <==>
        ClaimsSuccess(config.id, env) && Leaks(env, Confined(host.snapshots, DiskPath(host.snapshots, config.id)))
  {
    hide Cycle, VmName, SwitchName, DiskPath, Confined, Leaks, ClaimsSuccess;
    LeakFreeIff(config, key, host, rows, env);
    SuccessIff(config, key, host, rows, env);
  }

  /** Once the bunker went ACTIVE such a claim takes a backend that reports a removal it did not make. */
  lemma ActiveSuccessIsHonest(id: string, env: CycleEnv, confined: bool)
    requires GoesActive(env) && ClaimsSuccess(id, env)
    requires forall i :: 2 <= i <= 4 && env.term.answers(i).reply.Yes? ==> env.term.answers(i).done
    ensures !Leaks(env, confined)
  {
    assert StepReply(2, VmName(id), env.term.answers).Yes? && StepReply(3, VmName(id), env.term.answers).Yes?;
    assert StepReply(4, VmName(id), env.term.answers).Yes?;
  }

  /**
    The unconditional success is wrong at this input, where the backend is honest throughout: a deadline spent after
    initialize, and a fallback whose remove_vm reports that it failed.
   */
  lemma FallbackClaimsSuccess(config: Config, key: string, host: HostData, rows: Rows) returns (env: CycleEnv)
    requires FreshId(config.id, host, rows)
    ensures env.rmVm == Answer(No, false, false) && env.rmSwitch == env.rmDisk == Answer(Yes, true, true)
    ensures env.late(1) && Comes(env.init) && env.init.mkVm == Answer(Yes, true, true)
    ensures var (w, stop, success) := Cycle(config, key, host, rows, env);
      stop.Overdue? && success && VmName(config.id) in w.host.vms && w.host != host
  {
    var fine := Answer(Yes, true, true);
    var never := (k: nat) => false;
    var saves: Saves := s => None;
    var init := InitEnv(never, Yes, fine, fine, Yes, Yes, 0.0, saves, fine, fine, fine);
    var act := ActivateEnv(k => Yes, true, true, 0.0, saves);
    var term := TermEnv(Yes, Yes, Yes, 0.0, k => fine, saves);
    env := CycleEnv(k => k == 1, init, act, Works, Works, term, Answer(No, false, false), fine, fine, false);
    assert Comes(init);
    hide VmName, SwitchName, DiskPath, Confined;
    CycleFootprint(config, key, host, rows, env);
    SuccessIff(config, key, host, rows, env);
    assert Initialize(World(FreshBunker(config, key), host, rows), init).1 == Returned(true);
  }

  /** Indicators are collected exactly when the bunker ran, both guest commands worked and no checkpoint was late. */
  lemma CollectedIff(config: Config, key: string, host: HostData, rows: Rows, env: CycleEnv)
    ensures var stop := Cycle(config, key, host, rows, env).1;
      && (stop.Collected? <==>
            && GoesActive(env) && env.stage.Works? && env.execute.Works?
            && !env.late(2) && !env.late(3) && !env.late(4) && !env.late(5) && !env.late(6))
      && (stop.NotFound? ==> env.stage.FileMissing? || env.execute.FileMissing?)
  {
    hide Initialize, Activate, Decontaminate;
    var w := World(FreshBunker(config, key), host, rows);
    assert AtRest(w.b);
    if !env.late(0) {
      var (w1, e1) := Initialize(w, env.init);
      if e1 == Returned(true) {
        InitializeKeepsRest(w, env.init);
        ActivateIff(w1, env.act);
      }
    }
  }

  /** The bunker is ACTIVE and the deadline was not spent by then. */
  predicate Runs(env: CycleEnv) { GoesActive(env) && !env.late(2) }

  /** Execution is reached: staging worked and was in time. */
  predicate Executes(env: CycleEnv) { Runs(env) && env.stage.Works? && !env.late(3) }

  /** Every way the cycle can end before indicators are collected. */
  lemma StopsIff(config: Config, key: string, host: HostData, rows: Rows, env: CycleEnv)
    ensures var stop := Cycle(config, key, host, rows, env).1;
      && (stop.NotFound? <==> (Runs(env) && env.stage.FileMissing?) || (Executes(env) && env.execute.FileMissing?))
      && (stop.Broken? <==>
            || (!env.late(0) && !Comes(env.init) && !ComesLate(env.init))
            || (!env.late(0) && Comes(env.init) && !env.late(1) && !GoesActive(env))
            || (Runs(env) && env.stage.Breaks?) || (Executes(env) && env.execute.Breaks?))
      && (stop.Overdue? <==>
            || env.late(0) || ComesLate(env.init)
            || (Comes(env.init) && env.late(1)) || (GoesActive(env) && env.late(2))
            || (Runs(env) && env.stage.Works? && env.late(3))
            || (Executes(env) && env.execute.Works? && (env.late(4) || env.late(5) || env.late(6))))
  {
    hide Initialize, Activate, Decontaminate, Comes, ComesLate;
    var w := World(FreshBunker(config, key), host, rows);
    InitializeLateIff(w, env.init);
    ComesInTime(env.init);
    var (w1, e1) := Initialize(w, env.init);
    if e1 == Returned(true) {
      FreshIsAtRest(config, key);
      InitializeKeepsRest(w, env.init);
      ActivateIff(w1, env.act);
    }
  }

  lemma ComesInTime(env: InitEnv)
    ensures Comes(env) ==> !ComesLate(env)
  {
  }

  /** The checkpoints of the cycle from staging on find spent exactly what the clock of the phase says. */
  predicate ReadsClock(env: CycleEnv, deadline: Option<real>, monitor: real, t: Deadline.Times) {
    var staged := t.start + t.gap(0) + t.stage + t.gap(1);
    var executed := staged + t.gap(2) + t.execute + t.gap(3);
    var waits := executed + t.gap(4);
    && env.late(3) == Deadline.Spent(deadline, staged)
    && env.late(4) == Deadline.Spent(deadline, executed)
    && env.late(5) == (monitor > 0.0 && Deadline.Spent(deadline, waits))
    && env.late(6) == Deadline.Spent(deadline, Deadline.WaitEnd(deadline, waits, monitor, t.gap(5)))
  }

  /** The cycle's view of the phase and the timed one agree: with working commands it is overdue exactly when it aborts. */
  lemma ObserveIsPhase(env: CycleEnv, deadline: Option<real>, monitor: real, t: Deadline.Times)
    requires env.stage.Works? && env.execute.Works? && ReadsClock(env, deadline, monitor, t)
    ensures Observe(env) == if Deadline.Phase(deadline, monitor, t).Aborted? then Overdue else Collected
  {
  }

  // ---- in place ----

  method WorkInPlace(bunker: Bunker, env: CycleEnv) returns (stop: Stop)
    requires |bunker.layers| == LAYER_COUNT
    modifies bunker, bunker.host, bunker.store, bunker.verifier
    ensures (bunker.View(), stop) == Work(old(bunker.View()), env)
  {
    var exit := bunker.Initialize(env.init);
    if exit.DeadlineExceeded? { return Overdue; }
    if exit != Returned(true) { return Broken; }
    if env.late(1) { return Overdue; }
    exit := bunker.Activate(env.act);
    if exit != Returned(true) { return Broken; }
    if env.late(2) { return Overdue; }
    stop := Observe(env);
  }

  method TearDownInPlace(bunker: Bunker, env: CycleEnv)
    modifies bunker`vmName, bunker`switchName, bunker.host
    ensures bunker.View() == TearDown(old(bunker.View()), env)
  {
    hide DiskPath;
    var disk := DiskPath(bunker.host.snapshots, bunker.config.id);
    if NameOr(bunker.vmName) != "" {
      var r := bunker.host.RemoveVm(bunker.vmName.value, disk, env.rmVm);
      if !r.Raises? { bunker.vmName := None; }
    }
    if NameOr(bunker.switchName) != "" {
      var r := bunker.host.RemoveSwitch(bunker.switchName.value, env.rmSwitch);
      if !r.Raises? { bunker.switchName := None; }
    }
    if disk in bunker.host.files {
      var _ := bunker.host.DeleteFile(disk, env.rmDisk);
    }
  }

  method DecontaminateInPlace(bunker: Bunker, env: CycleEnv) returns (success: bool)
    requires |bunker.layers| == LAYER_COUNT
    modifies bunker, bunker.host, bunker.store, bunker.verifier
    ensures (bunker.View(), success) == Decontaminate(old(bunker.View()), env)
  {
    bunker.monitoring := false;
    if bunker.state.Active? {
      var exit := bunker.Terminate(env.term);
      success := if bunker.report.Some? then bunker.report.value.success else exit == Returned(true);
    } else {
      TearDownInPlace(bunker, env);
      success := true;
    }
    var _ := bunker.store.Delete(bunker.config.id, env.deleteRaises);
  }

  /** The cycle: decontamination runs whichever way the guarded part ends. */
  method RunCycle(config: Config, key: string, host: Backend, store: StateStore, env: CycleEnv)
    returns (stop: Stop, success: bool)
    modifies host, store
    ensures var (w, stop', success') := Cycle(config, key, old(host.Data()), old(store.rows), env);
      host.Data() == w.host && store.rows == w.rows && stop == stop' && success == success'
  {
    if env.late(0) { return Overdue, false; }
    var bunker := new Bunker(config, key, host, store);
    assert bunker.View() == World(FreshBunker(config, key), old(host.Data()), old(store.rows));
    stop := WorkInPlace(bunker, env);
    success := DecontaminateInPlace(bunker, env);
  }
}
