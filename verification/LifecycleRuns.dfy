// Whole runs of one bunker: what every sequence of lifecycle calls keeps.
module LifecycleRuns {
  import opened Basics
  import opened Host
  import opened Store
  import opened Monitoring
  import opened Decontamination
  import opened Lifecycle

  datatype Op =
    | CallInitialize(init: InitEnv)
    | CallActivate(act: ActivateEnv)
    | CallTerminate(term: TermEnv)
    | CallQuarantine(saves: Saves)

  function Step(w: World, op: Op): (r: World)
    requires |w.b.layers| == LAYER_COUNT
    ensures |r.b.layers| == LAYER_COUNT && r.b.config == w.b.config
  {
    match op
    case CallInitialize(env) => Initialize(w, env).0
    case CallActivate(env) => Activate(w, env).0
    case CallTerminate(env) => Terminate(w, env).0
    case CallQuarantine(saves) => ForceQuarantine(w, saves)
  }

  function Run(w: World, ops: seq<Op>): (r: World)
    requires |w.b.layers| == LAYER_COUNT
    ensures |r.b.layers| == LAYER_COUNT && r.b.config == w.b.config
  {
    if ops == [] then w else Step(Run(w, ops[..|ops| - 1]), ops[|ops| - 1])
  }

  /** The bunker holds its own VM and switch and every baseline. */
  ghost predicate Provisioned(b: BunkerData) {
    && b.vmName == Some(VmName(b.config.id))
    && b.switchName == Some(SwitchName(b.config.id))
    && FullBaseline(b.baseline)
  }

  /** What holds between two calls, in terms of the state alone. */
  ghost predicate AtRest(b: BunkerData) {
    && |b.layers| == LAYER_COUNT
    && match b.state
       case Destroyed => b.layers == NO_LAYERS && !b.monitoring && !b.sessionActive
       case Ready => b.layers == NO_LAYERS && !b.monitoring && !b.sessionActive && Provisioned(b)
       case Active => b.layers == ALL_LAYERS && b.monitoring && b.sessionActive && Provisioned(b)
       case Quarantine => b.layers == ALL_LAYERS && !b.monitoring && b.sessionActive && Provisioned(b)
       case Error => true
       case _ => false
  }

  lemma InitializeKeepsRest(w: World, env: InitEnv)
    requires AtRest(w.b)
    ensures AtRest(Initialize(w, env).0.b)
    ensures Initialize(w, env).1 == Returned(true) <==> Initialize(w, env).0.b.state.Ready?
    ensures Initialize(w, env).0.b.state.Ready? || Initialize(w, env).0.b.state.Error?
  {
  }

  lemma ActivateKeepsRest(w: World, env: ActivateEnv)
    requires AtRest(w.b)
    ensures AtRest(Activate(w, env).0.b)
    ensures Activate(w, env).1 == Returned(true) <==> Activate(w, env).0.b.state.Active? && w.b.state.Ready?
    ensures Activate(w, env).1 == InvalidTransition <==> w.b.state.Destroyed?
    ensures w.b.state.Destroyed? ==> Activate(w, env).0 == w
    ensures !w.b.state.Destroyed? ==> Activate(w, env).0.b.state == if Activate(w, env).1 == Returned(true) then Active else Error
  {
  }

  lemma TerminateKeepsRest(w: World, env: TermEnv)
    requires AtRest(w.b)
    ensures AtRest(Terminate(w, env).0.b)
    ensures Terminate(w, env).1 == InvalidTransition <==> w.b.state.Destroyed?
    ensures w.b.state.Destroyed? ==> Terminate(w, env).0 == w
    ensures !w.b.state.Destroyed? ==>
      Terminate(w, env).0.b.state == if Terminate(w, env).1 == Returned(true) then BunkerState.Destroyed else Error
  {
  }

  lemma QuarantineKeepsRest(w: World, saves: Saves)
    requires AtRest(w.b)
    ensures AtRest(ForceQuarantine(w, saves).b)
    ensures ForceQuarantine(w, saves).b.state == if w.b.state.Active? then Quarantine else w.b.state
  {
  }

  /** Every run of the four operations, whatever the host, the store and the layers answer. */
  lemma {:induction false} RunKeepsRest(w: World, ops: seq<Op>)
    requires AtRest(w.b)
    ensures AtRest(Run(w, ops).b)
  {
    if ops != [] {
      var before := Run(w, ops[..|ops| - 1]);
      RunKeepsRest(w, ops[..|ops| - 1]);
      match ops[|ops| - 1] {
        case CallInitialize(env) => InitializeKeepsRest(before, env);
        case CallActivate(env) => ActivateKeepsRest(before, env);
        case CallTerminate(env) => TerminateKeepsRest(before, env);
        case CallQuarantine(saves) => QuarantineKeepsRest(before, saves);
      }
    }
  }

  lemma ErrorStep(w: World, op: Op)
    requires w.b.state.Error? && |w.b.layers| == LAYER_COUNT
    ensures Step(w, op).b.state.Error?
    ensures !op.CallInitialize? ==> Step(w, op) == w
  {
    match op {
      case CallInitialize(env) => assert Initialize(w, env).1 == Returned(false);
      case CallActivate(env) => assert Activate(w, env).0 == w;
      case CallTerminate(env) => assert Terminate(w, env).0 == w;
      case CallQuarantine(saves) => assert ForceQuarantine(w, saves) == w;
    }
  }

  /** No call leaves ERROR; only initialize still touches the host, to clean up. */
  lemma {:induction false} ErrorIsAbsorbing(w: World, ops: seq<Op>)
    requires w.b.state.Error? && |w.b.layers| == LAYER_COUNT
    ensures Run(w, ops).b.state.Error?
    ensures (forall op <- ops :: !op.CallInitialize?) ==> Run(w, ops) == w
  {
    if ops != [] {
      ErrorIsAbsorbing(w, ops[..|ops| - 1]);
      ErrorStep(Run(w, ops[..|ops| - 1]), ops[|ops| - 1]);
    }
  }

  /** An operation writes no row but the bunker's own. */
  lemma StepTouchesOwnRow(w: World, op: Op)
    requires |w.b.layers| == LAYER_COUNT
    ensures SameOtherRows(w, Step(w, op))
  {
    hide VmName, SwitchName, DiskPath;
    match op {
      case CallInitialize(env) =>
        InitializeTouchesOwnRow(w, env);
      case CallActivate(env) =>
      case CallTerminate(env) =>
      case CallQuarantine(saves) =>
    }
  }

  lemma InitializeTouchesOwnRow(w: World, env: InitEnv)
    ensures SameOtherRows(w, Initialize(w, env).0)
  {
    hide VmName, SwitchName, DiskPath, BringUp;
    BringUpTouchesOwnRow(w, env);
  }

  lemma BringUpTouchesOwnRow(w: World, env: InitEnv)
    ensures SameOtherRows(w, BringUp(w, env).0)
  {
    hide VmName, SwitchName, DiskPath;
    var (w1, a1) := Announce(w, env);
    assert SameOtherRows(w, w1);
    if a1.Done? {
      var (w2, a2) := LoadBaseImage(w1, env);
      assert SameOtherRows(w, w2);
      if a2.Done? {
        var (w3, a3) := AllocateResources(w2, env);
        assert SameOtherRows(w, w3);
      }
    }
  }

  // ---- names ----

  /** The bunker names no VM and switch but those of its own id. */
  predicate NamesItsOwn(b: BunkerData) {
    NameOr(b.vmName) in {"", VmName(b.config.id)} && NameOr(b.switchName) in {"", SwitchName(b.config.id)}
  }

  /** So do the bunker and every row, and every row is stored under its own id. */
  ghost predicate NamesOwn(w: World) {
    NamesItsOwn(w.b) && OwnNamesOnly(w.rows) && KeyedRows(w.rows)
  }

  lemma TransitionNames(w: World, s: BunkerState, saves: Saves)
    requires NamesOwn(w)
    ensures NamesOwn(TransitionTo(w, s, saves).0)
  {
    hide VmName, SwitchName;
  }

  lemma BringUpNames(w: World, env: InitEnv)
    requires NamesOwn(w)
    ensures NamesOwn(BringUp(w, env).0)
  {
    hide VmName, SwitchName, DiskPath, OwnNamesOnly, KeyedRows, TransitionTo;
    TransitionNames(w, Initializing, env.saves);
    var (w1, a1) := Announce(w, env);
    if a1.Done? {
      var (w2, a2) := LoadBaseImage(w1, env);
      var (w3, _) := AllocateResources(w2, env);
      var w4 := w3.(b := w3.b.(baseline := WithBaseline(w3.b.baseline), createdAt := Some(env.now)));
      assert NamesOwn(w2) && NamesOwn(w3) && NamesOwn(w4);
      TransitionNames(w4, Ready, env.saves);
    }
  }

  lemma InitializeNames(w: World, env: InitEnv)
    requires NamesOwn(w)
    ensures NamesOwn(Initialize(w, env).0)
  {
    hide VmName, SwitchName, DiskPath, OwnNamesOnly, KeyedRows, TransitionTo, BringUp;
    BringUpNames(w, env);
    var (w1, _) := BringUp(w, env);
    TransitionNames(CleanUp(w1, env), Error, env.saves);
  }

  lemma ActivateNames(w: World, env: ActivateEnv)
    requires NamesOwn(w) && |w.b.layers| == LAYER_COUNT
    ensures NamesOwn(Activate(w, env).0)
  {
    hide VmName, SwitchName, OwnNamesOnly, KeyedRows, TransitionTo, LayersAfter;
    TransitionNames(w, Active, env.saves);
    TransitionNames(w, Error, env.saves);
    var w1 := TransitionTo(w, Active, env.saves).0;
    var w2 := Engage(w1, env).0;
    assert NamesOwn(w2);
    TransitionNames(w2, Error, env.saves);
  }

  lemma TerminateNames(w: World, env: TermEnv)
    requires NamesOwn(w)
    ensures NamesOwn(Terminate(w, env).0)
  {
    hide VmName, SwitchName, OwnNamesOnly, KeyedRows, TransitionTo, ReportOf, HostAfter;
    TransitionNames(w, Error, env.saves);
    TransitionNames(w, Terminating, env.saves);
    var w1 := TransitionTo(w, Terminating, env.saves).0;
    var w2 := w1.(b := Quiesced(w1.b));
    var w3 := w2.(b := w2.b.(terminatedAt := Some(env.now), sessionActive := false));
    TransitionNames(w3, Decontaminating, env.saves);
    var w4 := Wind(w, NameOr(w.b.vmName), env).0;
    assert NamesOwn(w2) && NamesOwn(w4);
    TransitionNames(w4, Error, env.saves);
    PurgeNames(w4, NameOr(w.b.vmName), env);
  }

  lemma PurgeNames(w: World, vm: string, env: TermEnv)
    requires NamesOwn(w)
    ensures NamesOwn(Purge(w, vm, env))
  {
    hide VmName, SwitchName, OwnNamesOnly, KeyedRows, TransitionTo, ReportOf, HostAfter;
    var report := ReportOf(w.b.baseline, vm, env.answers);
    var w1 := w.(b := w.b.(report := Some(report)), host := HostAfter(7, w.host, w.Id(), vm, env.answers));
    assert NamesOwn(w1);
    TransitionNames(w1, if report.success then BunkerState.Destroyed else Error, env.saves);
  }

  lemma QuarantineNames(w: World, saves: Saves)
    requires NamesOwn(w)
    ensures NamesOwn(ForceQuarantine(w, saves))
  {
    hide VmName, SwitchName, OwnNamesOnly, KeyedRows, TransitionTo;
    TransitionNames(w, Quarantine, saves);
  }

  lemma StepNames(w: World, op: Op)
    requires NamesOwn(w) && |w.b.layers| == LAYER_COUNT
    ensures NamesOwn(Step(w, op))
  {
    hide NamesOwn, Initialize, Activate, Terminate, ForceQuarantine;
    match op {
      case CallInitialize(env) => InitializeNames(w, env);
      case CallActivate(env) => ActivateNames(w, env);
      case CallTerminate(env) => TerminateNames(w, env);
      case CallQuarantine(saves) => QuarantineNames(w, saves);
    }
  }

  /** In every run the bunker and the rows it writes name only its own VM and switch. */
  lemma {:induction false} RunKeepsNames(w: World, ops: seq<Op>)
    requires NamesOwn(w) && |w.b.layers| == LAYER_COUNT
    ensures NamesOwn(Run(w, ops))
  {
    hide NamesOwn, Step;
    if ops != [] {
      RunKeepsNames(w, ops[..|ops| - 1]);
      StepNames(Run(w, ops[..|ops| - 1]), ops[|ops| - 1]);
    }
  }

  // ---- what the answers mean ----

  /** A READY bunker becomes ACTIVE exactly when every layer and both threads start. */
  lemma ActivateIff(w: World, env: ActivateEnv)
    requires w.b.state.Ready? && |w.b.layers| == LAYER_COUNT
    ensures Activate(w, env).1 == Returned(true) <==>
      FirstFailure(0, env.hook) == LAYER_COUNT && env.monitorStarts && env.metricsStart
  {
  }

  /**
    The layers after an activation of a READY bunker: all on when every hook succeeds, even if a thread then fails to
    start; otherwise off up to the failing one, the ones activated before it rolled back, and the later ones untouched.
   */
  lemma ActivateLayersAre(w: World, env: ActivateEnv)
    requires w.b.state.Ready? && |w.b.layers| == LAYER_COUNT
    ensures var layers, k := Activate(w, env).0.b.layers, FirstFailure(0, env.hook);
      && |layers| == LAYER_COUNT
      && (k == LAYER_COUNT ==> forall i :: 0 <= i < LAYER_COUNT ==> layers[i])
      && (k < LAYER_COUNT ==> forall i :: 0 <= i < LAYER_COUNT ==> layers[i] == (i > k && w.b.layers[i]))
  {
    hide TransitionTo;
  }

  /** So a bunker at rest whose activation fails at a layer has no active layer, and all five when only a thread failed. */
  lemma FailedActivationLayers(w: World, env: ActivateEnv)
    requires AtRest(w.b) && w.b.state.Ready? && Activate(w, env).1 != Returned(true)
    ensures Activate(w, env).0.b.state.Error?
    ensures (exists i: nat :: i < LAYER_COUNT && !env.hook(i).Yes?) ==>
      Activate(w, env).0.b.layers == [false, false, false, false, false]
    ensures (forall i: nat :: i < LAYER_COUNT ==> env.hook(i).Yes?) ==>
      Activate(w, env).0.b.layers == [true, true, true, true, true]
  {
    ActivateKeepsRest(w, env);
    ActivateLayersAre(w, env);
    hide Activate;
  }

  /** What else a failed activation leaves on: the monitor if its thread had started, the session if only the metrics failed. */
  lemma FailedActivationFlags(w: World, env: ActivateEnv)
    requires AtRest(w.b) && w.b.state.Ready? && Activate(w, env).1 != Returned(true)
    ensures Activate(w, env).0.b.monitoring <==> forall i: nat :: i < LAYER_COUNT ==> env.hook(i).Yes?
    ensures Activate(w, env).0.b.sessionActive <==>
      env.monitorStarts && forall i: nat :: i < LAYER_COUNT ==> env.hook(i).Yes?
    ensures Provisioned(Activate(w, env).0.b)
  {
    hide LayersAfter, VmName, SwitchName, FullBaseline;
  }

  /**
    A termination that a call cuts short before the steps: nothing on the host is removed, layers and monitor are off,
    and the session is only closed and stamped if it was the credentials that could not be revoked.
   */
  lemma StrandedTermination(w: World, env: TermEnv)
    requires w.b.state.Active? && StrandsTermination(NameOr(w.b.vmName), env)
    ensures var (after, exit) := Terminate(w, env);
      var early := NameOr(w.b.vmName) != "" && (env.checkpoint.Raises? || env.stop.Raises?);
      && exit == Returned(false) && after.host == w.host
      && after.b == w.b.(
           state := Error, monitoring := false, layers := NO_LAYERS,
           sessionActive := early && w.b.sessionActive,
           terminatedAt := if early then w.b.terminatedAt else Some(env.now))
      && (env.saves(Error).None? && !early && env.saves(Decontaminating).Some? ==>
            w.Id() in after.rows && after.rows[w.Id()].state == Named(Decontaminating))
  {
  }

  // ---- stamps ----

  /** A bunker that comes up carries the stamp of that call. */
  lemma InitializeStamps(w: World, env: InitEnv)
    requires Initialize(w, env).1 == Returned(true)
    ensures Initialize(w, env).0.b.createdAt == Some(env.now)
    ensures env.saves(Ready).Some? ==>
      w.Id() in Initialize(w, env).0.rows && Initialize(w, env).0.rows[w.Id()].createdAt == At(env.now)
  {
    hide VmName, SwitchName, DiskPath;
  }

  /** An ACTIVE bunker carries the stamp of its activation, but its row does not: the row was saved before. */
  lemma ActivateStamps(w: World, env: ActivateEnv)
    requires |w.b.layers| == LAYER_COUNT && Activate(w, env).1 == Returned(true)
    ensures Activate(w, env).0.b.activatedAt == Some(env.now)
    ensures env.saves(Active).Some? ==>
      w.Id() in Activate(w, env).0.rows && Activate(w, env).0.rows[w.Id()].activatedAt == StampOf(w.b.activatedAt)
  {
    hide LayersAfter;
  }

  /** A terminated bunker and its row carry the stamp of the termination, and the row now that of the activation. */
  lemma TerminateStamps(w: World, env: TermEnv)
    requires Terminate(w, env).1 == Returned(true)
    ensures Terminate(w, env).0.b.terminatedAt == Some(env.now)
    ensures env.saves(BunkerState.Destroyed).Some? ==>
      && w.Id() in Terminate(w, env).0.rows
      && Terminate(w, env).0.rows[w.Id()].terminatedAt == At(env.now)
      && Terminate(w, env).0.rows[w.Id()].activatedAt == StampOf(w.b.activatedAt)
  {
    hide ReportOf, HostAfter;
  }

  // ---- when a deadline cuts an initialisation short ----

  /** The first call that does not come finds the deadline spent, rather than failing. */
  predicate ComesLate(env: InitEnv) {
    || env.late(0)
    || (env.available.Yes?
        && (|| env.late(1)
            || (!env.mkSwitch.reply.Raises?
                && (|| env.late(2)
                    || (env.mkVm.reply.Yes?
                        && (env.late(3) || env.late(4) || (!env.integrate.Raises? && env.late(5))))))))
  }

  lemma InitializeLateIff(w: World, env: InitEnv)
    requires w.b.state.Destroyed?
    ensures Initialize(w, env).1 == DeadlineExceeded <==> ComesLate(env)
  {
    hide VmName, SwitchName, DiskPath;
  }

  lemma TrueMeansActive(w: World, env: ActivateEnv)
    requires |w.b.layers| == LAYER_COUNT && Activate(w, env).1 == Returned(true)
    ensures Activate(w, env).0.b.state.Active? && Activate(w, env).0.b.layers == ALL_LAYERS
  {
  }

  lemma TrueMeansDestroyed(w: World, env: TermEnv)
    requires |w.b.layers| == LAYER_COUNT && Terminate(w, env).1 == Returned(true)
    ensures Terminate(w, env).0.b.state.Destroyed?
  {
  }

  // ---- what initialize leaves on the host ----

  /** How far an initialisation of a fresh bunker gets, in terms of the host and the names it holds. */
  lemma BringUpFootprint(w: World, env: InitEnv)
    requires w.b.state.Destroyed?
    ensures var w1 := BringUp(w, env).0;
      var h1 := w.host.CreateSwitch(SwitchName(w.Id()), env.mkSwitch);
      var made := Announces(env) && ReachesVm(env);
      && w1.host == (if made then h1.CreateVm(VmName(w.Id()), w.Disk(), env.mkVm) else if Announces(env) then h1 else w.host)
      && w1.b.switchName == (if Announces(env) then Some(SwitchName(w.Id())) else w.b.switchName)
      && w1.b.vmName == (if made && env.mkVm.reply.Yes? then Some(VmName(w.Id())) else w.b.vmName)
  {
    hide VmName, SwitchName, DiskPath;
    var (w1, a1) := Announce(w, env);
    if a1.Done? {
      var (w2, a2) := LoadBaseImage(w1, env);
      assert w1.Id() == w.Id() && w2.Disk() == w.Disk();
    }
  }

  /** What an initialisation leaves of what it made: all of it when it completes, what its clean-up misses otherwise. */
  predicate InitLeavesVm(env: InitEnv) {
    Announces(env) && ReachesVm(env) && env.mkVm.done && (Comes(env) || !env.mkVm.reply.Yes? || !env.rmVm.done)
  }

  predicate InitLeavesSwitch(env: InitEnv) {
    Announces(env) && env.mkSwitch.done && (Comes(env) || !env.rmSwitch.done)
  }

  predicate InitLeavesDisk(env: InitEnv, confined: bool) {
    && Announces(env) && ReachesVm(env) && env.mkVm.disk
    && (Comes(env) || !((env.mkVm.reply.Yes? && env.rmVm.disk) || (confined && env.rmDisk.done)))
  }

  /** Nothing on the host has the names or the disk of the bunker. */
  predicate Unused(w: World) {
    VmName(w.Id()) !in w.host.vms && SwitchName(w.Id()) !in w.host.switches && w.Disk() !in w.host.files
  }

  /** The host after an initialisation of a fresh bunker, for all answers. */
  lemma InitializeFootprint(w: World, env: InitEnv)
    requires w.b.state.Destroyed? && w.b.vmName == w.b.switchName == None && Unused(w)
    ensures var v := Initialize(w, env).0;
      && v.host == w.host.(
           vms := Adding(w.host.vms, InitLeavesVm(env), VmName(w.Id())),
           switches := Adding(w.host.switches, InitLeavesSwitch(env), SwitchName(w.Id())),
           files := Adding(w.host.files, InitLeavesDisk(env, Confined(w.host.snapshots, w.Disk())), w.Disk()))
      && NameOr(v.b.vmName) == (if Comes(env) then VmName(w.Id()) else "")
      && NameOr(v.b.switchName) == (if Comes(env) then SwitchName(w.Id()) else "")
  {
    hide VmName, SwitchName, DiskPath, Confined, BringUp;
    BringUpFootprint(w, env);
    var (w1, a) := BringUp(w, env);
    assert w1.Id() == w.Id() && w1.Disk() == w.Disk();
    if !a.Done? {
      var w2 := CleanUp(w1, env);
      assert Initialize(w, env).0.host == w2.host;
    }
  }

  // ---- what terminate's answer means ----

  /** terminate() answers True exactly when it ends in DESTROYED, which takes a full run and every baseline. */
  lemma TerminateTrueIff(w: World, env: TermEnv)
    ensures var (after, exit) := Terminate(w, env);
      && (exit == Returned(true) <==> w.b.state.Active? && after.b.state.Destroyed?)
      && (exit == Returned(true) <==>
            && w.b.state.Active?
            && !StrandsTermination(NameOr(w.b.vmName), env)
            && AllStepsPass(NameOr(w.b.vmName), env.answers)
            && FullBaseline(w.b.baseline))
  {
    WarningsMatchFailures(7, NameOr(w.b.vmName), env.answers);
  }

  /**
    What a True answer takes, answer by answer: the VM is off, the disk, the switch and the VM are removed, the host is
    intact, no call before the steps raised and every baseline holds.
   */
  lemma TerminateNeeds(w: World, env: TermEnv)
    ensures Terminate(w, env).1 == Returned(true) <==>
      && w.b.state.Active? && FullBaseline(w.b.baseline) && !env.secret.Raises?
      && env.answers(2).reply.Yes? && env.answers(3).reply.Yes? && env.answers(5).reply.Yes?
      && (NameOr(w.b.vmName) != "" ==>
            && !env.checkpoint.Raises? && !env.stop.Raises?
            && env.answers(0).reply.Yes? && env.answers(4).reply.Yes?)
  {
    TerminateTrueIff(w, env);
    hide Terminate;
    SevenSteps(NameOr(w.b.vmName), env.answers);
  }

  lemma SevenSteps(vm: string, answers: StepAnswers)
    ensures AllStepsPass(vm, answers) <==>
      && (vm != "" ==> answers(0).reply.Yes? && answers(4).reply.Yes?)
      && answers(2).reply.Yes? && answers(3).reply.Yes? && answers(5).reply.Yes?
  {
    if AllStepsPass(vm, answers) {
      assert forall i: nat :: i < 7 ==> StepReply(i, vm, answers).Yes?;
      assert StepReply(0, vm, answers).Yes? && StepReply(2, vm, answers).Yes? && StepReply(3, vm, answers).Yes?;
      assert StepReply(4, vm, answers).Yes? && StepReply(5, vm, answers).Yes?;
    }
  }

  /** A bunker rebuilt from the store has no baselines, so terminate() never answers True for it. */
  lemma RestoredNeverTerminates(w: World, env: TermEnv)
    requires w.b.baseline == map[] && |w.b.layers| == LAYER_COUNT
    ensures Terminate(w, env).1 != Returned(true)
  {
    EveryComponentIsCritical(BaseImage);
  }

  /** A True answer means the resources are gone, if the backend never claims a removal it did not make. */
  lemma TerminateTrueCleans(w: World, env: TermEnv)
    requires AtRest(w.b)
    requires forall i :: 2 <= i <= 4 && env.answers(i).reply.Yes? ==> env.answers(i).done
    requires Terminate(w, env).1 == Returned(true)
    ensures var h := Terminate(w, env).0.host;
      h == w.host.(vms := w.host.vms - {VmName(w.Id())},
                   switches := w.host.switches - {SwitchName(w.Id())},
                   files := w.host.files - {w.Disk()})
  {
    TerminateTrueIff(w, env);
    StepsClean(w.host, w.Id(), NameOr(w.b.vmName), env.answers);
    assert StepReply(2, NameOr(w.b.vmName), env.answers).Yes?;
    assert StepReply(3, NameOr(w.b.vmName), env.answers).Yes?;
    assert StepReply(4, NameOr(w.b.vmName), env.answers).Yes?;
  }

  // ---- the transition table ----

  /** The states a sequence of requested transitions goes through; refused and repeated requests add nothing. */
  function Trace(w: World, targets: seq<BunkerState>, saves: Saves): (path: seq<BunkerState>)
    ensures |path| > 0
  {
    if targets == [] then [w.b.state]
    else
      var init := targets[..|targets| - 1];
      var (_, move) := TransitionTo(After(w, init, saves), targets[|targets| - 1], saves);
      Trace(w, init, saves) + if move.Moved? then [targets[|targets| - 1]] else []
  }

  function After(w: World, targets: seq<BunkerState>, saves: Saves): World {
    if targets == [] then w
    else TransitionTo(After(w, targets[..|targets| - 1], saves), targets[|targets| - 1], saves).0
  }

  lemma {:induction false} TraceFollowsTable(w: World, targets: seq<BunkerState>, saves: Saves)
    ensures var path := Trace(w, targets, saves);
      && path[0] == w.b.state
      && path[|path| - 1] == After(w, targets, saves).b.state
      && forall i :: 0 < i < |path| ==> path[i] in Successors(path[i - 1])
  {
    if targets != [] {
      TraceFollowsTable(w, targets[..|targets| - 1], saves);
    }
  }

  /** From DESTROYED, ACTIVE is only ever entered through DESTROYED, INITIALIZING, READY. */
  lemma ActiveOnlyAfterReady(w: World, targets: seq<BunkerState>, saves: Saves, i: nat)
    requires w.b.state.Destroyed?
    requires i < |Trace(w, targets, saves)| && Trace(w, targets, saves)[i].Active?
    ensures var path := Trace(w, targets, saves);
      i >= 3 && path[i - 3..i] == [BunkerState.Destroyed, Initializing, Ready]
  {
    TraceFollowsTable(w, targets, saves);
    var path := Trace(w, targets, saves);
    assert i > 0 && path[i] in Successors(path[i - 1]);
    assert i > 1 && path[i - 1] in Successors(path[i - 2]);
    assert i > 2 && path[i - 2] in Successors(path[i - 3]);
    assert path[i - 3..i] == [path[i - 3], path[i - 2], path[i - 1]];
  }
}
