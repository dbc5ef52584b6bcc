// The bunker, updated in place: every method is proved against its function in
// module Lifecycle.
module BunkerClass {
  import opened Basics
  import opened Host
  import opened Store
  import opened Monitoring
  import opened Decontamination
  import opened Lifecycle

  class Bunker {
    const config: Config
    const signingKey: string
    const host: Backend
    const store: StateStore
    const verifier: IntegrityVerifier

    var state: BunkerState
    var vmName: Option<string>
    var switchName: Option<string>
    var layers: seq<bool>
    var monitoring: bool
    var sessionActive: bool
    var createdAt: Option<real>
    var activatedAt: Option<real>
    var terminatedAt: Option<real>
    var report: Option<Report>

    ghost function Data(): BunkerData
      reads this, verifier
    {
      BunkerData(config, state, vmName, switchName, layers, monitoring, sessionActive, verifier.baseline,
                 createdAt, activatedAt, terminatedAt, signingKey, report)
    }

    ghost function View(): World
      reads this, verifier, host, store
    {
      World(Data(), host.Data(), store.rows)
    }

    constructor (config: Config, signingKey: string, host: Backend, store: StateStore)
      ensures Data() == FreshBunker(config, signingKey)
      ensures this.host == host && this.store == store && fresh(verifier)
    {
      this.config, this.signingKey, this.host, this.store := config, signingKey, host, store;
      this.verifier := new IntegrityVerifier();
      state, vmName, switchName, layers := BunkerState.Destroyed, None, None, NO_LAYERS;
      monitoring, sessionActive, report := false, false, None;
      createdAt, activatedAt, terminatedAt := None, None, None;
    }

    method PersistState(saves: Saves)
      modifies store
      ensures View() == Persisted(old(View()), saves)
    {
      match saves(state) {
        case None =>
        case Some(stamp) =>
          var row := Row(config, {}, Named(state), vmName, switchName, signingKey,
                         StampOf(createdAt), StampOf(activatedAt), StampOf(terminatedAt), At(stamp));
          store.Save(config.id, row);
      }
    }

    method EnterState(s: BunkerState, saves: Saves) returns (move: Move)
      modifies this`state, store
      ensures (View(), move) == TransitionTo(old(View()), s, saves)
    {
      if s == state { return Same; }
      if s !in Successors(state) { return Refused; }
      state := s;
      PersistState(saves);
      return Moved;
    }

    method TryAnnounce(env: InitEnv) returns (a: Attempt)
      modifies this`state, store
      ensures (View(), a) == Announce(old(View()), env)
    {
      var move := EnterState(Initializing, env.saves);
      if move.Refused? { return Fault; }
      if env.late(0) { return Late; }
      if !env.available.Yes? { return Fault; }
      return if env.late(1) then Late else Done;
    }

    method TryLoadBaseImage(env: InitEnv) returns (a: Attempt)
      modifies this`switchName, host
      ensures (View(), a) == LoadBaseImage(old(View()), env)
    {
      switchName := Some(SwitchName(config.id));
      var r := host.CreateSwitch(SwitchName(config.id), env.mkSwitch);
      if r.Raises? { return Fault; }
      return if env.late(2) then Late else Done;
    }

    method TryAllocateResources(env: InitEnv) returns (a: Attempt)
      modifies this`vmName, host
      ensures (View(), a) == AllocateResources(old(View()), env)
    {
      var r := host.CreateVm(VmName(config.id), DiskPath(host.snapshots, config.id), env.mkVm);
      if !r.Yes? { return Fault; }
      vmName := Some(VmName(config.id));
      return if env.late(3) then Late else Done;
    }

    method SetBaselines()
      modifies verifier`baseline
      ensures verifier.baseline == WithBaseline(old(verifier.baseline))
    {
      for i := 0 to |CRITICAL_COMPONENTS|
        invariant forall c :: c in verifier.baseline <==> c in old(verifier.baseline) || c in CRITICAL_COMPONENTS[..i]
        invariant forall c :: c in verifier.baseline ==>
          verifier.baseline[c] == if c in CRITICAL_COMPONENTS[..i] then OfComponent(c) else old(verifier.baseline)[c]
      {
        var component := CRITICAL_COMPONENTS[i];
        ghost var before, after := CRITICAL_COMPONENTS[..i], CRITICAL_COMPONENTS[..i + 1];
        assert after == before + [component];
        assert forall c :: c in after <==> c in before || c == component;
        verifier.SetBaseline(component, OfComponent(component));
      }
      assert CRITICAL_COMPONENTS[..|CRITICAL_COMPONENTS|] == CRITICAL_COMPONENTS;
      forall c: Component ensures c in CRITICAL_COMPONENTS { EveryComponentIsCritical(c); }
    }

    method TryPrepare(env: InitEnv) returns (a: Attempt)
      modifies this, store, verifier`baseline
      ensures (View(), a) == Prepare(old(View()), env)
    {
      SetBaselines();
      if env.late(4) { return Late; }
      if env.integrate.Raises? { return Fault; }
      if env.late(5) { return Late; }
      if env.secret.Raises? { return Fault; }
      createdAt := Some(env.now);
      var move := EnterState(Ready, env.saves);
      return if move.Refused? then Fault else Done;
    }

    method TryBringUp(env: InitEnv) returns (a: Attempt)
      modifies this, host, store, verifier`baseline
      ensures (View(), a) == BringUp(old(View()), env)
    {
      a := TryAnnounce(env);
      if a.Done? { a := TryLoadBaseImage(env); } else { return; }
      if a.Done? { a := TryAllocateResources(env); } else { return; }
      if a.Done? { a := TryPrepare(env); }
    }

    method CleanUpOnFailure(env: InitEnv)
      modifies this`vmName, this`switchName, host
      ensures View() == CleanUp(old(View()), env)
    {
      var disk := DiskPath(host.snapshots, config.id);
      if NameOr(vmName) != "" {
        var _ := host.RemoveVm(vmName.value, disk, env.rmVm);
        vmName := None;
      }
      if NameOr(switchName) != "" {
        var _ := host.RemoveSwitch(switchName.value, env.rmSwitch);
        switchName := None;
      }
      if Confined(host.snapshots, disk) && disk in host.files {
        var _ := host.DeleteFile(disk, env.rmDisk);
      }
    }

    method Initialize(env: InitEnv) returns (exit: Exit)
      modifies this, host, store, verifier`baseline
      ensures (View(), exit) == Lifecycle.Initialize(old(View()), env)
    {
      var a := TryBringUp(env);
      if a.Done? { return Returned(true); }
      CleanUpOnFailure(env);
      var _ := EnterState(Error, env.saves);
      return if a.Late? then DeadlineExceeded else Returned(false);
    }

    /** Turns the layers on in order; when one fails, the ones before it are turned off again. */
    method ActivateLayers(hook: nat -> Reply) returns (ok: bool)
      requires |layers| == LAYER_COUNT
      modifies this`layers
      ensures layers == LayersAfter(old(layers), hook)
      ensures ok <==> FirstFailure(0, hook) == LAYER_COUNT
    {
      hide LayersAfter;
      for i := 0 to LAYER_COUNT
        invariant |layers| == LAYER_COUNT
        invariant forall j :: 0 <= j < i ==> layers[j]
        invariant forall j :: i <= j < LAYER_COUNT ==> layers[j] == old(layers)[j]
        invariant FirstFailure(i, hook) == FirstFailure(0, hook)
      {
        layers := layers[i := hook(i).Yes?];
        if !layers[i] {
          for j := 0 to i
            invariant |layers| == LAYER_COUNT && !layers[i]
            invariant forall k :: 0 <= k < j ==> !layers[k]
            invariant forall k :: i < k < LAYER_COUNT ==> layers[k] == old(layers)[k]
          {
            layers := layers[j := false];
          }
          LayersAfterAre(layers, old(layers), hook);
          return false;
        }
      }
      LayersAfterAre(layers, old(layers), hook);
      return true;
    }

    method Fail(saves: Saves) returns (exit: Exit)
      modifies this`state, store
      ensures (View(), exit) == FailToError(old(View()), saves)
    {
      var move := EnterState(Error, saves);
      return if move.Refused? then InvalidTransition else Returned(false);
    }

    method TryEngage(env: ActivateEnv) returns (a: Attempt)
      requires |layers| == LAYER_COUNT
      modifies this
      ensures (View(), a) == Engage(old(View()), env)
    {
      var ok := ActivateLayers(env.hook);
      if !ok { return Fault; }
      monitoring := true;
      if !env.monitorStarts { return Fault; }
      activatedAt, sessionActive := Some(env.now), true;
      return if env.metricsStart then Done else Fault;
    }

    method Activate(env: ActivateEnv) returns (exit: Exit)
      requires |layers| == LAYER_COUNT
      modifies this, store
      ensures (View(), exit) == Lifecycle.Activate(old(View()), env)
    {
      if !state.Ready? { exit := Fail(env.saves); return; }
      var _ := EnterState(Active, env.saves);
      var a := TryEngage(env);
      if a.Done? { return Returned(true); }
      exit := Fail(env.saves);
    }

    method DeactivateLayers()
      requires |layers| == LAYER_COUNT
      modifies this`layers
      ensures layers == NO_LAYERS
    {
      for i := 0 to LAYER_COUNT
        invariant |layers| == LAYER_COUNT && forall j :: 0 <= j < i ==> !layers[j]
      {
        if layers[i] { layers := layers[i := false]; }
      }
    }

    /** Stops the monitor and turns every layer off. */
    method Quiesce()
      requires |layers| == LAYER_COUNT
      modifies this`monitoring, this`layers
      ensures Data() == Quiesced(old(Data()))
    {
      monitoring := false;
      DeactivateLayers();
    }

    method TryWind(vm: string, env: TermEnv) returns (a: Attempt)
      requires |layers| == LAYER_COUNT
      modifies this, store
      ensures (View(), a) == Wind(old(View()), vm, env)
    {
      hide TransitionTo, Quiesced;
      var _ := EnterState(Terminating, env.saves);
      Quiesce();
      if vm != "" && env.checkpoint.Raises? { return Fault; }
      if vm != "" && env.stop.Raises? { return Fault; }
      terminatedAt, sessionActive := Some(env.now), false;
      var _ := EnterState(Decontaminating, env.saves);
      return if env.secret.Raises? then Fault else Done;
    }

    method RunPurge(vm: string, env: TermEnv) returns (success: bool)
      modifies this, host, store, verifier`history
      ensures View() == Purge(old(View()), vm, env)
      ensures success == ReportOf(old(verifier.baseline), vm, env.answers).success
    {
      var runner := new DecontaminationRunner(config.id, vm, host, verifier);
      var result := runner.Run(env.answers);
      WarningsMatchFailures(7, vm, env.answers);
      MatchesCurrentIffFull(verifier.baseline);
      assert result == ReportOf(verifier.baseline, vm, env.answers);
      report := Some(result);
      success := result.success;
      var _ := EnterState(if success then BunkerState.Destroyed else Error, env.saves);
    }

    method Terminate(env: TermEnv) returns (exit: Exit)
      requires |layers| == LAYER_COUNT
      modifies this, host, store, verifier`history
      ensures (View(), exit) == Lifecycle.Terminate(old(View()), env)
    {
      if !state.Active? { exit := Fail(env.saves); return; }
      var vm := NameOr(vmName);
      var a := TryWind(vm, env);
      if a.Fault? { exit := Fail(env.saves); return; }
      var success := RunPurge(vm, env);
      return Returned(success);
    }

    method ForceQuarantine(saves: Saves)
      modifies this, store
      ensures View() == Lifecycle.ForceQuarantine(old(View()), saves)
    {
      var move := EnterState(Quarantine, saves);
      if !move.Refused? { monitoring := false; }
    }
  }
}
