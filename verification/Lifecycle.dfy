// What each lifecycle operation makes of the bunker, the host and the store, as
// functions on a World. Module BunkerClass proves the in-place methods against them.
module Lifecycle {
  import opened Basics
  import opened Host
  import opened Store
  import opened Monitoring
  import opened Decontamination

  const LAYER_COUNT := 5

  const NO_LAYERS := [false, false, false, false, false]
  const ALL_LAYERS := [true, true, true, true, true]

  datatype BunkerData = BunkerData(
    config: Config, state: BunkerState, vmName: Option<string>, switchName: Option<string>,
    layers: seq<bool>, monitoring: bool, sessionActive: bool, baseline: Hashes,
    createdAt: Option<real>, activatedAt: Option<real>, terminatedAt: Option<real>,
    signingKey: string, report: Option<Report>)

  /** One bunker together with everything its operations can reach. */
  datatype World = World(b: BunkerData, host: HostData, rows: Rows) {
    function Id(): string { b.config.id }

    function Disk(): Path { DiskPath(host.snapshots, Id()) }
  }

  function FreshBunker(config: Config, signingKey: string): BunkerData {
    BunkerData(config, BunkerState.Destroyed, None, None, NO_LAYERS, false, false, map[], None, None, None, signingKey, None)
  }

  function RowOf(b: BunkerData, stamp: real): Row {
    Row(b.config, {}, Named(b.state), b.vmName, b.switchName, b.signingKey,
        StampOf(b.createdAt), StampOf(b.activatedAt), StampOf(b.terminatedAt), At(stamp))
  }

  /** A resource name that is set and not empty. */
  function NameOr(name: Option<string>): string {
    if name.Some? then name.value else ""
  }

  /** Every row names no VM and switch but those derived from its own id. */
  ghost predicate OwnNamesOnly(rows: Rows) {
    forall id :: id in rows ==>
      NameOr(rows[id].vmName) in {"", VmName(id)} && NameOr(rows[id].switchName) in {"", SwitchName(id)}
  }

  /** Every row is stored under the id of its own configuration. */
  ghost predicate KeyedRows(rows: Rows) {
    forall id :: id in rows ==> rows[id].config.id == id
  }

  // ---- transitions ----

  /** For each state entered: the stamp it was saved with, or None when the save failed. */
  type Saves = BunkerState -> Option<real>

  datatype Move = Moved | Same | Refused

  /** The two worlds agree on every row but the bunker's own. */
  ghost predicate SameOtherRows(v: World, w: World) {
    w.rows - {v.Id()} == v.rows - {v.Id()}
  }

  function Persisted(w: World, saves: Saves): (r: World)
    ensures r.b == w.b && r.host == w.host && SameOtherRows(w, r)
  {
    match saves(w.b.state)
    case None => w
    case Some(stamp) => w.(rows := w.rows[w.Id() := RowOf(w.b, stamp)])
  }

  function TransitionTo(w: World, s: BunkerState, saves: Saves): (r: (World, Move))
    ensures r.0.b == w.b.(state := r.0.b.state) && r.0.host == w.host && SameOtherRows(w, r.0)
    ensures r.1.Refused? <==> s != w.b.state && s !in Successors(w.b.state)
    ensures if r.1.Moved? then r.0.b.state == s != w.b.state else r.0 == w
  {
    if s == w.b.state then (w, Same)
    else if s !in Successors(w.b.state) then (w, Refused)
    else (Persisted(w.(b := w.b.(state := s)), saves), Moved)
  }

  // ---- initialize ----

  /** What happens during one initialisation; `late(k)` says the deadline is spent at the k-th check. */
  datatype InitEnv = InitEnv(
    late: nat -> bool, available: Reply, mkSwitch: Answer, mkVm: Answer, integrate: Reply, secret: Reply,
    now: real, saves: Saves, rmVm: Answer, rmSwitch: Answer, rmDisk: Answer)

  function NeverLate(check: nat): bool { false }

  /** The same calls without a deadline. */
  function Unhurried(env: InitEnv): InitEnv { env.(late := NeverLate) }

  datatype Attempt = Done | Fault | Late

  /** Enters INITIALIZING and probes the hypervisor. */
  function Announce(w: World, env: InitEnv): (r: (World, Attempt))
    ensures r.0 == w || (r.0.b == w.b.(state := Initializing) && r.0.host == w.host)
    ensures r.1.Done? ==> r.0.b.state.Initializing? && Announces(env) && (w.b.state.Destroyed? || w.b.state.Initializing?)
    ensures w.b.state.Destroyed? ==> r.0.b.state.Initializing? && (r.1.Done? <==> Announces(env))
  {
    var (w1, move) := TransitionTo(w, Initializing, env.saves);
    if move.Refused? then (w1, Fault)
    else if env.late(0) then (w1, Late)
    else if !env.available.Yes? then (w1, Fault)
    else if env.late(1) then (w1, Late)
    else (w1, Done)
  }

  predicate Announces(env: InitEnv) { !env.late(0) && env.available.Yes? && !env.late(1) }

  /** Names and creates the switch; its answer is ignored unless the call raises. */
  function LoadBaseImage(w: World, env: InitEnv): (r: (World, Attempt))
    ensures r.0.b == w.b.(switchName := Some(SwitchName(w.Id())))
    ensures r.0.host == w.host.CreateSwitch(SwitchName(w.Id()), env.mkSwitch)
    ensures r.1.Done? <==> ReachesVm(env)
  {
    var sw := SwitchName(w.Id());
    var w1 := w.(b := w.b.(switchName := Some(sw)), host := w.host.CreateSwitch(sw, env.mkSwitch));
    (w1, if env.mkSwitch.reply.Raises? then Fault else if env.late(2) then Late else Done)
  }

  predicate ReachesVm(env: InitEnv) { !env.mkSwitch.reply.Raises? && !env.late(2) }

  /** Creates the VM; it gets its name only when the call reports success. */
  function AllocateResources(w: World, env: InitEnv): (r: (World, Attempt))
    ensures r.0.b == w.b.(vmName := if env.mkVm.reply.Yes? then Some(VmName(w.Id())) else w.b.vmName)
    ensures r.0.host == w.host.CreateVm(VmName(w.Id()), w.Disk(), env.mkVm)
    ensures r.1 == if !env.mkVm.reply.Yes? then Fault else if env.late(3) then Late else Done
  {
    var vm := VmName(w.Id());
    var w1 := w.(host := w.host.CreateVm(vm, w.Disk(), env.mkVm));
    if !env.mkVm.reply.Yes? then (w1, Fault)
    else (w1.(b := w1.b.(vmName := Some(vm))), if env.late(3) then Late else Done)
  }

  /** The baseline set for every critical component, whatever was there before. */
  function WithBaseline(baseline: Hashes): Hashes {
    baseline + CurrentHashes()
  }

  /** Every call of an initialisation succeeds in time. */
  predicate Comes(env: InitEnv) {
    Announces(env) && ReachesVm(env) && env.mkVm.reply.Yes? && !env.late(3) && Prepares(env)
  }

  predicate Prepares(env: InitEnv) {
    !env.late(4) && !env.integrate.Raises? && !env.late(5) && !env.secret.Raises?
  }

  /** Records the baselines, enables guest integration, passes the credentials on and enters READY. */
  function Prepare(w: World, env: InitEnv): (r: (World, Attempt))
    ensures r.0.host == w.host
    ensures r.0.b == w.b.(state := r.0.b.state, baseline := WithBaseline(w.b.baseline), createdAt := r.0.b.createdAt)
    ensures w.b.state.Initializing? ==> r.0.b.state == (if Prepares(env) then Ready else Initializing)
    ensures w.b.state.Initializing? ==> (r.1.Done? <==> Prepares(env))
  {
    var w1 := w.(b := w.b.(baseline := WithBaseline(w.b.baseline)));
    if env.late(4) then (w1, Late)
    else if env.integrate.Raises? then (w1, Fault)
    else if env.late(5) then (w1, Late)
    else if env.secret.Raises? then (w1, Fault)
    else
      var (w2, move) := TransitionTo(w1.(b := w1.b.(createdAt := Some(env.now))), Ready, env.saves);
      (w2, if move.Refused? then Fault else Done)
  }

  /** `b` and `c` differ at most in what an initialisation may change. */
  predicate SameSession(b: BunkerData, c: BunkerData) {
    c == b.(state := c.state, vmName := c.vmName, switchName := c.switchName, baseline := c.baseline, createdAt := c.createdAt)
  }

  function BringUp(w: World, env: InitEnv): (r: (World, Attempt))
    ensures SameSession(w.b, r.0.b)
    ensures r.1.Done? ==>
      && r.0.b.state.Ready? && r.0.b.baseline == WithBaseline(w.b.baseline)
      && r.0.b.vmName == Some(VmName(w.Id())) && r.0.b.switchName == Some(SwitchName(w.Id()))
    ensures !r.1.Done? ==> r.0.b.state == w.b.state || r.0.b.state.Initializing?
    ensures w.b.state.Destroyed? ==> (r.1.Done? <==> Comes(env)) && !r.0.b.state.Destroyed?
    ensures !w.b.state.Destroyed? && !w.b.state.Initializing? ==> r == (w, Fault)
  {
    var (w1, a1) := Announce(w, env);
    if !a1.Done? then (w1, a1)
    else
      var (w2, a2) := LoadBaseImage(w1, env);
      if !a2.Done? then (w2, a2)
      else
        var (w3, a3) := AllocateResources(w2, env);
        if a3.Done? then Prepare(w3, env) else (w3, a3)
  }

  /** Removes what a failed initialisation created; names are forgotten even when a removal fails. */
  function CleanUp(w: World, env: InitEnv): (r: World)
    ensures r.b == w.b.(vmName := r.b.vmName, switchName := r.b.switchName)
    ensures NameOr(r.b.vmName) == NameOr(r.b.switchName) == ""
    ensures r.rows == w.rows && r.host.snapshots == w.host.snapshots
  {
    var w1 :=
      if NameOr(w.b.vmName) == "" then w
      else w.(b := w.b.(vmName := None), host := w.host.RemoveVm(w.b.vmName.value, w.Disk(), env.rmVm));
    var w2 :=
      if NameOr(w1.b.switchName) == "" then w1
      else w1.(b := w1.b.(switchName := None), host := w1.host.RemoveSwitch(w1.b.switchName.value, env.rmSwitch));
    if Confined(w2.host.snapshots, w2.Disk()) && w2.Disk() in w2.host.files
    then w2.(host := w2.host.DeleteFile(w2.Disk(), env.rmDisk))
    else w2
  }

  /** How an operation ends for its caller. */
  datatype Exit = Returned(ok: bool) | InvalidTransition | DeadlineExceeded

  function Initialize(w: World, env: InitEnv): (r: (World, Exit))
    ensures SameSession(w.b, r.0.b)
    ensures r.1 == Returned(true) ==>
      && r.0.b.state.Ready? && r.0.b.baseline == WithBaseline(w.b.baseline)
      && r.0.b.vmName == Some(VmName(w.Id())) && r.0.b.switchName == Some(SwitchName(w.Id()))
    ensures r.1 != Returned(true) ==> r.0.b.state.Error?
    ensures w.b.state.Destroyed? ==> (r.1 == Returned(true) <==> Comes(env))
    ensures !w.b.state.Destroyed? && !w.b.state.Initializing? ==> r.1 == Returned(false)
  {
    var (w1, a) := BringUp(w, env);
    if a.Done? then (w1, Returned(true))
    else (TransitionTo(CleanUp(w1, env), Error, env.saves).0, if a.Late? then DeadlineExceeded else Returned(false))
  }

  // ---- activate ----

  datatype ActivateEnv = ActivateEnv(
    hook: nat -> Reply, monitorStarts: bool, metricsStart: bool, now: real, saves: Saves)

  /** The first layer from `i` on whose hook does not report success. */
  function FirstFailure(i: nat, hook: nat -> Reply): (k: nat)
    requires i <= LAYER_COUNT
    ensures i <= k <= LAYER_COUNT
    ensures forall j: nat :: i <= j < k ==> hook(j).Yes?
    ensures k < LAYER_COUNT ==> !hook(k).Yes?
    decreases LAYER_COUNT - i
  {
    if i == LAYER_COUNT || !hook(i).Yes? then i else FirstFailure(i + 1, hook)
  }

  /** All layers on, or the ones up to the failing layer off again and the later ones untouched. */
  function LayersAfter(layers: seq<bool>, hook: nat -> Reply): seq<bool>
    requires |layers| == LAYER_COUNT
  {
    var k := FirstFailure(0, hook);
    if k == LAYER_COUNT then ALL_LAYERS else seq(k + 1, _ => false) + layers[k + 1..]
  }

  lemma LayersAfterAre(layers: seq<bool>, before: seq<bool>, hook: nat -> Reply)
    requires |layers| == |before| == LAYER_COUNT
    requires var k := FirstFailure(0, hook);
      if k == LAYER_COUNT then forall i :: 0 <= i < LAYER_COUNT ==> layers[i]
      else (forall i :: 0 <= i <= k ==> !layers[i]) && (forall i :: k < i < LAYER_COUNT ==> layers[i] == before[i])
    ensures layers == LayersAfter(before, hook)
  {
    hide FirstFailure;
  }

  /** The handler shared by activate and terminate: move to ERROR, or raise when that is invalid. */
  function FailToError(w: World, saves: Saves): (r: (World, Exit))
    ensures r.0.b == w.b.(state := r.0.b.state) && r.0.host == w.host
    ensures if w.b.state.Destroyed? then r == (w, InvalidTransition) else r.0.b.state.Error? && r.1 == Returned(false)
  {
    var (w1, move) := TransitionTo(w, Error, saves);
    (w1, if move.Refused? then InvalidTransition else Returned(false))
  }

  /** Everything after entering ACTIVE; Fault means a layer or a thread did not start. */
  function Engage(w: World, env: ActivateEnv): (r: (World, Attempt))
    requires |w.b.layers| == LAYER_COUNT
    ensures |r.0.b.layers| == LAYER_COUNT && r.0.b.state == w.b.state && r.0.b.config == w.b.config && r.0.host == w.host
  {
    var w1 := w.(b := w.b.(layers := LayersAfter(w.b.layers, env.hook)));
    if FirstFailure(0, env.hook) < LAYER_COUNT then (w1, Fault)
    else
      var w2 := w1.(b := w1.b.(monitoring := true));
      if !env.monitorStarts then (w2, Fault)
      else
        var w3 := w2.(b := w2.b.(activatedAt := Some(env.now), sessionActive := true));
        (w3, if env.metricsStart then Done else Fault)
  }

  function Activate(w: World, env: ActivateEnv): (r: (World, Exit))
    requires |w.b.layers| == LAYER_COUNT
    ensures |r.0.b.layers| == LAYER_COUNT && r.0.b.config == w.b.config && r.0.host == w.host
  {
    if !w.b.state.Ready? then FailToError(w, env.saves)
    else
      var (w1, a) := Engage(TransitionTo(w, Active, env.saves).0, env);
      if a.Done? then (w1, Returned(true)) else FailToError(w1, env.saves)
  }

  // ---- terminate ----

  datatype TermEnv = TermEnv(
    checkpoint: Reply, stop: Reply, secret: Reply, now: real, answers: StepAnswers, saves: Saves)

  /** A call between leaving ACTIVE and the decontamination steps raises, so that they never run. */
  predicate StrandsTermination(vm: string, env: TermEnv) {
    (vm != "" && (env.checkpoint.Raises? || env.stop.Raises?)) || env.secret.Raises?
  }

  function Quiesced(b: BunkerData): BunkerData {
    b.(monitoring := false, layers := NO_LAYERS)
  }

  /** The part of termination before the decontamination steps; Fault means a call raised. */
  function Wind(w: World, vm: string, env: TermEnv): (r: (World, Attempt))
    ensures r.0.host == w.host
    ensures r.0.b == Quiesced(w.b).(
      state := r.0.b.state, terminatedAt := r.0.b.terminatedAt, sessionActive := r.0.b.sessionActive)
    ensures !r.1.Late? && (r.1.Done? <==> !StrandsTermination(vm, env))
    ensures w.b.state.Active? ==> r.0.b.state.Terminating? || r.0.b.state.Decontaminating?
    ensures w.b.state.Active? && r.1.Done? ==> r.0.b.state.Decontaminating? && !r.0.b.sessionActive
  {
    var w1 := TransitionTo(w, Terminating, env.saves).0;
    var w2 := w1.(b := Quiesced(w1.b));
    if vm != "" && (env.checkpoint.Raises? || env.stop.Raises?) then (w2, Fault)
    else
      var w3 := w2.(b := w2.b.(terminatedAt := Some(env.now), sessionActive := false));
      (TransitionTo(w3, Decontaminating, env.saves).0, if env.secret.Raises? then Fault else Done)
  }

  function Purge(w: World, vm: string, env: TermEnv): (r: World)
    ensures r.host == HostAfter(7, w.host, w.Id(), vm, env.answers)
    ensures r.b == w.b.(state := r.b.state, report := Some(ReportOf(w.b.baseline, vm, env.answers)))
    ensures w.b.state.Decontaminating? ==>
      r.b.state == if ReportOf(w.b.baseline, vm, env.answers).success then BunkerState.Destroyed else Error
  {
    var report := ReportOf(w.b.baseline, vm, env.answers);
    var w1 := w.(b := w.b.(report := Some(report)), host := HostAfter(7, w.host, w.Id(), vm, env.answers));
    TransitionTo(w1, if report.success then BunkerState.Destroyed else Error, env.saves).0
  }

  function Terminate(w: World, env: TermEnv): (r: (World, Exit))
    ensures r.0.b.config == w.b.config && r.1 != DeadlineExceeded
    ensures r.0.b.layers == if w.b.state.Active? then NO_LAYERS else w.b.layers
  {
    var vm := NameOr(w.b.vmName);
    if !w.b.state.Active? then FailToError(w, env.saves)
    else
      var (w1, a) := Wind(w, vm, env);
      if a.Fault? then FailToError(w1, env.saves)
      else (Purge(w1, vm, env), Returned(ReportOf(w1.b.baseline, vm, env.answers).success))
  }

  function ReportOf(baseline: Hashes, vm: string, answers: StepAnswers): Report {
    Report(Completed(7, vm, answers), Failed(7, vm, answers), Warnings(7, vm, answers),
           Checks(baseline, CurrentHashes(), CRITICAL_COMPONENTS),
           AllStepsPass(vm, answers) && FullBaseline(baseline))
  }

  // ---- quarantine ----

  /** An invalid transition is swallowed. */
  function ForceQuarantine(w: World, saves: Saves): (r: World)
    ensures r.b == w.b.(state := r.b.state, monitoring := r.b.monitoring) && r.host == w.host
  {
    var (w1, move) := TransitionTo(w, Quarantine, saves);
    if move.Refused? then w1 else w1.(b := w1.b.(monitoring := false))
  }
}
