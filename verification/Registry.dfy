// The API's registry of bunkers over the store: requests as functions on values,
// and what restoring a bunker from its row keeps and loses.
module Registry {
  import opened Basics
  import opened Host
  import opened Store
  import opened Monitoring
  import opened Lifecycle
  import opened LifecycleRuns

  // ---- restoring ----

  /** The row has a known state, no unknown configuration key and no garbled stamp. */
  predicate Loadable(row: Row) {
    && row.unknownKeys == {} && row.state.Named?
    && !row.createdAt.Garbled? && !row.activatedAt.Garbled? && !row.terminatedAt.Garbled?
  }

  /** What load_from_store rebuilds; None when it raises. */
  function LoadFromStore(row: Row, freshKey: string): Option<BunkerData> {
    if !Loadable(row) then None
    else
      Some(FreshBunker(row.config, if row.signingKey != "" then row.signingKey else freshKey).(
        state := row.state.state, vmName := row.vmName, switchName := row.switchName,
        createdAt := TimeOf(row.createdAt), activatedAt := TimeOf(row.activatedAt),
        terminatedAt := TimeOf(row.terminatedAt)))
  }

  /** What the API rebuilds: unknown keys are dropped, the stamps and the signing key are not taken over. */
  function Rebuild(row: Row, freshKey: string): Option<BunkerData> {
    match row.state
    case Unrecognised(_) => None
    case Named(state) =>
      Some(FreshBunker(row.config, freshKey).(state := state, vmName := row.vmName, switchName := row.switchName))
  }

  /** Restoring and persisting again changes the update stamp only, exactly when the row has a key or the new one is empty. */
  lemma LoadThenPersist(row: Row, freshKey: string, stamp: real)
    requires Loadable(row)
    ensures RowOf(LoadFromStore(row, freshKey).value, stamp) == row.(updatedAt := At(stamp)) <==>
      row.signingKey != "" || freshKey == ""
  {
  }

  /** The API's own restore keeps the row only if no stamp was set, no key unknown and it happens to draw the same key. */
  lemma RebuildThenPersist(row: Row, freshKey: string, stamp: real)
    requires row.state.Named?
    ensures RowOf(Rebuild(row, freshKey).value, stamp) == row.(updatedAt := At(stamp)) <==>
      && row.createdAt.NoStamp? && row.activatedAt.NoStamp? && row.terminatedAt.NoStamp?
      && row.unknownKeys == {} && row.signingKey == freshKey
  {
  }

  // ---- requests ----

  datatype Service = Service(bunkers: map<string, BunkerData>, host: HostData, rows: Rows)

  datatype Status = Ok | NotFound | Conflict | ServerError

  function WorldOf(s: Service, id: string): World
    requires id in s.bunkers
  {
    World(s.bunkers[id], s.host, s.rows)
  }

  function With(s: Service, id: string, w: World): Service {
    Service(s.bunkers[id := w.b], w.host, w.rows)
  }

  /** Finds a bunker in memory or rebuilds it from its row. */
  function Resolve(s: Service, id: string, freshKey: string): (r: (Service, Status))
    ensures r.1.Ok? ==> id in r.0.bunkers
    ensures r.0.host == s.host && r.0.rows == s.rows
    ensures !r.1.Ok? ==> r.0 == s
  {
    if id in s.bunkers then (s, Ok)
    else if id !in s.rows then (s, NotFound)
    else
      match Rebuild(s.rows[id], freshKey)
      case None => (s, ServerError)
      case Some(b) => (s.(bunkers := s.bunkers[id := b]), Ok)
  }

  /** A create is rolled back when the initialisation fails: its row is deleted again. */
  function Create(s: Service, config: Config, key: string, env: InitEnv, deleteRaises: bool): (Service, Status) {
    if config.id in s.rows then (s, Conflict)
    else
      var (w, exit) := Initialize(World(FreshBunker(config, key), s.host, s.rows), Unhurried(env));
      if exit == Returned(true) then (With(s, config.id, w), Ok)
      else (Service(s.bunkers, w.host, if deleteRaises then w.rows else w.rows - {config.id}), ServerError)
  }

  function Answered(s: Service, id: string, r: (World, Exit)): (Service, Status) {
    (With(s, id, r.0), if r.1 == Returned(true) then Ok else ServerError)
  }

  function Start(s: Service, id: string, freshKey: string, env: InitEnv): (Service, Status) {
    var (t, status) := Resolve(s, id, freshKey);
    if !status.Ok? then (t, status)
    else if !t.bunkers[id].state.Destroyed? then (t, Conflict)
    else Answered(t, id, Initialize(WorldOf(t, id), Unhurried(env)))
  }

  function ActivateBunker(s: Service, id: string, freshKey: string, env: ActivateEnv): (Service, Status)
    requires LayersKept(s)
  {
    var (t, status) := Resolve(s, id, freshKey);
    if !status.Ok? then (t, status)
    else if !t.bunkers[id].state.Ready? then (t, Conflict)
    else Answered(t, id, Activate(WorldOf(t, id), env))
  }

  function Stop(s: Service, id: string, freshKey: string, env: TermEnv): (Service, Status) {
    var (t, status) := Resolve(s, id, freshKey);
    if !status.Ok? then (t, status)
    else if !t.bunkers[id].state.Active? then (t, Conflict)
    else Answered(t, id, Terminate(WorldOf(t, id), env))
  }

  // ---- agreement of registry and store ----

  ghost predicate LayersKept(s: Service) {
    forall id :: id in s.bunkers ==> |s.bunkers[id].layers| == LAYER_COUNT
  }

  predicate Reflects(row: Row, b: BunkerData) {
    row.config == b.config && row.state == Named(b.state) && row.vmName == b.vmName && row.switchName == b.switchName
  }

  /** The bunker's row shows its configuration, state and resources. */
  predicate Recorded(w: World) { w.Id() in w.rows && Reflects(w.rows[w.Id()], w.b) }

  /** Every registered bunker is recorded under its own id, and every row is keyed by its own id. */
  ghost predicate Agreement(s: Service) {
    && LayersKept(s)
    && (forall id :: id in s.bunkers ==> s.bunkers[id].config.id == id && Recorded(WorldOf(s, id)))
    && (forall id :: id in s.rows ==> s.rows[id].config.id == id)
  }

  ghost predicate SavesSucceed(saves: Saves) { forall s :: saves(s).Some? }

  lemma TransitionRecords(w: World, s: BunkerState, saves: Saves)
    requires SavesSucceed(saves)
    ensures var (after, move) := TransitionTo(w, s, saves);
      && (move.Moved? ==> Recorded(after) && after.rows == w.rows[w.Id() := after.rows[w.Id()]])
      && (!move.Moved? ==> after == w)
  {
  }

  lemma InitializeRecords(w: World, env: InitEnv)
    requires w.b.state.Destroyed? && SavesSucceed(env.saves)
    ensures Recorded(Initialize(w, env).0)
  {
    hide BringUp, CleanUp;
    var (w1, a) := BringUp(w, env);
    if a.Done? {
      BringUpRecords(w, env);
    } else {
      TransitionRecords(CleanUp(w1, env), Error, env.saves);
    }
  }

  lemma BringUpRecords(w: World, env: InitEnv)
    requires SavesSucceed(env.saves) && BringUp(w, env).1.Done?
    ensures Recorded(BringUp(w, env).0)
  {
    hide Announce, LoadBaseImage, AllocateResources, WithBaseline;
    var w3 := AllocateResources(LoadBaseImage(Announce(w, env).0, env).0, env).0;
    var w4 := w3.(b := w3.b.(baseline := WithBaseline(w3.b.baseline), createdAt := Some(env.now)));
    TransitionRecords(w4, Ready, env.saves);
    assert w3.b.state.Initializing?;
  }

  lemma FailRecords(w: World, saves: Saves)
    requires SavesSucceed(saves) && !w.b.state.Destroyed?
    requires w.b.state.Error? ==> Recorded(w)
    ensures Recorded(FailToError(w, saves).0)
  {
    TransitionRecords(w, Error, saves);
  }

  lemma ActivateRecords(w: World, env: ActivateEnv)
    requires w.b.state.Ready? && |w.b.layers| == LAYER_COUNT && SavesSucceed(env.saves)
    ensures Recorded(Activate(w, env).0)
  {
    TransitionRecords(w, Active, env.saves);
    var w0 := TransitionTo(w, Active, env.saves).0;
    EngageKeepsRecord(w0, env);
    var (w1, a) := Engage(w0, env);
    if !a.Done? { FailRecords(w1, env.saves); }
  }

  lemma EngageKeepsRecord(w: World, env: ActivateEnv)
    requires |w.b.layers| == LAYER_COUNT && Recorded(w)
    ensures Recorded(Engage(w, env).0) && Engage(w, env).0.rows == w.rows
  {
  }

  lemma TerminateRecords(w: World, env: TermEnv)
    requires w.b.state.Active? && SavesSucceed(env.saves)
    ensures Recorded(Terminate(w, env).0)
  {
    hide Wind, Purge, FailToError;
    var vm := NameOr(w.b.vmName);
    var (w1, a) := Wind(w, vm, env);
    if a.Fault? { FailRecords(w1, env.saves); } else { PurgeRecords(w1, vm, env); }
  }

  lemma PurgeRecords(w: World, vm: string, env: TermEnv)
    requires w.b.state.Decontaminating? && SavesSucceed(env.saves)
    ensures Recorded(Purge(w, vm, env))
  {
    hide ReportOf, Decontamination.HostAfter;
    var report := ReportOf(w.b.baseline, vm, env.answers);
    var w1 := w.(b := w.b.(report := Some(report)), host := Decontamination.HostAfter(7, w.host, w.Id(), vm, env.answers));
    TransitionRecords(w1, if report.success then BunkerState.Destroyed else Error, env.saves);
  }

  /** Replacing one bunker's part of the service keeps the agreement if that part is recorded and no other row moved. */
  lemma WithAgrees(s: Service, id: string, w: World)
    requires Agreement(s) && w.Id() == id && Recorded(w) && |w.b.layers| == LAYER_COUNT
    requires w.rows - {id} == s.rows - {id}
    ensures Agreement(With(s, id, w))
  {
    var t := With(s, id, w);
    forall k | k in s.rows || k in w.rows
      ensures k != id ==> (k in s.rows <==> k in w.rows) && (k in s.rows ==> w.rows[k] == s.rows[k])
    {
      assert k != id ==> (k in s.rows <==> k in s.rows - {id}) && (k in w.rows <==> k in w.rows - {id});
      assert k != id && k in s.rows ==> (s.rows - {id})[k] == s.rows[k];
    }
    forall k | k in t.bunkers ensures t.bunkers[k].config.id == k && Recorded(WorldOf(t, k)) {
      if k != id { assert Recorded(WorldOf(s, k)); }
    }
  }

  lemma ResolveAgrees(s: Service, id: string, freshKey: string)
    requires Agreement(s)
    ensures Agreement(Resolve(s, id, freshKey).0)
  {
    var (t, status) := Resolve(s, id, freshKey);
    forall k | k in t.bunkers ensures t.bunkers[k].config.id == k && Recorded(WorldOf(t, k)) {
      if k in s.bunkers { assert Recorded(WorldOf(s, k)); }
    }
  }

  lemma KnownLayers(s: Service, id: string)
    requires Agreement(s) && id in s.bunkers
    ensures |s.bunkers[id].layers| == LAYER_COUNT && s.bunkers[id].config.id == id
  {
  }

  /** A failed create leaves the store exactly as before, if its delete succeeds, and registers nothing. */
  lemma CreateIsAtomic(s: Service, config: Config, key: string, env: InitEnv, deleteRaises: bool)
    ensures var (t, status) := Create(s, config, key, env, deleteRaises);
      && (!status.Ok? ==> t.bunkers == s.bunkers && (!deleteRaises ==> t.rows == s.rows))
      && (status.Conflict? <==> config.id in s.rows)
      && (status.Ok? ==> config.id in t.bunkers && t.bunkers[config.id].state.Ready?)
      && (status.Ok? ==> t.rows - {config.id} == s.rows - {config.id})
  {
    hide Initialize;
    var w := World(FreshBunker(config, key), s.host, s.rows);
    InitializeTouchesOwnRow(w, Unhurried(env));
    var after := Initialize(w, Unhurried(env)).0;
    assert after.rows - {config.id} == s.rows - {config.id};
    if config.id !in s.rows {
      assert s.rows - {config.id} == s.rows;
    }
    assert Initialize(w, Unhurried(env)).1 == Returned(true) ==> after.b.state.Ready?;
  }

  /** What a create leaves on the host, failed or not, when nothing there bears the id's names: what its initialize leaves. */
  lemma CreateFootprint(s: Service, config: Config, key: string, env: InitEnv, deleteRaises: bool)
    requires config.id !in s.rows && Unused(World(FreshBunker(config, key), s.host, s.rows))
    ensures var (t, status) := Create(s, config, key, env, deleteRaises);
      var disk := DiskPath(s.host.snapshots, config.id);
      && (status.Ok? <==> Comes(Unhurried(env)))
      && t.host == s.host.(
           vms := Adding(s.host.vms, InitLeavesVm(Unhurried(env)), VmName(config.id)),
           switches := Adding(s.host.switches, InitLeavesSwitch(Unhurried(env)), SwitchName(config.id)),
           files := Adding(s.host.files, InitLeavesDisk(Unhurried(env), Confined(s.host.snapshots, disk)), disk))
  {
    hide Initialize, Comes, InitLeavesVm, InitLeavesSwitch, InitLeavesDisk, VmName, SwitchName, DiskPath, Confined;
    InitializeFootprint(World(FreshBunker(config, key), s.host, s.rows), Unhurried(env));
  }

  lemma CreateAgrees(s: Service, config: Config, key: string, env: InitEnv)
    requires Agreement(s) && SavesSucceed(env.saves)
    ensures Agreement(Create(s, config, key, env, false).0)
  {
    hide Initialize, Recorded;
    CreateIsAtomic(s, config, key, env, false);
    var (t, status) := Create(s, config, key, env, false);
    var w := World(FreshBunker(config, key), s.host, s.rows);
    if status.Ok? {
      InitializeRecords(w, Unhurried(env));
      WithAgrees(s, config.id, Initialize(w, Unhurried(env)).0);
    } else {
      SameRowsAgree(s, t);
    }
  }

  lemma SameRowsAgree(s: Service, t: Service)
    requires Agreement(s) && t.bunkers == s.bunkers && t.rows == s.rows
    ensures Agreement(t)
  {
    forall k | k in t.bunkers ensures t.bunkers[k].config.id == k && Recorded(WorldOf(t, k)) {
      assert Recorded(WorldOf(s, k));
    }
  }

  // ---- runs ----

  datatype Request =
    | CallGet(id: string, key: string)
    | CallCreate(config: Config, key: string, init: InitEnv)
    | CallStart(id: string, key: string, init: InitEnv)
    | CallActivate(id: string, key: string, act: ActivateEnv)
    | CallStop(id: string, key: string, term: TermEnv)

  /** A request whose deletes succeed. */
  function Serve(s: Service, r: Request): (Service, Status)
    requires LayersKept(s)
  {
    match r
    case CallGet(id, key) => Resolve(s, id, key)
    case CallCreate(config, key, env) => Create(s, config, key, env, false)
    case CallStart(id, key, env) => Start(s, id, key, env)
    case CallActivate(id, key, env) => ActivateBunker(s, id, key, env)
    case CallStop(id, key, env) => Stop(s, id, key, env)
  }

  ghost predicate SavesWork(r: Request) {
    match r
    case CallGet(_, _) => true
    case CallCreate(_, _, env) => SavesSucceed(env.saves)
    case CallStart(_, _, env) => SavesSucceed(env.saves)
    case CallActivate(_, _, env) => SavesSucceed(env.saves)
    case CallStop(_, _, env) => SavesSucceed(env.saves)
  }

  lemma StartAgrees(s: Service, id: string, key: string, env: InitEnv)
    requires Agreement(s) && SavesSucceed(env.saves)
    ensures Agreement(Start(s, id, key, env).0)
  {
    hide Agreement, Recorded, Initialize;
    ResolveAgrees(s, id, key);
    var (t, status) := Resolve(s, id, key);
    if status.Ok? && t.bunkers[id].state.Destroyed? {
      InitializeRecords(WorldOf(t, id), Unhurried(env));
      KnownLayers(t, id);
      StepTouchesOwnRow(WorldOf(t, id), CallInitialize(Unhurried(env)));
      WithAgrees(t, id, Initialize(WorldOf(t, id), Unhurried(env)).0);
    }
  }

  lemma ActivateAgrees(s: Service, id: string, key: string, env: ActivateEnv)
    requires Agreement(s) && SavesSucceed(env.saves)
    ensures LayersKept(s) && Agreement(ActivateBunker(s, id, key, env).0)
  {
    ResolveAgrees(s, id, key);
    hide Agreement, Recorded, Activate;
    var (t, status) := Resolve(s, id, key);
    if status.Ok? && t.bunkers[id].state.Ready? {
      KnownLayers(t, id);
      ActivateRecords(WorldOf(t, id), env);
      StepTouchesOwnRow(WorldOf(t, id), Op.CallActivate(env));
      WithAgrees(t, id, Activate(WorldOf(t, id), env).0);
    }
  }

  lemma StopAgrees(s: Service, id: string, key: string, env: TermEnv)
    requires Agreement(s) && SavesSucceed(env.saves)
    ensures Agreement(Stop(s, id, key, env).0)
  {
    ResolveAgrees(s, id, key);
    hide Agreement, Recorded, Terminate;
    var (t, status) := Resolve(s, id, key);
    if status.Ok? && t.bunkers[id].state.Active? {
      KnownLayers(t, id);
      TerminateRecords(WorldOf(t, id), env);
      StepTouchesOwnRow(WorldOf(t, id), CallTerminate(env));
      WithAgrees(t, id, Terminate(WorldOf(t, id), env).0);
    }
  }

  lemma ServeAgrees(s: Service, r: Request)
    requires Agreement(s) && SavesWork(r)
    ensures LayersKept(s) && Agreement(Serve(s, r).0)
  {
    hide Resolve, Create, Start, ActivateBunker, Stop;
    match r {
      case CallGet(id, key) => ResolveAgrees(s, id, key);
      case CallCreate(config, key, env) => CreateAgrees(s, config, key, env);
      case CallStart(id, key, env) => StartAgrees(s, id, key, env);
      case CallActivate(id, key, env) => ActivateAgrees(s, id, key, env);
      case CallStop(id, key, env) => StopAgrees(s, id, key, env);
    }
  }

  ghost predicate ServedBy(s: Service, requests: seq<Request>, t: Service)
    decreases |requests|
  {
    if requests == [] then t == s
    else LayersKept(s) && ServedBy(Serve(s, requests[0]).0, requests[1..], t)
  }

  /** In every sequential run each registered bunker has a row with the same configuration, state and resources. */
  lemma {:induction false} RunAgrees(s: Service, requests: seq<Request>, t: Service)
    requires Agreement(s) && ServedBy(s, requests, t)
    requires forall r :: r in requests ==> SavesWork(r)
    ensures Agreement(t)
    decreases |requests|
  {
    hide Serve, Agreement, SavesWork;
    if requests != [] {
      ServeAgrees(s, requests[0]);
      RunAgrees(Serve(s, requests[0]).0, requests[1..], t);
    }
  }

  // ---- names ----

  /** Every registered bunker is keyed by its id, and bunkers and rows name no VM and switch but their own. */
  ghost predicate ServiceNamesOwn(s: Service) {
    && LayersKept(s) && OwnNamesOnly(s.rows) && KeyedRows(s.rows)
    && forall id :: id in s.bunkers ==> s.bunkers[id].config.id == id && NamesItsOwn(s.bunkers[id])
  }

  lemma ResolveNames(s: Service, id: string, freshKey: string)
    requires ServiceNamesOwn(s)
    ensures ServiceNamesOwn(Resolve(s, id, freshKey).0)
  {
    hide VmName, SwitchName;
  }

  lemma StepServiceNames(s: Service, id: string, op: Op)
    requires ServiceNamesOwn(s) && id in s.bunkers
    ensures ServiceNamesOwn(With(s, id, Step(WorldOf(s, id), op)))
  {
    hide NamesItsOwn;
    assert NamesOwn(WorldOf(s, id));
    StepNames(WorldOf(s, id), op);
    hide Step, OwnNamesOnly, KeyedRows;
  }

  lemma CreateNames(s: Service, config: Config, key: string, env: InitEnv)
    requires ServiceNamesOwn(s)
    ensures ServiceNamesOwn(Create(s, config, key, env, false).0)
  {
    var w := World(FreshBunker(config, key), s.host, s.rows);
    assert NamesOwn(w);
    StepNames(w, CallInitialize(Unhurried(env)));
    CreateIsAtomic(s, config, key, env, false);
    hide Initialize, NamesItsOwn, OwnNamesOnly, KeyedRows;
  }

  lemma ServeNames(s: Service, r: Request)
    requires ServiceNamesOwn(s)
    ensures ServiceNamesOwn(Serve(s, r).0)
  {
    hide ServiceNamesOwn, Initialize, Activate, Terminate, Resolve;
    match r {
      case CallGet(id, key) => ResolveNames(s, id, key);
      case CallCreate(config, key, env) =>
        hide Create;
        CreateNames(s, config, key, env);
      case CallStart(id, key, env) =>
        ResolveNames(s, id, key);
        var t := Resolve(s, id, key).0;
        if id in t.bunkers { KeptLayers(t, id); StepServiceNames(t, id, CallInitialize(Unhurried(env))); }
      case CallActivate(id, key, env) =>
        ResolveNames(s, id, key);
        var t := Resolve(s, id, key).0;
        if id in t.bunkers { KeptLayers(t, id); StepServiceNames(t, id, Op.CallActivate(env)); }
      case CallStop(id, key, env) =>
        ResolveNames(s, id, key);
        var t := Resolve(s, id, key).0;
        if id in t.bunkers { KeptLayers(t, id); StepServiceNames(t, id, CallTerminate(env)); }
    }
  }

  lemma KeptLayers(s: Service, id: string)
    requires ServiceNamesOwn(s) && id in s.bunkers
    ensures |s.bunkers[id].layers| == LAYER_COUNT
  {
  }

  /** In every sequential run, whether saves succeed or not, bunkers and rows name only their own VMs and switches. */
  lemma {:induction false} RunKeepsNames(s: Service, requests: seq<Request>, t: Service)
    requires ServiceNamesOwn(s) && ServedBy(s, requests, t)
    ensures ServiceNamesOwn(t)
    decreases |requests|
  {
    hide Serve, ServiceNamesOwn;
    if requests != [] {
      ServeNames(s, requests[0]);
      RunKeepsNames(Serve(s, requests[0]).0, requests[1..], t);
    }
  }

  /** The state a request asks for. */
  function Target(r: Request): Option<BunkerState> {
    match r
    case CallGet(_, _) => None
    case CallCreate(_, _, _) => Some(Ready)
    case CallStart(_, _, _) => Some(Ready)
    case CallActivate(_, _, _) => Some(Active)
    case CallStop(_, _, _) => Some(BunkerState.Destroyed)
  }

  function TargetId(r: Request): string {
    match r
    case CallGet(id, _) => id
    case CallCreate(config, _, _) => config.id
    case CallStart(id, _, _) => id
    case CallActivate(id, _, _) => id
    case CallStop(id, _, _) => id
  }

  /** A request answered Ok has reached what it asked for; NotFound and Conflict leave host and store alone. */
  lemma StatusIsTruthful(s: Service, r: Request)
    requires LayersKept(s)
    ensures var (t, status) := Serve(s, r);
      && (status.Ok? ==> TargetId(r) in t.bunkers && (Target(r).Some? ==> t.bunkers[TargetId(r)].state == Target(r).value))
      && (status.NotFound? || status.Conflict? ==> t.host == s.host && t.rows == s.rows)
  {
    hide Initialize, Activate, Terminate;
    match r {
      case CallGet(_, _) =>
      case CallCreate(config, key, env) =>
        assert Initialize(World(FreshBunker(config, key), s.host, s.rows), Unhurried(env)).1 == Returned(true) ==>
          Initialize(World(FreshBunker(config, key), s.host, s.rows), Unhurried(env)).0.b.state.Ready?;
      case CallStart(id, key, env) =>
        var (t, _) := Resolve(s, id, key);
        assert id in t.bunkers && Initialize(WorldOf(t, id), Unhurried(env)).1 == Returned(true) ==>
          Initialize(WorldOf(t, id), Unhurried(env)).0.b.state.Ready?;
      case CallActivate(id, key, env) =>
        var (t, _) := Resolve(s, id, key);
        if id in t.bunkers && Activate(WorldOf(t, id), env).1 == Returned(true) { TrueMeansActive(WorldOf(t, id), env); }
      case CallStop(id, key, env) =>
        var (t, _) := Resolve(s, id, key);
        if id in t.bunkers && Terminate(WorldOf(t, id), env).1 == Returned(true) { TrueMeansDestroyed(WorldOf(t, id), env); }
    }
  }

  // ---- exactly when a request is answered how ----

  /** The state a request finds a bunker in: the registered one's, or else the one its row names. */
  function StateOf(s: Service, id: string): Option<BunkerState> {
    if id in s.bunkers then Some(s.bunkers[id].state)
    else if id in s.rows && s.rows[id].state.Named? then Some(s.rows[id].state.state)
    else None
  }

  /** NotFound and Conflict come exactly as they should, and a request let through that fails leaves an ERROR behind. */
  ghost predicate AnswersFrom(s: Service, id: string, from: BunkerState, t: Service, status: Status) {
    && (status.NotFound? <==> id !in s.bunkers && id !in s.rows)
    && (status.Conflict? <==> StateOf(s, id).Some? && StateOf(s, id).value != from)
    && (status.ServerError? && StateOf(s, id) == Some(from) ==> id in t.bunkers && t.bunkers[id].state.Error?)
    && (StateOf(s, id) == None ==> t == s)
    && t.bunkers - {id} == s.bunkers - {id}
  }

  lemma StartAnswers(s: Service, id: string, key: string, env: InitEnv)
    ensures var (t, status) := Start(s, id, key, env);
      && AnswersFrom(s, id, BunkerState.Destroyed, t, status)
      && (status.Ok? <==>
            && StateOf(s, id) == Some(BunkerState.Destroyed)
            && env.available.Yes? && !env.mkSwitch.reply.Raises? && env.mkVm.reply.Yes?
            && !env.integrate.Raises? && !env.secret.Raises?)
  {
    hide Initialize;
    var (t, status) := Resolve(s, id, key);
    if status.Ok? && t.bunkers[id].state.Destroyed? {
      assert Initialize(WorldOf(t, id), Unhurried(env)).1 == Returned(true) <==> Comes(Unhurried(env));
    }
  }

  lemma ActivateAnswers(s: Service, id: string, key: string, env: ActivateEnv)
    requires LayersKept(s)
    ensures var (t, status) := ActivateBunker(s, id, key, env);
      && AnswersFrom(s, id, Ready, t, status)
      && (status.Ok? <==>
            && StateOf(s, id) == Some(Ready)
            && (forall i: nat :: i < LAYER_COUNT ==> env.hook(i).Yes?)
            && env.monitorStarts && env.metricsStart)
  {
    hide Activate;
    var (t, status) := Resolve(s, id, key);
    if status.Ok? && t.bunkers[id].state.Ready? {
      ReadyActivation(WorldOf(t, id), env);
    }
  }

  lemma ReadyActivation(w: World, env: ActivateEnv)
    requires w.b.state.Ready? && |w.b.layers| == LAYER_COUNT
    ensures var (after, exit) := Activate(w, env);
      && (exit == Returned(true) <==>
            (forall i: nat :: i < LAYER_COUNT ==> env.hook(i).Yes?) && env.monitorStarts && env.metricsStart)
      && (exit != Returned(true) ==> after.b.state.Error?)
  {
    ActivateIff(w, env);
  }

  /** A stop succeeds only for a bunker that was never restored from its row since it came up. */
  lemma StopAnswers(s: Service, id: string, key: string, env: TermEnv)
    ensures var (t, status) := Stop(s, id, key, env);
      && AnswersFrom(s, id, Active, t, status)
      && (status.Ok? <==>
            && id in s.bunkers && s.bunkers[id].state.Active? && FullBaseline(s.bunkers[id].baseline)
            && !env.secret.Raises?
            && env.answers(2).reply.Yes? && env.answers(3).reply.Yes? && env.answers(5).reply.Yes?
            && (NameOr(s.bunkers[id].vmName) != "" ==>
                  && !env.checkpoint.Raises? && !env.stop.Raises?
                  && env.answers(0).reply.Yes? && env.answers(4).reply.Yes?))
  {
    hide Terminate;
    var (t, status) := Resolve(s, id, key);
    if status.Ok? && t.bunkers[id].state.Active? {
      ActiveTermination(WorldOf(t, id), env);
      if id !in s.bunkers { assert BaseImage !in t.bunkers[id].baseline; }
    }
  }

  lemma ActiveTermination(w: World, env: TermEnv)
    requires w.b.state.Active?
    ensures Terminate(w, env).1 == Returned(true) <==>
      && FullBaseline(w.b.baseline) && !env.secret.Raises?
      && env.answers(2).reply.Yes? && env.answers(3).reply.Yes? && env.answers(5).reply.Yes?
      && (NameOr(w.b.vmName) != "" ==>
            && !env.checkpoint.Raises? && !env.stop.Raises?
            && env.answers(0).reply.Yes? && env.answers(4).reply.Yes?)
    ensures Terminate(w, env).1 != Returned(true) ==> Terminate(w, env).0.b.state.Error?
  {
    TerminateNeeds(w, env);
    hide Purge, Wind;
    var vm := NameOr(w.b.vmName);
    var (w1, a) := Wind(w, vm, env);
  }

  /** A create succeeds exactly for an id without a row, when every call of the initialisation comes. */
  lemma CreateAnswers(s: Service, config: Config, key: string, env: InitEnv, deleteRaises: bool)
    ensures Create(s, config, key, env, deleteRaises).1.Ok? <==>
      && config.id !in s.rows
      && env.available.Yes? && !env.mkSwitch.reply.Raises? && env.mkVm.reply.Yes?
      && !env.integrate.Raises? && !env.secret.Raises?
  {
    hide Initialize;
    var w := World(FreshBunker(config, key), s.host, s.rows);
    assert Initialize(w, Unhurried(env)).1 == Returned(true) <==> Comes(Unhurried(env));
  }

  /** After a restart, stopping an ACTIVE bunker never succeeds and leaves it in ERROR: its baselines are gone. */
  lemma StopAfterRestart(s: Service, id: string, key: string, env: TermEnv)
    requires id !in s.bunkers && id in s.rows && s.rows[id].state == Named(Active)
    ensures var (t, status) := Stop(s, id, key, env);
      status.ServerError? && id in t.bunkers && t.bunkers[id].state.Error?
  {
    hide Terminate;
    var (t, _) := Resolve(s, id, key);
    RestoredEndsInError(WorldOf(t, id), env);
  }

  lemma RestoredEndsInError(w: World, env: TermEnv)
    requires w.b.state.Active? && w.b.baseline == map[] && |w.b.layers| == LAYER_COUNT
    ensures Terminate(w, env).1 == Returned(false) && Terminate(w, env).0.b.state.Error?
  {
    hide Wind, Purge;
    RestoredNeverTerminates(w, env);
    var vm := NameOr(w.b.vmName);
    var (w1, a) := Wind(w, vm, env);
  }

  // ---- ids accepted at creation ----

  predicate Alphanumeric(c: char) { 'A' <= c <= 'Z' || 'a' <= c <= 'z' || '0' <= c <= '9' }

  /** A letter or digit, then up to 63 letters, digits, dots, underscores and hyphens. */
  predicate ApiId(id: string) {
    && 1 <= |id| <= 64 && Alphanumeric(id[0])
    && forall i :: 0 < i < |id| ==> Alphanumeric(id[i]) || id[i] in {'.', '_', '-'}
  }

  /** Bunkers created through the API have disks of their own, directly in the snapshots directory. */
  lemma ApiIdsAreConfined(snapshots: Path, id: string, other: string)
    requires ApiId(id) && ApiId(other) && id != other
    ensures Confined(snapshots, DiskPath(snapshots, id)) && DiskPath(snapshots, id) != DiskPath(snapshots, other)
  {
    hide DiskPath;
    PlainIdIsConfined(snapshots, id);
    NamesAreInjective(snapshots, id, other);
  }
}
