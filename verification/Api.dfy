// The API's request handlers over bunker objects, updated in place: every handler
// is proved against its function in module Registry.
module Api {
  import opened Basics
  import opened Host
  import opened Store
  import opened Monitoring
  import opened Lifecycle
  import opened BunkerClass
  import opened Registry

  /**
    Rebuilds a bunker from its row, stamps and signing key included; raises on an unknown configuration key, a state
    that has no such name and a stamp that is no time.
   */
  method RestoreFromStore(host: Backend, store: StateStore, id: string, freshKey: string)
    returns (bunker: Bunker?, raised: bool)
    ensures raised <==> id in store.rows && !Loadable(store.rows[id])
    ensures bunker == null <==> id !in store.rows || raised
    ensures bunker != null ==> fresh(bunker) && bunker.host == host && bunker.store == store
    ensures bunker != null ==> bunker.Data() == LoadFromStore(store.rows[id], freshKey).value
  {
    var found := store.Load(id);
    if found.None? { return null, false; }
    var row := found.value;
    if row.unknownKeys != {} || row.state.Unrecognised? { return null, true; }
    if row.createdAt.Garbled? || row.activatedAt.Garbled? || row.terminatedAt.Garbled? { return null, true; }
    bunker := new Bunker(row.config, if row.signingKey != "" then row.signingKey else freshKey, host, store);
    bunker.state, bunker.vmName, bunker.switchName := row.state.state, row.vmName, row.switchName;
    bunker.createdAt, bunker.activatedAt := TimeOf(row.createdAt), TimeOf(row.activatedAt);
    bunker.terminatedAt := TimeOf(row.terminatedAt);
    raised := false;
  }

  class BunkerApi {
    const host: Backend
    const store: StateStore
    var bunkers: map<string, Bunker>

    ghost function Verifiers(): set<IntegrityVerifier>
      reads this
    {
      set b | b in bunkers.Values :: b.verifier
    }

    /** The bunkers share the host and the store and nothing else. */
    ghost predicate Valid()
      reads this, bunkers.Values
    {
      && (forall id :: id in bunkers ==>
            bunkers[id].host == host && bunkers[id].store == store && |bunkers[id].layers| == LAYER_COUNT)
      && (forall i, j :: i in bunkers && j in bunkers && i != j ==>
            bunkers[i] != bunkers[j] && bunkers[i].verifier != bunkers[j].verifier)
    }

    ghost function View(): Service
      reads this, bunkers.Values, Verifiers(), host, store
    {
      Service(map id | id in bunkers :: bunkers[id].Data(), host.Data(), store.rows)
    }

    constructor (host: Backend, store: StateStore)
      ensures Valid() && this.host == host && this.store == store
      ensures View() == Service(map[], host.Data(), store.rows)
    {
      this.host, this.store, bunkers := host, store, map[];
    }

    method RebuildBunker(row: Row, freshKey: string) returns (bunker: Bunker)
      requires row.state.Named?
      ensures fresh(bunker) && fresh(bunker.verifier) && bunker.host == host && bunker.store == store
      ensures bunker.Data() == Rebuild(row, freshKey).value && |bunker.layers| == LAYER_COUNT
    {
      bunker := new Bunker(row.config, freshKey, host, store);
      bunker.state, bunker.vmName, bunker.switchName := row.state.state, row.vmName, row.switchName;
    }

    method Register(id: string, bunker: Bunker)
      requires Valid() && bunker.host == host && bunker.store == store && |bunker.layers| == LAYER_COUNT
      requires bunker !in bunkers.Values && bunker.verifier !in Verifiers()
      modifies this`bunkers
      ensures Valid() && bunkers == old(bunkers)[id := bunker]
      ensures View() == old(View()).(bunkers := old(View()).bunkers[id := bunker.Data()])
    {
      forall k | k in bunkers ensures bunkers[k] != bunker && bunkers[k].verifier != bunker.verifier {
        assert bunkers[k] in bunkers.Values && bunkers[k].verifier in Verifiers();
      }
      bunkers := bunkers[id := bunker];
    }

    method GetBunker(id: string, freshKey: string) returns (status: Status)
      requires Valid()
      modifies this`bunkers
      ensures Valid() && (View(), status) == Registry.Resolve(old(View()), id, freshKey)
      ensures bunkers == old(bunkers) || (id in bunkers && bunkers == old(bunkers)[id := bunkers[id]]
        && fresh(bunkers[id]) && fresh(bunkers[id].verifier))
    {
      hide FreshBunker;
      if id in bunkers { return Ok; }
      var found := store.Load(id);
      Untouched();
      if found.None? { return NotFound; }
      if found.value.state.Unrecognised? { return ServerError; }
      var bunker := RebuildBunker(found.value, freshKey);
      Register(id, bunker);
      return Ok;
    }

    /** If only one bunker, the host and the store changed, the view changed in that bunker's part only. */
    twostate lemma OnePart(id: string)
      requires old(Valid()) && id in old(bunkers) && bunkers == old(bunkers)
      requires forall k :: k in bunkers && k != id ==> bunkers[k].Data() == old(bunkers[k].Data())
      ensures View() == With(old(View()), id, World(bunkers[id].Data(), host.Data(), store.rows))
    {
    }

    method InitializeAt(id: string, env: InitEnv) returns (status: Status)
      requires Valid() && id in bunkers
      modifies bunkers[id], bunkers[id].verifier, host, store
      ensures Valid() && (View(), status) == Answered(old(View()), id, Initialize(WorldOf(old(View()), id), Unhurried(env)))
    {
      hide Initialize;
      var exit := bunkers[id].Initialize(Unhurried(env));
      OnePart(id);
      return if exit == Returned(true) then Ok else ServerError;
    }

    method StartBunker(id: string, freshKey: string, env: InitEnv) returns (status: Status)
      requires Valid()
      modifies this`bunkers, bunkers.Values, Verifiers(), host, store
      ensures Valid() && (View(), status) == Registry.Start(old(View()), id, freshKey, env)
    {
      hide Initialize, Activate, Terminate, Registry.Resolve;
      status := GetBunker(id, freshKey);
      if !status.Ok? { return; }
      if !bunkers[id].state.Destroyed? { return Conflict; }
      status := InitializeAt(id, env);
    }

    method ActivateAt(id: string, env: ActivateEnv) returns (status: Status)
      requires Valid() && id in bunkers
      modifies bunkers[id], bunkers[id].verifier, host, store
      ensures Valid() && (View(), status) == Answered(old(View()), id, Activate(WorldOf(old(View()), id), env))
    {
      hide Activate;
      var exit := bunkers[id].Activate(env);
      OnePart(id);
      return if exit == Returned(true) then Ok else ServerError;
    }

    method ActivateBunker(id: string, freshKey: string, env: ActivateEnv) returns (status: Status)
      requires Valid()
      modifies this`bunkers, bunkers.Values, Verifiers(), host, store
      ensures Valid() && (View(), status) == Registry.ActivateBunker(old(View()), id, freshKey, env)
    {
      hide Initialize, Activate, Terminate, Registry.Resolve;
      status := GetBunker(id, freshKey);
      if !status.Ok? { return; }
      if !bunkers[id].state.Ready? { return Conflict; }
      status := ActivateAt(id, env);
    }

    method TerminateAt(id: string, env: TermEnv) returns (status: Status)
      requires Valid() && id in bunkers
      modifies bunkers[id], bunkers[id].verifier, host, store
      ensures Valid() && (View(), status) == Answered(old(View()), id, Terminate(WorldOf(old(View()), id), env))
    {
      hide Terminate;
      var exit := bunkers[id].Terminate(env);
      OnePart(id);
      return if exit == Returned(true) then Ok else ServerError;
    }

    method StopBunker(id: string, freshKey: string, env: TermEnv) returns (status: Status)
      requires Valid()
      modifies this`bunkers, bunkers.Values, Verifiers(), host, store
      ensures Valid() && (View(), status) == Registry.Stop(old(View()), id, freshKey, env)
    {
      hide Initialize, Activate, Terminate, Registry.Resolve;
      status := GetBunker(id, freshKey);
      if !status.Ok? { return; }
      if !bunkers[id].state.Active? { return Conflict; }
      status := TerminateAt(id, env);
    }

    /** Initialises a bunker of its own; it is not registered yet. */
    method InitializeNew(config: Config, key: string, env: InitEnv) returns (bunker: Bunker, exit: Exit)
      requires Valid()
      modifies host, store
      ensures Valid() && fresh(bunker) && fresh(bunker.verifier) && bunker.host == host && bunker.store == store
      ensures |bunker.layers| == LAYER_COUNT
      ensures View().bunkers == old(View()).bunkers
      ensures (World(bunker.Data(), host.Data(), store.rows), exit)
        == Initialize(World(FreshBunker(config, key), old(host.Data()), old(store.rows)), Unhurried(env))
    {
      hide Initialize;
      bunker := new Bunker(config, key, host, store);
      assert |bunker.layers| == LAYER_COUNT by { assert bunker.Data().layers == NO_LAYERS; }
      hide FreshBunker;
      exit := bunker.Initialize(Unhurried(env));
      Untouched();
    }

    twostate lemma Untouched()
      requires bunkers == old(bunkers)
      requires forall k :: k in bunkers ==> bunkers[k].Data() == old(bunkers[k].Data())
      ensures View().bunkers == old(View()).bunkers
    {
    }

    /** Deletes the row of a bunker that is not registered. */
    method Discard(id: string, deleteRaises: bool)
      requires Valid()
      modifies store
      ensures Valid()
      ensures View() == old(View()).(rows := if deleteRaises then old(View()).rows else old(View()).rows - {id})
    {
      var _ := store.Delete(id, deleteRaises);
      Untouched();
    }

    method CreateBunker(config: Config, key: string, env: InitEnv, deleteRaises: bool) returns (status: Status)
      requires Valid()
      modifies this`bunkers, host, store
      ensures Valid() && (View(), status) == Create(old(View()), config, key, env, deleteRaises)
    {
      hide Initialize, FreshBunker;
      var found := store.Load(config.id);
      Untouched();
      if found.Some? { return Conflict; }
      var bunker, exit := InitializeNew(config, key, env);
      if exit != Returned(true) {
        Discard(config.id, deleteRaises);
        return ServerError;
      }
      Register(config.id, bunker);
      return Ok;
    }
  }
}
