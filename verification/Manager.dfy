// The dual bunker manager, updated in place: every method is proved against its
// function in module Sessions.
module Manager {
  import opened Basics
  import opened Host
  import opened Store
  import opened Lifecycle
  import opened LifecycleRuns
  import opened BunkerClass
  import opened Sessions

  /** Polls a bunker's state once a second until it no longer decontaminates; `read(k)` is what the k-th poll reads. */
  method AwaitDecontamination(read: nat -> BunkerState, ghost over: nat) returns (sleeps: nat)
    requires !read(over).Decontaminating?
    ensures sleeps <= over && !read(sleeps).Decontaminating?
    ensures forall k: nat :: k < sleeps ==> read(k).Decontaminating?
  {
    sleeps := 0;
    while read(sleeps).Decontaminating?
      invariant sleeps <= over && forall k: nat :: k < sleeps ==> read(k).Decontaminating?
      decreases over - sleeps
    {
      sleeps := sleeps + 1;
    }
  }

  class DualBunkerManager {
    const host: Backend
    const store: StateStore
    const bunker1: Bunker
    const bunker2: Bunker

    var activeBunker: Bunker?
    var inactiveBunker: Bunker?
    var rotationCount: nat
    var totalSessions: nat

    /** The two bunkers share the host and the store and nothing else; the pointers only ever name them. */
    ghost predicate Valid()
      reads this, bunker1, bunker2
    {
      && bunker1 != bunker2 && bunker1.verifier != bunker2.verifier
      && bunker1.host == bunker2.host == host && bunker1.store == bunker2.store == store
      && |bunker1.layers| == LAYER_COUNT && |bunker2.layers| == LAYER_COUNT
      && activeBunker in {null, bunker1, bunker2} && inactiveBunker in {null, bunker1, bunker2}
    }

    ghost function SlotOf(b: Bunker?): Option<Slot> {
      if b == null then None else if b == bunker1 then Some(First) else Some(Second)
    }

    ghost function View(): Duo
      requires Valid()
      reads this, bunker1, bunker2, bunker1.verifier, bunker2.verifier, host, store
    {
      Duo(bunker1.Data(), bunker2.Data(), host.Data(), store.rows,
          SlotOf(activeBunker), SlotOf(inactiveBunker), rotationCount, totalSessions)
    }

    constructor (config1: Config, config2: Config, key1: string, key2: string, host: Backend, store: StateStore)
      ensures Valid() && fresh(bunker1) && fresh(bunker2) && fresh(bunker1.verifier) && fresh(bunker2.verifier)
      ensures this.host == host && this.store == store
      ensures View() == FreshDuo(config1, config2, key1, key2, host.Data(), store.rows)
    {
      this.host, this.store := host, store;
      bunker1 := new Bunker(config1, key1, host, store);
      bunker2 := new Bunker(config2, key2, host, store);
      activeBunker, inactiveBunker := null, null;
      rotationCount, totalSessions := 0, 0;
    }

    method BringUp(bunker: Bunker, env: SessionEnv) returns (up: bool)
      requires Valid() && bunker in {bunker1, bunker2}
      modifies bunker, bunker.verifier, host, store
      ensures Valid()
      ensures (View(), up) == BringOnline(old(View()), SlotOf(bunker).value, env)
    {
      hide Initialize, Activate;
      var exit := bunker.Initialize(Unhurried(env.init));
      if exit != Returned(true) { return false; }
      exit := bunker.Activate(env.act);
      return exit == Returned(true);
    }

    /**
      Terminates the old bunker and waits while it decontaminates. Once terminate() has answered True the bunker is
      DESTROYED, and nothing else changes it while the lock is held: the wait never sleeps, and the check after it
      always passes.
     */
    method RetireOld(bunker: Bunker, env: SessionEnv) returns (stop: Option<Outcome>, ghost slept: nat)
      requires Valid() && bunker in {bunker1, bunker2}
      modifies bunker, bunker.verifier, host, store
      ensures Valid()
      ensures (View(), stop) == Retire(old(View()), SlotOf(bunker).value, env)
      ensures slept == 0
    {
      hide Terminate, ForceQuarantine;
      slept := 0;
      if !bunker.state.Active? && !bunker.state.Ready? { return None, 0; }
      var exit := bunker.Terminate(env.term);
      if exit == Returned(true) {
        TrueMeansDestroyed(old(View()).At(SlotOf(bunker).value), env.term);
        var state := bunker.state;
        var sleeps := AwaitDecontamination(_ => state, 0);
        return if bunker.state.Destroyed? then None else Some(Ended(false)), sleeps;
      }
      if exit == Returned(false) {
        bunker.ForceQuarantine(env.saves);
        return Some(Ended(false)), 0;
      }
      return Some(Raised), 0;
    }

    method RotateBunkers(env: SessionEnv) returns (outcome: Outcome)
      requires Valid()
      modifies this, bunker1, bunker2, bunker1.verifier, bunker2.verifier, host, store
      ensures Valid()
      ensures (View(), outcome) == Rotate(old(View()), env)
    {
      hide Retire, BringOnline;
      var leaving, joining := activeBunker, inactiveBunker;
      if leaving == null || joining == null { return Raised; }
      var stop, _ := RetireOld(leaving, env);
      if stop.Some? { return stop.value; }
      var up := BringUp(joining, env);
      if !up { return Ended(false); }
      activeBunker, inactiveBunker := joining, leaving;
      rotationCount, totalSessions := rotationCount + 1, totalSessions + 1;
      return Ended(true);
    }

    method StartSession(env: SessionEnv) returns (outcome: Outcome)
      requires Valid()
      modifies this, bunker1, bunker2, bunker1.verifier, bunker2.verifier, host, store
      ensures Valid()
      ensures (View(), outcome) == Sessions.StartSession(old(View()), env)
    {
      hide BringOnline, Rotate;
      if activeBunker == null {
        var up := BringUp(bunker1, env);
        if !up { return Ended(false); }
        activeBunker, inactiveBunker := bunker1, bunker2;
        totalSessions := totalSessions + 1;
        return Ended(true);
      }
      if activeBunker.state.Active? { return Ended(true); }
      outcome := RotateBunkers(env);
    }

    method EndSession(env: SessionEnv) returns (outcome: Outcome)
      requires Valid()
      modifies this, bunker1, bunker2, bunker1.verifier, bunker2.verifier, host, store
      ensures Valid()
      ensures (View(), outcome) == Sessions.EndSession(old(View()), env)
    {
      hide Terminate;
      if activeBunker == null { return Ended(true); }
      var exit := activeBunker.Terminate(env.term);
      if !exit.Returned? { return Raised; }
      activeBunker, inactiveBunker := null, null;
      return Ended(exit.ok);
    }

    method EmergencyShutdown(env: SessionEnv)
      requires Valid()
      modifies bunker1, bunker2, host, store
      ensures Valid()
      ensures View() == Sessions.EmergencyShutdown(old(View()), env)
    {
      if activeBunker != null { activeBunker.ForceQuarantine(env.saves); }
      if inactiveBunker != null { inactiveBunker.ForceQuarantine(env.saves); }
    }
  }
}
