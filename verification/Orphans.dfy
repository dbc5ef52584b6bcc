// Where the lifecycle and the reaper meet: what a failed initialisation forgets
// can never be reaped.
module Orphans {
  import opened Basics
  import opened Host
  import opened Store
  import opened Lifecycle
  import opened LifecycleRuns
  import opened Reaping

  /** The bunker names nothing, and neither does its row. */
  predicate Nameless(w: World) {
    && NameOr(w.b.vmName) == NameOr(w.b.switchName) == ""
    && RowIsNameless(w)
  }

  predicate RowIsNameless(w: World) {
    w.Id() in w.rows ==> NameOr(w.rows[w.Id()].vmName) == NameOr(w.rows[w.Id()].switchName) == ""
  }

  lemma NamelessTransition(w: World, s: BunkerState, saves: Saves)
    requires Nameless(w)
    ensures Nameless(TransitionTo(w, s, saves).0)
  {
  }

  /** An initialisation that does not complete writes only rows without names: the names are set later and saved last. */
  lemma FailureIsNameless(w: World, env: InitEnv)
    requires w.b.state.Destroyed? && Nameless(w) && !Comes(env)
    ensures Nameless(Initialize(w, env).0)
  {
    hide VmName, SwitchName, DiskPath, Confined, TransitionTo;
    NamelessTransition(w, Initializing, env.saves);
    BringUpIsNameless(w, env);
    hide BringUp, Nameless;
    var w1 := CleanUp(BringUp(w, env).0, env);
    assert Nameless(w1) by { CleanedIsNameless(BringUp(w, env).0, env); }
    NamelessTransition(w1, Error, env.saves);
  }

  lemma BringUpIsNameless(w: World, env: InitEnv)
    requires w.b.state.Destroyed? && Nameless(w) && !Comes(env)
    ensures RowIsNameless(BringUp(w, env).0)
  {
    hide VmName, SwitchName, DiskPath, TransitionTo;
    NamelessTransition(w, Initializing, env.saves);
    var (w1, a1) := Announce(w, env);
    if a1.Done? {
      var (w2, a2) := LoadBaseImage(w1, env);
      if a2.Done? {
        var (w3, a3) := AllocateResources(w2, env);
        assert w3.rows == w1.rows;
      }
    }
  }

  lemma CleanedIsNameless(w: World, env: InitEnv)
    requires RowIsNameless(w)
    ensures Nameless(CleanUp(w, env))
  {
    hide CleanUp;
  }

  /** A resource of the bunker that is on the host while no row names it. */
  ghost predicate Orphaned(vm: string, host: HostData, rows: Rows) {
    vm in host.vms && forall id :: id in rows ==> NameOr(rows[id].vmName) != vm
  }

  ghost predicate OrphanedSwitch(sw: string, host: HostData, rows: Rows) {
    sw in host.switches && forall id :: id in rows ==> NameOr(rows[id].switchName) != sw
  }

  /** A pass removes no VM and no switch that no row names, whatever is asked for and answered; so no run of passes does. */
  lemma {:induction false} OrphansStay(host: HostData, rows: Rows, entries: seq<Entry>, o: Options, answers: Answers,
                                       vm: string, sw: string)
    requires vm != "" && sw != ""
    ensures var p := ReapPass(host, rows, entries, o, answers);
      && (Orphaned(vm, host, rows) ==> Orphaned(vm, p.host, p.rows))
      && (OrphanedSwitch(sw, host, rows) ==> OrphanedSwitch(sw, p.host, p.rows))
  {
    hide Visit;
    if entries != [] {
      var p, e := ReapPass(host, rows, entries[..|entries| - 1], o, answers), entries[|entries| - 1];
      OrphansStay(host, rows, entries[..|entries| - 1], o, answers, vm, sw);
      VisitKeepsOrphans(p, e, o, answers, vm, sw);
    }
  }

  lemma VisitKeepsOrphans(p: Pass, e: Entry, o: Options, answers: Answers, vm: string, sw: string)
    requires vm != "" && sw != ""
    ensures var q := Visit(p, e, o, answers);
      && (Orphaned(vm, p.host, p.rows) ==> Orphaned(vm, q.host, q.rows))
      && (OrphanedSwitch(sw, p.host, p.rows) ==> OrphanedSwitch(sw, q.host, q.rows))
  {
    hide Torn, Classify, DiskPath, Confined;
    TornHost(p.host, e.id, if e.id in p.rows then Some(p.rows[e.id]) else None, answers(e.id));
  }

  /**
    What a failed initialisation leaves on the host it leaves for good: both names are forgotten, no row has them, and
    no pass of the reaper can remove the VM or the switch.
   */
  lemma FailedInitializeOrphans(w: World, env: InitEnv, entries: seq<Entry>, o: Options, answers: Answers)
    requires w.b.state.Destroyed? && w.b.vmName == w.b.switchName == None && Unused(w) && !Comes(env)
    requires OwnNamesOnly(w.rows) && KeyedRows(w.rows) && w.Id() !in w.rows
    ensures var v := Initialize(w, env).0;
      var p := ReapPass(v.host, v.rows, entries, o, answers);
      && (InitLeavesVm(env) ==> Orphaned(VmName(w.Id()), p.host, p.rows))
      && (InitLeavesSwitch(env) ==> OrphanedSwitch(SwitchName(w.Id()), p.host, p.rows))
  {
    var id, v := w.Id(), Initialize(w, env).0;
    InitializeFootprint(w, env);
    InitializeNames(w, env);
    FailureIsNameless(w, env);
    OrphansStay(v.host, v.rows, entries, o, answers, VmName(id), SwitchName(id));
    hide VmName, SwitchName, DiskPath, Confined, Initialize, InitLeavesVm, InitLeavesSwitch, InitLeavesDisk, ReapPass;
    forall other | other in v.rows
      ensures NameOr(v.rows[other].vmName) != VmName(id) && NameOr(v.rows[other].switchName) != SwitchName(id)
    {
      if other != id { NamesAreInjective(w.host.snapshots, other, id); }
    }
  }
}
