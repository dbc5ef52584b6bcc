// The seven decontamination steps and the report they produce.
module Decontamination {
  import opened Basics
  import opened Host
  import opened Monitoring

  datatype Step =
    | TerminateProcesses | PurgeMemory | DestroyDifferentialDisk | CleanNetworkConfig
    | RemoveSnapshots | VerifyHostIntegrity | GenerateReport

  const STEPS: seq<Step> := [
    TerminateProcesses, PurgeMemory, DestroyDifferentialDisk, CleanNetworkConfig,
    RemoveSnapshots, VerifyHostIntegrity, GenerateReport]

  datatype Warning = ReturnedFalse(step: Step) | RaisedIn(step: Step)

  datatype Report = Report(
    completed: seq<Step>, failed: seq<Step>, warnings: seq<Warning>,
    checks: seq<Check>, success: bool)

  /** What the backend answers to each step; the answers to steps 1 and 6 are never asked for. */
  type StepAnswers = nat -> Answer

  /** Steps 0 and 4 pass without a VM, steps 1 and 6 always pass, the rest report what the backend says. */
  function StepReply(i: nat, vm: string, answers: StepAnswers): Reply {
    if i == 1 || i == 6 || (vm == "" && (i == 0 || i == 4)) then Yes else answers(i).reply
  }

  function StepHost(i: nat, h: HostData, id: string, vm: string, answers: StepAnswers): HostData {
    if i == 2 then h.DeleteFile(DiskPath(h.snapshots, id), answers(2))
    else if i == 3 then h.RemoveSwitch(SwitchName(id), answers(3))
    else if i == 4 && vm != "" then h.RemoveVm(vm, DiskPath(h.snapshots, id), answers(4))
    else h
  }

  /** The host after the first `k` steps; a failed step never stops the next one. */
  function HostAfter(k: nat, h: HostData, id: string, vm: string, answers: StepAnswers): HostData {
    if k == 0 then h else StepHost(k - 1, HostAfter(k - 1, h, id, vm, answers), id, vm, answers)
  }

  function Completed(k: nat, vm: string, answers: StepAnswers): seq<Step>
    requires k <= |STEPS|
  {
    if k == 0 then []
    else Completed(k - 1, vm, answers) + if StepReply(k - 1, vm, answers).Yes? then [STEPS[k - 1]] else []
  }

  function Failed(k: nat, vm: string, answers: StepAnswers): seq<Step>
    requires k <= |STEPS|
  {
    if k == 0 then []
    else Failed(k - 1, vm, answers) + if StepReply(k - 1, vm, answers).Yes? then [] else [STEPS[k - 1]]
  }

  function Warnings(k: nat, vm: string, answers: StepAnswers): seq<Warning>
    requires k <= |STEPS|
  {
    if k == 0 then []
    else
      var warning :=
        match StepReply(k - 1, vm, answers)
        case Yes => []
        case No => [ReturnedFalse(STEPS[k - 1])]
        case Raises => [RaisedIn(STEPS[k - 1])];
      Warnings(k - 1, vm, answers) + warning
  }

  predicate AllStepsPass(vm: string, answers: StepAnswers) {
    forall i: nat :: i < |STEPS| ==> StepReply(i, vm, answers).Yes?
  }

  /** `c` is an interleaving of `a` and `b` that keeps the order of both. */
  ghost predicate Merges(a: seq<Step>, b: seq<Step>, c: seq<Step>) {
    if c == [] then a == [] && b == []
    else
      var last := c[|c| - 1];
      || (a != [] && a[|a| - 1] == last && Merges(a[..|a| - 1], b, c[..|c| - 1]))
      || (b != [] && b[|b| - 1] == last && Merges(a, b[..|b| - 1], c[..|c| - 1]))
  }

  lemma {:induction false} MergedPartsAreDisjoint(a: seq<Step>, b: seq<Step>, c: seq<Step>)
    requires Merges(a, b, c) && Distinct(c)
    ensures forall s :: s in a || s in b <==> s in c
    ensures forall s :: s in a ==> s !in b
  {
    if c != [] {
      var init, last := c[..|c| - 1], c[|c| - 1];
      assert c == init + [last] && last !in init;
      if a != [] && a[|a| - 1] == last && Merges(a[..|a| - 1], b, init) {
        MergedPartsAreDisjoint(a[..|a| - 1], b, init);
        assert a == a[..|a| - 1] + [last];
      } else {
        MergedPartsAreDisjoint(a, b[..|b| - 1], init);
        assert b == b[..|b| - 1] + [last];
      }
    }
  }

  lemma {:induction false} StepsMerge(k: nat, vm: string, answers: StepAnswers)
    requires k <= |STEPS|
    ensures Merges(Completed(k, vm, answers), Failed(k, vm, answers), STEPS[..k])
  {
    if k > 0 {
      StepsMerge(k - 1, vm, answers);
      var c, f := Completed(k, vm, answers), Failed(k, vm, answers);
      assert STEPS[..k][..k - 1] == STEPS[..k - 1];
      if StepReply(k - 1, vm, answers).Yes? {
        assert c[..|c| - 1] == Completed(k - 1, vm, answers) && f == Failed(k - 1, vm, answers);
      } else {
        assert f[..|f| - 1] == Failed(k - 1, vm, answers) && c == Completed(k - 1, vm, answers);
      }
    }
  }

  /** One warning per failed step, in the same order; nothing failed iff every step passed. */
  lemma {:induction false} WarningsMatchFailures(k: nat, vm: string, answers: StepAnswers)
    requires k <= |STEPS|
    ensures |Warnings(k, vm, answers)| == |Failed(k, vm, answers)|
    ensures forall j :: 0 <= j < |Failed(k, vm, answers)| ==> Warnings(k, vm, answers)[j].step == Failed(k, vm, answers)[j]
    ensures Failed(k, vm, answers) == [] <==> forall i: nat :: i < k ==> StepReply(i, vm, answers).Yes?
  {
    if k > 0 {
      WarningsMatchFailures(k - 1, vm, answers);
    }
  }

  /** The warning tells of step `i`, and how it failed. */
  predicate Tells(w: Warning, i: nat, vm: string, answers: StepAnswers)
    requires i < |STEPS|
  {
    match StepReply(i, vm, answers)
    case Yes => false
    case No => w == ReturnedFalse(STEPS[i])
    case Raises => w == RaisedIn(STEPS[i])
  }

  /** Each warning says how its step failed. */
  lemma {:induction false} WarningsSayHow(k: nat, vm: string, answers: StepAnswers, w: Warning)
    requires k <= |STEPS|
    ensures w in Warnings(k, vm, answers) <==> exists i: nat :: i < k && Tells(w, i, vm, answers)
  {
    if k > 0 {
      WarningsSayHow(k - 1, vm, answers, w);
      assert w in Warnings(k, vm, answers) <==> w in Warnings(k - 1, vm, answers) || Tells(w, k - 1, vm, answers);
      hide Warnings, Tells;
      if i: nat :| i < k && Tells(w, i, vm, answers) { assert i < k - 1 || i == k - 1; }
    }
  }

  /** The report's two lists split the seven steps, in order and without overlap. */
  lemma ReportPartition(vm: string, answers: StepAnswers)
    ensures Merges(Completed(7, vm, answers), Failed(7, vm, answers), STEPS)
    ensures forall s :: s in STEPS <==> s in Completed(7, vm, answers) || s in Failed(7, vm, answers)
    ensures forall s :: s in Completed(7, vm, answers) ==> s !in Failed(7, vm, answers)
  {
    StepsMerge(7, vm, answers);
    assert STEPS[..7] == STEPS;
    MergedPartsAreDisjoint(Completed(7, vm, answers), Failed(7, vm, answers), STEPS);
  }

  /** The host after the seven steps, for all answers: each removal that takes effect clears its own resource. */
  lemma StepsClean(h: HostData, id: string, vm: string, answers: StepAnswers)
    ensures
      var after := HostAfter(7, h, id, vm, answers);
      var disk := DiskPath(h.snapshots, id);
      && after.snapshots == h.snapshots
      && after.files == (if answers(2).done || (vm != "" && answers(4).disk) then h.files - {disk} else h.files)
      && after.switches == (if answers(3).done then h.switches - {SwitchName(id)} else h.switches)
      && after.vms == (if vm != "" && answers(4).done then h.vms - {vm} else h.vms)
  {
    var h1 := HostAfter(1, h, id, vm, answers);
    var h2 := HostAfter(2, h, id, vm, answers);
    var h3 := HostAfter(3, h, id, vm, answers);
    var h4 := HostAfter(4, h, id, vm, answers);
    var h5 := HostAfter(5, h, id, vm, answers);
    var h6 := HostAfter(6, h, id, vm, answers);
    assert h1 == StepHost(0, HostAfter(0, h, id, vm, answers), id, vm, answers) == h;
    assert h2 == StepHost(1, h1, id, vm, answers) == h;
    assert h3 == StepHost(2, h2, id, vm, answers);
    assert h4 == StepHost(3, h3, id, vm, answers);
    assert h5 == StepHost(4, h4, id, vm, answers);
    assert h6 == StepHost(5, h5, id, vm, answers) == h5;
  }

  class DecontaminationRunner {
    const id: string
    const vmName: string
    const host: Backend
    const verifier: IntegrityVerifier

    constructor (id: string, vmName: string, host: Backend, verifier: IntegrityVerifier)
      ensures this.id == id && this.vmName == vmName && this.host == host && this.verifier == verifier
    {
      this.id, this.vmName, this.host, this.verifier := id, vmName, host, verifier;
    }

    method Step(i: nat, answers: StepAnswers) returns (r: Reply)
      modifies host
      ensures host.Data() == StepHost(i, old(host.Data()), id, vmName, answers)
      ensures r == StepReply(i, vmName, answers)
    {
      if i == 2 {
        r := host.DeleteFile(DiskPath(host.snapshots, id), answers(2));
      } else if i == 3 {
        r := host.RemoveSwitch(SwitchName(id), answers(3));
      } else if i == 4 && vmName != "" {
        r := host.RemoveVm(vmName, DiskPath(host.snapshots, id), answers(4));
      } else {
        r := StepReply(i, vmName, answers);
      }
    }

    /** Runs every step, catching each failure, and succeeds iff none failed and all baselines match. */
    method Run(answers: StepAnswers) returns (report: Report)
      modifies host, verifier`history
      ensures host.Data() == HostAfter(7, old(host.Data()), id, vmName, answers)
      ensures report.completed == Completed(7, vmName, answers)
      ensures report.failed == Failed(7, vmName, answers)
      ensures report.warnings == Warnings(7, vmName, answers)
      ensures report.checks == Checks(verifier.baseline, CurrentHashes(), CRITICAL_COMPONENTS)
      ensures report.success <==> AllStepsPass(vmName, answers) && FullBaseline(verifier.baseline)
      ensures verifier.history == old(verifier.history) + report.checks
    {
      var completed, failed, warnings := [], [], [];
      for i := 0 to |STEPS|
        invariant host.Data() == HostAfter(i, old(host.Data()), id, vmName, answers)
        invariant completed == Completed(i, vmName, answers)
        invariant failed == Failed(i, vmName, answers)
        invariant warnings == Warnings(i, vmName, answers)
        invariant verifier.history == old(verifier.history)
      {
        var r := Step(i, answers);
        match r {
          case Yes =>
            completed := completed + [STEPS[i]];
          case No =>
            failed := failed + [STEPS[i]];
            warnings := warnings + [ReturnedFalse(STEPS[i])];
          case Raises =>
            failed := failed + [STEPS[i]];
            warnings := warnings + [RaisedIn(STEPS[i])];
        }
      }
      var allPassed, checks := verifier.VerifyAll(CurrentHashes());
      report := Report(completed, failed, warnings, checks, |failed| == 0 && allPassed);
      WarningsMatchFailures(7, vmName, answers);
      MatchesCurrentIffFull(verifier.baseline);
    }
  }
}
