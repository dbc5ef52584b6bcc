// Reaping abandoned rows and the host resources they name: what one pass does,
// and what holds over a pass and over the next one.
module Reaping {
  import opened Basics
  import opened Host
  import opened Store
  import opened Lifecycle

  /** Refused even when asked for. */
  const NEVER_REAP: set<BunkerState> := {Initializing, Ready, Active, Quarantine, BunkerState.Destroyed}

  datatype Options = Options(execute: bool, selected: set<BunkerState>, olderThanHours: real, keepOnFailure: bool, now: real)

  /** What happens while one row is torn down. */
  datatype RowAnswers = RowAnswers(vm: Answer, sw: Answer, disk: Answer, deleteRaises: bool)

  /** The answers met for each bunker id. */
  type Answers = string -> RowAnswers

  datatype Resource = VmNamed(name: string) | SwitchNamed(name: string) | DiskAt(path: Path)

  datatype Residual = NotRemoved(what: Resource) | RaisedOn(what: Resource)

  datatype Note = NoNote | RowKept | DeleteFailed

  datatype Outcome = Outcome(
    id: string, state: StateColumn, updatedAt: Stamp, ageHours: real,
    removed: seq<Resource>, residual: seq<Residual>, rowDeleted: bool, note: Note)

  datatype Report = Report(scanned: nat, skippedState: nat, skippedRecent: nat, candidates: seq<Outcome>)

  datatype Pass = Pass(host: HostData, rows: Rows, report: Report)

  datatype Class = WrongState | TooRecent | Candidate

  function AgeHours(updatedAt: Stamp, now: real): Option<real> {
    if updatedAt.At? then Some((now - updatedAt.time) / 3600.0) else None
  }

  function Classify(e: Entry, o: Options): Class {
    if e.state.Unrecognised? || e.state.state in NEVER_REAP || e.state.state !in o.selected then WrongState
    else
      var age := AgeHours(e.updatedAt, o.now);
      if o.olderThanHours > 0.0 && (age.None? || age.value < o.olderThanHours) then TooRecent else Candidate
  }

  lemma NeverReapIsTheRest(s: BunkerState)
    ensures s in NEVER_REAP <==> s !in {Error, Terminating, Decontaminating}
  {
    match s {
      case Error =>
      case Terminating =>
      case Decontaminating =>
      case _ => assert s.Initializing? || s.Ready? || s.Active? || s.Quarantine? || s.Destroyed?;
    }
  }

  /**
    A row is a candidate exactly when its state is one of the three abandoned ones, was asked for, and, if an age is
    asked for, its last update is known and at least that old.
   */
  lemma CandidateMeans(e: Entry, o: Options)
    ensures Classify(e, o).Candidate? <==>
      && e.state.Named? && e.state.state in o.selected && e.state.state in {Error, Terminating, Decontaminating}
      && (o.olderThanHours > 0.0 ==> e.updatedAt.At? && e.updatedAt.time + 3600.0 * o.olderThanHours <= o.now)
  {
    if e.state.Named? { NeverReapIsTheRest(e.state.state); }
  }

  // ---- one row ----

  datatype Work = Work(host: HostData, removed: seq<Resource>, residual: seq<Residual>)

  /** Records one teardown step: only a True answer counts as removed. */
  function Recorded(w: Work, what: Resource, r: Reply): Work {
    match r
    case Yes => w.(removed := w.removed + [what])
    case No => w.(residual := w.residual + [NotRemoved(what)])
    case Raises => w.(residual := w.residual + [RaisedOn(what)])
  }

  function RowVm(row: Option<Row>): string { if row.None? then "" else NameOr(row.value.vmName) }

  function RowSwitch(row: Option<Row>): string { if row.None? then "" else NameOr(row.value.switchName) }

  function VmTorn(w: Work, id: string, row: Option<Row>, a: RowAnswers): Work {
    if RowVm(row) == "" then w
    else Recorded(w.(host := w.host.RemoveVm(RowVm(row), DiskPath(w.host.snapshots, id), a.vm)), VmNamed(RowVm(row)), a.vm.reply)
  }

  function SwitchTorn(w: Work, row: Option<Row>, a: RowAnswers): Work {
    if RowSwitch(row) == "" then w
    else Recorded(w.(host := w.host.RemoveSwitch(RowSwitch(row), a.sw)), SwitchNamed(RowSwitch(row)), a.sw.reply)
  }

  /** The disk is only touched when it lies in the snapshots directory. */
  function DiskTorn(w: Work, id: string, a: RowAnswers): Work {
    var disk := DiskPath(w.host.snapshots, id);
    if !Confined(w.host.snapshots, disk) || disk !in w.host.files then w
    else Recorded(w.(host := w.host.DeleteFile(disk, a.disk)), DiskAt(disk), a.disk.reply)
  }

  function Torn(host: HostData, id: string, row: Option<Row>, a: RowAnswers): Work {
    DiskTorn(SwitchTorn(VmTorn(Work(host, [], []), id, row, a), row, a), id, a)
  }

  ghost predicate Accounts(removed: seq<Resource>, residual: seq<Residual>, what: Resource) {
    what in removed || exists r :: r in residual && r.what == what
  }

  ghost predicate Lists(w: Work, what: Resource) { Accounts(w.removed, w.residual, what) }

  /** `w` after one step: everything recorded stays recorded, and a residual appears iff the answer is not True. */
  ghost predicate Extends(w: Work, w': Work) {
    && w.removed <= w'.removed && w.residual <= w'.residual
    && forall x :: Lists(w, x) ==> Lists(w', x)
  }

  lemma VmTornFacts(w: Work, id: string, row: Option<Row>, a: RowAnswers)
    ensures var w' := VmTorn(w, id, row, a);
      && Extends(w, w') && w'.host.snapshots == w.host.snapshots
      && (RowVm(row) != "" ==> Lists(w', VmNamed(RowVm(row))))
      && (w'.residual == w.residual <==> RowVm(row) == "" || a.vm.reply.Yes?)
      && w'.host.files == w.host.files - (if RowVm(row) != "" && a.vm.disk then {DiskPath(w.host.snapshots, id)} else {})
  {
    hide DiskPath;
    RecordedAccounts(w.(host := VmTorn(w, id, row, a).host), VmNamed(RowVm(row)), a.vm.reply);
  }

  lemma SwitchTornFacts(w: Work, row: Option<Row>, a: RowAnswers)
    ensures var w' := SwitchTorn(w, row, a);
      && Extends(w, w') && w'.host.snapshots == w.host.snapshots && w'.host.files == w.host.files
      && (RowSwitch(row) != "" ==> Lists(w', SwitchNamed(RowSwitch(row))))
      && (w'.residual == w.residual <==> RowSwitch(row) == "" || a.sw.reply.Yes?)
  {
    RecordedAccounts(w.(host := SwitchTorn(w, row, a).host), SwitchNamed(RowSwitch(row)), a.sw.reply);
  }

  lemma DiskTornFacts(w: Work, id: string, a: RowAnswers)
    ensures var w' := DiskTorn(w, id, a);
      var disk := DiskPath(w.host.snapshots, id);
      var reached := disk in w.host.files && Confined(w.host.snapshots, disk);
      && Extends(w, w')
      && (reached ==> Lists(w', DiskAt(disk)))
      && (w'.residual == w.residual <==> !reached || a.disk.reply.Yes?)
  {
    hide DiskPath, Confined;
    RecordedAccounts(w.(host := DiskTorn(w, id, a).host), DiskAt(DiskPath(w.host.snapshots, id)), a.disk.reply);
  }

  /** The disk is there when its turn comes: it exists, lies in the directory and did not go with the VM. */
  ghost predicate DiskIsReached(host: HostData, id: string, row: Option<Row>, a: RowAnswers) {
    && DiskPath(host.snapshots, id) in host.files && Confined(host.snapshots, DiskPath(host.snapshots, id))
    && !(RowVm(row) != "" && a.vm.disk)
  }

  /**
    Every resource the row names, and its disk if it is reached, ends up in one of the two lists; there is no residual
    exactly when every call made answered True.
   */
  lemma TornAccountsForAll(host: HostData, id: string, row: Option<Row>, a: RowAnswers)
    ensures var w := Torn(host, id, row, a);
      && (RowVm(row) != "" ==> Lists(w, VmNamed(RowVm(row))))
      && (RowSwitch(row) != "" ==> Lists(w, SwitchNamed(RowSwitch(row))))
      && (DiskIsReached(host, id, row, a) ==> Lists(w, DiskAt(DiskPath(host.snapshots, id))))
      && (w.residual == [] <==>
            && (RowVm(row) != "" ==> a.vm.reply.Yes?)
            && (RowSwitch(row) != "" ==> a.sw.reply.Yes?)
            && (DiskIsReached(host, id, row, a) ==> a.disk.reply.Yes?))
  {
    hide DiskPath, Confined, Lists, Recorded;
    var w0 := Work(host, [], []);
    var w1 := VmTorn(w0, id, row, a);
    var w2 := SwitchTorn(w1, row, a);
    VmTornFacts(w0, id, row, a);
    SwitchTornFacts(w1, row, a);
    DiskTornFacts(w2, id, a);
    assert w2.host.files == host.files - (if RowVm(row) != "" && a.vm.disk then {DiskPath(host.snapshots, id)} else {});
  }

  /** A True answer is a removal, a False one a resource not removed, an exception a resource it was raised on. */
  lemma RecordedSays(w: Work, what: Resource, r: Reply)
    ensures var w' := Recorded(w, what, r);
      && w'.host == w.host
      && (forall x :: x in w'.removed <==> x in w.removed || (x == what && r.Yes?))
      && (forall y :: y in w'.residual <==>
            y in w.residual || (y == NotRemoved(what) && r.No?) || (y == RaisedOn(what) && r.Raises?))
  {
  }

  lemma VmTornSays(w: Work, id: string, row: Option<Row>, a: RowAnswers)
    ensures var w', vm := VmTorn(w, id, row, a), RowVm(row);
      && (forall x :: x in w'.removed <==> x in w.removed || (x == VmNamed(vm) && vm != "" && a.vm.reply.Yes?))
      && (forall y :: y in w'.residual <==>
            || y in w.residual
            || (y == NotRemoved(VmNamed(vm)) && vm != "" && a.vm.reply.No?)
            || (y == RaisedOn(VmNamed(vm)) && vm != "" && a.vm.reply.Raises?))
  {
    hide DiskPath, Recorded;
    RecordedSays(w.(host := w.host.RemoveVm(RowVm(row), DiskPath(w.host.snapshots, id), a.vm)), VmNamed(RowVm(row)), a.vm.reply);
  }

  lemma SwitchTornSays(w: Work, row: Option<Row>, a: RowAnswers)
    ensures var w', sw := SwitchTorn(w, row, a), RowSwitch(row);
      && (forall x :: x in w'.removed <==> x in w.removed || (x == SwitchNamed(sw) && sw != "" && a.sw.reply.Yes?))
      && (forall y :: y in w'.residual <==>
            || y in w.residual
            || (y == NotRemoved(SwitchNamed(sw)) && sw != "" && a.sw.reply.No?)
            || (y == RaisedOn(SwitchNamed(sw)) && sw != "" && a.sw.reply.Raises?))
  {
    hide Recorded;
    RecordedSays(w.(host := w.host.RemoveSwitch(RowSwitch(row), a.sw)), SwitchNamed(RowSwitch(row)), a.sw.reply);
  }

  lemma DiskTornSays(w: Work, id: string, a: RowAnswers)
    ensures var w', disk := DiskTorn(w, id, a), DiskPath(w.host.snapshots, id);
      var reached := disk in w.host.files && Confined(w.host.snapshots, disk);
      && (forall x :: x in w'.removed <==> x in w.removed || (x == DiskAt(disk) && reached && a.disk.reply.Yes?))
      && (forall y :: y in w'.residual <==>
            || y in w.residual
            || (y == NotRemoved(DiskAt(disk)) && reached && a.disk.reply.No?)
            || (y == RaisedOn(DiskAt(disk)) && reached && a.disk.reply.Raises?))
  {
    hide DiskPath, Confined, Recorded;
    var disk := DiskPath(w.host.snapshots, id);
    RecordedSays(w.(host := w.host.DeleteFile(disk, a.disk)), DiskAt(disk), a.disk.reply);
  }

  /** The row's VM and switch and its disk if reached: what a call is made for. */
  ghost predicate Called(what: Resource, host: HostData, id: string, row: Option<Row>, a: RowAnswers) {
    match what
    case VmNamed(name) => name == RowVm(row) != ""
    case SwitchNamed(name) => name == RowSwitch(row) != ""
    case DiskAt(path) => path == DiskPath(host.snapshots, id) && DiskIsReached(host, id, row, a)
  }

  function ReplyFor(what: Resource, a: RowAnswers): Reply {
    match what
    case VmNamed(_) => a.vm.reply
    case SwitchNamed(_) => a.sw.reply
    case DiskAt(_) => a.disk.reply
  }

  /** Exactly the resources a call is made for are reported, each as its own call was answered. */
  lemma TornReports(host: HostData, id: string, row: Option<Row>, a: RowAnswers, what: Resource)
    ensures var w := Torn(host, id, row, a);
      && (what in w.removed <==> Called(what, host, id, row, a) && ReplyFor(what, a).Yes?)
      && (NotRemoved(what) in w.residual <==> Called(what, host, id, row, a) && ReplyFor(what, a).No?)
      && (RaisedOn(what) in w.residual <==> Called(what, host, id, row, a) && ReplyFor(what, a).Raises?)
  {
    hide DiskPath, Confined, VmTorn, SwitchTorn, DiskTorn;
    var w0 := Work(host, [], []);
    var w1 := VmTorn(w0, id, row, a);
    var w2 := SwitchTorn(w1, row, a);
    VmTornFacts(w0, id, row, a);
    SwitchTornFacts(w1, row, a);
    VmTornSays(w0, id, row, a);
    SwitchTornSays(w1, row, a);
    DiskTornSays(w2, id, a);
  }

  lemma RecordedAccounts(w: Work, what: Resource, r: Reply)
    ensures Lists(Recorded(w, what, r), what)
    ensures Extends(w, Recorded(w, what, r))
    ensures Recorded(w, what, r).residual == w.residual <==> r.Yes?
  {
    var w' := Recorded(w, what, r);
    match r {
      case Yes => assert w'.removed[|w.removed|] == what;
      case No => assert w'.residual[|w.residual|].what == what;
      case Raises => assert w'.residual[|w.residual|].what == what;
    }
  }

  // ---- one pass ----

  /** What the pass makes of the next listed row; the row is loaded again before it is torn down. */
  function Visit(p: Pass, e: Entry, o: Options, answers: Answers): Pass {
    var r := p.report.(scanned := p.report.scanned + 1);
    match Classify(e, o)
    case WrongState => p.(report := r.(skippedState := r.skippedState + 1))
    case TooRecent => p.(report := r.(skippedRecent := r.skippedRecent + 1))
    case Candidate =>
      var age := AgeHours(e.updatedAt, o.now);
      var blank := Outcome(e.id, e.state, e.updatedAt, if age.Some? then age.value else -1.0, [], [], false, NoNote);
      if !o.execute then p.(report := r.(candidates := r.candidates + [blank]))
      else Reaped(p.(report := r), e, blank, o, answers(e.id))
  }

  function Reaped(p: Pass, e: Entry, blank: Outcome, o: Options, a: RowAnswers): Pass {
    var w := Torn(p.host, e.id, if e.id in p.rows then Some(p.rows[e.id]) else None, a);
    var torn := blank.(removed := w.removed, residual := w.residual);
    var keep := w.residual != [] && o.keepOnFailure;
    var done :=
      if keep then torn.(note := RowKept)
      else if a.deleteRaises then torn.(note := DeleteFailed)
      else torn.(rowDeleted := e.id in p.rows);
    Pass(w.host, if keep || a.deleteRaises then p.rows else p.rows - {e.id},
         p.report.(candidates := p.report.candidates + [done]))
  }

  function ReapPass(host: HostData, rows: Rows, entries: seq<Entry>, o: Options, answers: Answers): Pass {
    if entries == [] then Pass(host, rows, Report(0, 0, 0, []))
    else Visit(ReapPass(host, rows, entries[..|entries| - 1], o, answers), entries[|entries| - 1], o, answers)
  }

  // ---- what a pass adds up to ----

  /** The ids the pass considers, in order. */
  function CandidateIds(entries: seq<Entry>, o: Options): seq<string> {
    if entries == [] then []
    else
      var last := entries[|entries| - 1];
      CandidateIds(entries[..|entries| - 1], o) + if Classify(last, o).Candidate? then [last.id] else []
  }

  function IdsOf(candidates: seq<Outcome>): seq<string> {
    seq(|candidates|, i requires 0 <= i < |candidates| => candidates[i].id)
  }

  function Deleted(candidates: seq<Outcome>): set<string> {
    set c | c in candidates && c.rowDeleted :: c.id
  }

  /** How many rows of that class are listed. */
  function CountOf(entries: seq<Entry>, o: Options, kind: Class): nat {
    if entries == [] then 0
    else CountOf(entries[..|entries| - 1], o, kind) + if Classify(entries[|entries| - 1], o) == kind then 1 else 0
  }

  /** A row is passed over for its state before its age is looked at. */
  lemma PassedOverMeans(e: Entry, o: Options)
    ensures Classify(e, o).WrongState? <==>
      !(e.state.Named? && e.state.state in o.selected && e.state.state in {Error, Terminating, Decontaminating})
    ensures Classify(e, o).TooRecent? <==>
      && e.state.Named? && e.state.state in o.selected && e.state.state in {Error, Terminating, Decontaminating}
      && o.olderThanHours > 0.0
      && (e.updatedAt.At? ==> o.now < e.updatedAt.time + 3600.0 * o.olderThanHours)
  {
    if e.state.Named? { NeverReapIsTheRest(e.state.state); }
  }

  /** The candidate shows what its listed row says: state, stamp and age in hours, or -1 where the age is unknown. */
  predicate Describes(c: Outcome, e: Entry, o: Options) {
    && c.id == e.id && c.state == e.state && c.updatedAt == e.updatedAt
    && (if e.updatedAt.At? then c.ageHours * 3600.0 == o.now - e.updatedAt.time else c.ageHours == -1.0)
  }

  /** In every pass, dry or not, each candidate describes its own row. */
  lemma {:induction false} CandidatesDescribe(host: HostData, rows: Rows, entries: seq<Entry>, o: Options, answers: Answers, c: Outcome)
    requires c in ReapPass(host, rows, entries, o, answers).report.candidates
    ensures exists e :: e in entries && Describes(c, e, o)
  {
    hide Torn;
    var init, last := entries[..|entries| - 1], entries[|entries| - 1];
    if c in ReapPass(host, rows, init, o, answers).report.candidates {
      CandidatesDescribe(host, rows, init, o, answers, c);
      var e :| e in init && Describes(c, e, o);
      assert e in entries;
    } else {
      assert Describes(c, last, o);
    }
  }

  /** The counters add up, and the candidates are exactly the eligible rows, in listing order. */
  lemma {:induction false} PassAccounting(host: HostData, rows: Rows, entries: seq<Entry>, o: Options, answers: Answers)
    ensures var r := ReapPass(host, rows, entries, o, answers).report;
      && r.scanned == |entries| == r.skippedState + r.skippedRecent + |r.candidates|
      && IdsOf(r.candidates) == CandidateIds(entries, o)
  {
    hide Torn;
    if entries != [] {
      var init, last := entries[..|entries| - 1], entries[|entries| - 1];
      PassAccounting(host, rows, init, o, answers);
      var before, after := ReapPass(host, rows, init, o, answers).report, ReapPass(host, rows, entries, o, answers).report;
      if Classify(last, o).Candidate? {
        assert after.candidates[..|before.candidates|] == before.candidates;
        assert IdsOf(after.candidates) == IdsOf(before.candidates) + [last.id];
      }
    }
  }

  /** Each counter counts its own kind of row. */
  lemma {:induction false} PassCounts(host: HostData, rows: Rows, entries: seq<Entry>, o: Options, answers: Answers)
    ensures var r := ReapPass(host, rows, entries, o, answers).report;
      && r.skippedState == CountOf(entries, o, WrongState) && r.skippedRecent == CountOf(entries, o, TooRecent)
  {
    hide Torn, Classify;
    if entries != [] {
      PassCounts(host, rows, entries[..|entries| - 1], o, answers);
    }
  }

  /** A dry run touches neither the host nor the store, and reports nothing done. */
  lemma {:induction false} DryRunIsInert(host: HostData, rows: Rows, entries: seq<Entry>, o: Options, answers: Answers)
    requires !o.execute
    ensures var p := ReapPass(host, rows, entries, o, answers);
      && p.host == host && p.rows == rows
      && forall c :: c in p.report.candidates ==> c.removed == [] && c.residual == [] && !c.rowDeleted && c.note.NoNote?
  {
    hide Torn, Reaped;
    if entries != [] {
      DryRunIsInert(host, rows, entries[..|entries| - 1], o, answers);
    }
  }

  // ---- what tearing one row down clears, and what it leaves alone ----

  /** Tearing the row of `id` down deletes its disk: with the VM, or by the guarded delete_file. */
  predicate DeletesDisk(snapshots: Path, id: string, row: Option<Row>, a: RowAnswers) {
    (RowVm(row) != "" && a.vm.disk) || (Confined(snapshots, DiskPath(snapshots, id)) && a.disk.done)
  }

  /** The host after a teardown, exactly. */
  lemma TornHost(host: HostData, id: string, row: Option<Row>, a: RowAnswers)
    ensures Torn(host, id, row, a).host == host.(
      vms := Dropping(host.vms, RowVm(row) != "" && a.vm.done, RowVm(row)),
      switches := Dropping(host.switches, RowSwitch(row) != "" && a.sw.done, RowSwitch(row)),
      files := Dropping(host.files, DeletesDisk(host.snapshots, id, row, a), DiskPath(host.snapshots, id)))
  {
    hide DiskPath, Confined;
    var w0 := Work(host, [], []);
    var w1 := VmTorn(w0, id, row, a);
    assert w1.host == host.(vms := Dropping(host.vms, RowVm(row) != "" && a.vm.done, RowVm(row)),
                            files := Dropping(host.files, RowVm(row) != "" && a.vm.disk, DiskPath(host.snapshots, id)));
    var w2 := SwitchTorn(w1, row, a);
    assert w2.host == w1.host.(switches := Dropping(host.switches, RowSwitch(row) != "" && a.sw.done, RowSwitch(row)));
    var w3 := DiskTorn(w2, id, a);
    assert w3.host.vms == w2.host.vms && w3.host.switches == w2.host.switches && w3.host.snapshots == host.snapshots;
  }

  /** The resource is one the row names, or its disk in the snapshots directory. */
  predicate Belongs(what: Resource, snapshots: Path, id: string, row: Option<Row>) {
    match what
    case VmNamed(name) => name == RowVm(row) != ""
    case SwitchNamed(name) => name == RowSwitch(row) != ""
    case DiskAt(path) => path == DiskPath(snapshots, id) && Confined(snapshots, path)
  }

  lemma RecordedLists(w: Work, what: Resource, r: Reply, x: Resource)
    ensures Lists(Recorded(w, what, r), x) <==> Lists(w, x) || x == what
  {
    RecordedAccounts(w, what, r);
    match r {
      case Yes =>
      case No => assert forall y :: y in w.residual + [NotRemoved(what)] <==> y in w.residual || y == NotRemoved(what);
      case Raises => assert forall y :: y in w.residual + [RaisedOn(what)] <==> y in w.residual || y == RaisedOn(what);
    }
  }

  lemma VmTornLists(w: Work, id: string, row: Option<Row>, a: RowAnswers, x: Resource)
    requires Lists(VmTorn(w, id, row, a), x)
    ensures Lists(w, x) || (RowVm(row) != "" && x == VmNamed(RowVm(row)))
  {
    hide Lists, Recorded, DiskPath;
    var v := w.(host := w.host.RemoveVm(RowVm(row), DiskPath(w.host.snapshots, id), a.vm));
    RecordedLists(v, VmNamed(RowVm(row)), a.vm.reply, x);
    ListsIgnoresHost(w, v.host, x);
  }

  lemma SwitchTornLists(w: Work, row: Option<Row>, a: RowAnswers, x: Resource)
    requires Lists(SwitchTorn(w, row, a), x)
    ensures Lists(w, x) || (RowSwitch(row) != "" && x == SwitchNamed(RowSwitch(row)))
  {
    hide Lists, Recorded;
    var v := w.(host := w.host.RemoveSwitch(RowSwitch(row), a.sw));
    RecordedLists(v, SwitchNamed(RowSwitch(row)), a.sw.reply, x);
    ListsIgnoresHost(w, v.host, x);
  }

  lemma DiskTornLists(w: Work, id: string, a: RowAnswers, x: Resource)
    requires Lists(DiskTorn(w, id, a), x)
    ensures Lists(w, x)
      || (Confined(w.host.snapshots, DiskPath(w.host.snapshots, id)) && x == DiskAt(DiskPath(w.host.snapshots, id)))
  {
    hide Lists, Recorded, DiskPath, Confined;
    var disk := DiskPath(w.host.snapshots, id);
    var v := w.(host := w.host.DeleteFile(disk, a.disk));
    RecordedLists(v, DiskAt(disk), a.disk.reply, x);
    ListsIgnoresHost(w, v.host, x);
  }

  lemma ListsIgnoresHost(w: Work, host: HostData, x: Resource)
    ensures Lists(w.(host := host), x) <==> Lists(w, x)
  {
  }

  /** The two lists name nothing that is not the row's own. */
  lemma TornListsOwn(host: HostData, id: string, row: Option<Row>, a: RowAnswers, what: Resource)
    requires Lists(Torn(host, id, row, a), what)
    ensures Belongs(what, host.snapshots, id, row)
  {
    hide DiskPath, Confined, VmTorn, SwitchTorn, DiskTorn;
    var w0 := Work(host, [], []);
    var w1 := VmTorn(w0, id, row, a);
    var w2 := SwitchTorn(w1, row, a);
    VmTornFacts(w0, id, row, a);
    SwitchTornFacts(w1, row, a);
    DiskTornLists(w2, id, a, what);
    if Lists(w2, what) {
      SwitchTornLists(w1, row, a, what);
      if Lists(w1, what) { VmTornLists(w0, id, row, a, what); }
    }
  }

  /** A True answer is a real removal. */
  predicate Truthful(a: RowAnswers) {
    (a.vm.reply.Yes? ==> a.vm.done) && (a.sw.reply.Yes? ==> a.sw.done) && (a.disk.reply.Yes? ==> a.disk.done)
  }

  /** Nothing the row names is on the host, nor its disk in the snapshots directory. */
  predicate Cleared(host: HostData, id: string, row: Row) {
    && (NameOr(row.vmName) != "" ==> NameOr(row.vmName) !in host.vms)
    && (NameOr(row.switchName) != "" ==> NameOr(row.switchName) !in host.switches)
    && (Confined(host.snapshots, DiskPath(host.snapshots, id)) ==> DiskPath(host.snapshots, id) !in host.files)
  }

  /** Without residuals, and with truthful answers, nothing of the row is left. */
  lemma NoResidualMeansCleared(host: HostData, id: string, row: Row, a: RowAnswers)
    requires Torn(host, id, Some(row), a).residual == [] && Truthful(a)
    ensures Cleared(Torn(host, id, Some(row), a).host, id, row)
  {
    hide DiskPath, Confined, Torn, Lists;
    TornAccountsForAll(host, id, Some(row), a);
    TornHost(host, id, Some(row), a);
  }

  // ---- an executing pass ----

  /** No other eligible row shares the disk of `id`. */
  ghost predicate OwnsDisk(snapshots: Path, id: string, rows: Rows, o: Options) {
    forall other :: other in rows && other != id && Classify(EntryOf(other, rows[other]), o).Candidate? ==>
      DiskPath(snapshots, other) != DiskPath(snapshots, id)
  }

  /** What is true of a candidate of an executing pass over `rows` on `host`. */
  ghost predicate FairlyReaped(c: Outcome, host: HostData, rows: Rows, o: Options, answers: Answers) {
    && c.id in rows
    && Classify(EntryOf(c.id, rows[c.id]), o).Candidate?
    && (c.rowDeleted <==> !(c.residual != [] && o.keepOnFailure) && !answers(c.id).deleteRaises)
    && (c.note.RowKept? <==> c.residual != [] && o.keepOnFailure)
    && (c.note.DeleteFailed? <==> !(c.residual != [] && o.keepOnFailure) && answers(c.id).deleteRaises)
    && ListsResources(c, host, rows[c.id], OwnsDisk(host.snapshots, c.id, rows, o), answers(c.id))
  }

  /** The named VM and switch, and the existing confined disk unless it went with the VM, are removed or residual. */
  ghost predicate ListsResources(c: Outcome, host: HostData, row: Row, own: bool, a: RowAnswers) {
    && (NameOr(row.vmName) != "" ==> Accounts(c.removed, c.residual, VmNamed(NameOr(row.vmName))))
    && (NameOr(row.switchName) != "" ==> Accounts(c.removed, c.residual, SwitchNamed(NameOr(row.switchName))))
    && (own && DiskIsReached(host, c.id, Some(row), a) ==>
          Accounts(c.removed, c.residual, DiskAt(DiskPath(host.snapshots, c.id))))
  }

  /** One candidate of an executing pass, whose disk is still as it was if it is its own. */
  lemma ReapedFacts(p: Pass, e: Entry, host: HostData, rows: Rows, o: Options, answers: Answers)
    requires o.execute && Classify(e, o).Candidate?
    requires e.id in rows && e == EntryOf(e.id, rows[e.id])
    requires e.id in p.rows && p.rows[e.id] == rows[e.id]
    requires p.host.snapshots == host.snapshots
    requires OwnsDisk(host.snapshots, e.id, rows, o) && DiskPath(host.snapshots, e.id) in host.files ==>
      DiskPath(host.snapshots, e.id) in p.host.files
    ensures var q := Visit(p, e, o, answers);
      && |q.report.candidates| == |p.report.candidates| + 1
      && var c := q.report.candidates[|p.report.candidates|];
        && q.report.candidates == p.report.candidates + [c]
        && c.id == e.id && FairlyReaped(c, host, rows, o, answers)
        && q.rows == (if c.rowDeleted then p.rows - {e.id} else p.rows)
        && c.residual == Torn(p.host, e.id, Some(p.rows[e.id]), answers(e.id)).residual
        && q.host == Torn(p.host, e.id, Some(p.rows[e.id]), answers(e.id)).host
  {
    hide Torn, Accounts, DiskPath, Confined, OwnsDisk;
    TornAccountsForAll(p.host, e.id, Some(p.rows[e.id]), answers(e.id));
  }

  /** The row is torn down by this pass and its disk is at `path`. */
  predicate Reaches(e: Entry, o: Options, snapshots: Path, path: Path) {
    o.execute && Classify(e, o).Candidate? && DiskPath(snapshots, e.id) == path
  }

  /** The pass only ever removes: rows as they were or gone, no new VM, switch or file. */
  ghost predicate Shrinks(host: HostData, rows: Rows, p: Pass) {
    && p.host.snapshots == host.snapshots
    && p.host.vms <= host.vms && p.host.switches <= host.switches && p.host.files <= host.files
    && forall id :: id in p.rows ==> id in rows && p.rows[id] == rows[id]
  }

  lemma VisitShrinks(p: Pass, e: Entry, o: Options, answers: Answers)
    ensures Shrinks(p.host, p.rows, Visit(p, e, o, answers))
  {
    hide Torn, DiskPath, Confined;
    TornHost(p.host, e.id, if e.id in p.rows then Some(p.rows[e.id]) else None, answers(e.id));
  }

  lemma {:induction false} PassShrinks(host: HostData, rows: Rows, entries: seq<Entry>, o: Options, answers: Answers)
    ensures Shrinks(host, rows, ReapPass(host, rows, entries, o, answers))
  {
    hide Visit;
    if entries != [] {
      PassShrinks(host, rows, entries[..|entries| - 1], o, answers);
      VisitShrinks(ReapPass(host, rows, entries[..|entries| - 1], o, answers), entries[|entries| - 1], o, answers);
    }
  }

  lemma {:induction false} UnvisitedRowStays(host: HostData, rows: Rows, entries: seq<Entry>, o: Options, answers: Answers,
                                             id: string)
    requires id in rows && id !in Ids(entries)
    ensures id in ReapPass(host, rows, entries, o, answers).rows
  {
    hide Torn;
    if entries != [] {
      var init, e := entries[..|entries| - 1], entries[|entries| - 1];
      assert entries == init + [e];
      assert forall x :: x in Ids(init) ==> x in Ids(entries);
      assert e.id in Ids(entries);
      UnvisitedRowStays(host, rows, init, o, answers, id);
    }
  }

  lemma LastIdIsNew(entries: seq<Entry>)
    requires entries != [] && forall i, j :: 0 <= i < j < |entries| ==> entries[i].id != entries[j].id
    ensures forall x :: x in entries[..|entries| - 1] ==> x.id != entries[|entries| - 1].id
  {
    var init := entries[..|entries| - 1];
    forall x | x in init ensures x.id != entries[|init|].id {
      var i :| 0 <= i < |init| && init[i] == x;
      assert entries[i] == x;
    }
  }

  /** The row of the entry visited last is still as it was. */
  lemma LastRowStays(host: HostData, rows: Rows, entries: seq<Entry>, o: Options, answers: Answers)
    requires entries != [] && Listed(entries, rows)
    ensures var p, e := ReapPass(host, rows, entries[..|entries| - 1], o, answers), entries[|entries| - 1];
      && e.id in p.rows && p.rows[e.id] == rows[e.id] && e == EntryOf(e.id, rows[e.id])
      && Listed(entries[..|entries| - 1], rows)
      && forall x :: x in entries[..|entries| - 1] ==> x.id != e.id
  {
    var init, e := entries[..|entries| - 1], entries[|entries| - 1];
    LastIdIsNew(entries);
    UnvisitedRowStays(host, rows, init, o, answers, e.id);
    PassShrinks(host, rows, init, o, answers);
  }

  /** Some row of the listing is reached by the pass, has its disk at `path`, and deletes it. */
  ghost predicate Dooms(entries: seq<Entry>, snapshots: Path, rows: Rows, o: Options, answers: Answers, path: Path)
    requires Listed(entries, rows)
  {
    exists e :: e in entries && Reaches(e, o, snapshots, path) && DeletesDisk(snapshots, e.id, Some(rows[e.id]), answers(e.id))
  }

  /** A file survives a pass exactly when none of the rows reaped whose id resolves to it deletes it. */
  lemma {:induction false} DiskSurvivesIff(host: HostData, rows: Rows, entries: seq<Entry>, o: Options, answers: Answers,
                                           path: Path)
    requires Listed(entries, rows) && path in host.files
    ensures path in ReapPass(host, rows, entries, o, answers).host.files <==>
      !Dooms(entries, host.snapshots, rows, o, answers, path)
  {
    if entries != [] {
      var init, e := entries[..|entries| - 1], entries[|entries| - 1];
      LastRowStays(host, rows, entries, o, answers);
      DiskSurvivesIff(host, rows, init, o, answers, path);
      var p := ReapPass(host, rows, init, o, answers);
      PassShrinks(host, rows, init, o, answers);
      VisitDisk(p, e, o, answers, rows, path);
      assert entries == init + [e];
      DoomsSnoc(init, e, host.snapshots, rows, o, answers, path);
    }
  }

  lemma DoomsSnoc(init: seq<Entry>, e: Entry, snapshots: Path, rows: Rows, o: Options, answers: Answers, path: Path)
    requires Listed(init + [e], rows) && Listed(init, rows)
    ensures e.id in rows
    ensures Dooms(init + [e], snapshots, rows, o, answers, path) <==>
      || Dooms(init, snapshots, rows, o, answers, path)
      || (Reaches(e, o, snapshots, path) && DeletesDisk(snapshots, e.id, Some(rows[e.id]), answers(e.id)))
  {
    hide Reaches, DeletesDisk;
    assert e in init + [e];
  }

  lemma VisitDisk(p: Pass, e: Entry, o: Options, answers: Answers, rows: Rows, path: Path)
    requires e.id in rows && e.id in p.rows && p.rows[e.id] == rows[e.id]
    ensures path in Visit(p, e, o, answers).host.files <==>
      && path in p.host.files
      && !(Reaches(e, o, p.host.snapshots, path) && DeletesDisk(p.host.snapshots, e.id, Some(rows[e.id]), answers(e.id)))
  {
    hide Torn, DiskPath, DeletesDisk, Classify;
    TornHost(p.host, e.id, Some(rows[e.id]), answers(e.id));
  }

  /** Some row that is reaped resolves to the path and names a VM or lies in the snapshots directory. */
  ghost predicate Endangers(entries: seq<Entry>, snapshots: Path, rows: Rows, o: Options, path: Path)
    requires Listed(entries, rows)
  {
    exists e :: e in entries && Reaches(e, o, snapshots, path)
      && (NameOr(rows[e.id].vmName) != "" || Confined(snapshots, path))
  }

  /** The worst answers: every removal takes effect, and the disk goes with the VM. */
  function Worst(id: string): RowAnswers {
    RowAnswers(Answer(Yes, true, true), Answer(Yes, true, true), Answer(Yes, true, true), false)
  }

  lemma EndangersIsDoom(entries: seq<Entry>, snapshots: Path, rows: Rows, o: Options, path: Path)
    requires Listed(entries, rows)
    ensures Dooms(entries, snapshots, rows, o, Worst, path) <==> Endangers(entries, snapshots, rows, o, path)
  {
    forall e | e in entries && Reaches(e, o, snapshots, path)
      ensures DeletesDisk(snapshots, e.id, Some(rows[e.id]), Worst(e.id)) <==>
        NameOr(rows[e.id].vmName) != "" || Confined(snapshots, path)
    {
      hide Confined, DiskPath, Listed, Classify;
    }
    hide Reaches, DeletesDisk, Confined, Listed;
  }

  lemma DoomEndangers(entries: seq<Entry>, snapshots: Path, rows: Rows, o: Options, answers: Answers, path: Path)
    requires Listed(entries, rows) && Dooms(entries, snapshots, rows, o, answers, path)
    ensures Endangers(entries, snapshots, rows, o, path)
  {
    hide Confined, DiskPath, Classify;
    var e :| e in entries && Reaches(e, o, snapshots, path)
      && DeletesDisk(snapshots, e.id, Some(rows[e.id]), answers(e.id));
    assert NameOr(rows[e.id].vmName) != "" || Confined(snapshots, path);
  }

  /** From the rows alone: a file survives a pass whatever is answered exactly when no row endangers it. */
  lemma DiskIsSafeIff(host: HostData, rows: Rows, entries: seq<Entry>, o: Options, path: Path)
    requires Listed(entries, rows) && path in host.files
    ensures (forall answers: Answers :: path in ReapPass(host, rows, entries, o, answers).host.files) <==>
      !Endangers(entries, host.snapshots, rows, o, path)
  {
    hide ReapPass, Listed, Dooms, Endangers;
    EndangersIsDoom(entries, host.snapshots, rows, o, path);
    DiskSurvivesIff(host, rows, entries, o, Worst, path);
    forall answers: Answers | !Endangers(entries, host.snapshots, rows, o, path)
      ensures path in ReapPass(host, rows, entries, o, answers).host.files
    {
      DiskSurvivesIff(host, rows, entries, o, answers, path);
      if Dooms(entries, host.snapshots, rows, o, answers, path) {
        DoomEndangers(entries, host.snapshots, rows, o, answers, path);
      }
    }
  }

  /** An owned disk is still there when its row is visited. */
  lemma OwnDiskStays(host: HostData, rows: Rows, entries: seq<Entry>, o: Options, answers: Answers)
    requires o.execute && entries != [] && Listed(entries, rows)
    requires OwnsDisk(host.snapshots, entries[|entries| - 1].id, rows, o)
    requires DiskPath(host.snapshots, entries[|entries| - 1].id) in host.files
    ensures DiskPath(host.snapshots, entries[|entries| - 1].id)
      in ReapPass(host, rows, entries[..|entries| - 1], o, answers).host.files
  {
    var init, e := entries[..|entries| - 1], entries[|entries| - 1];
    LastRowStays(host, rows, entries, o, answers);
    DiskSurvivesIff(host, rows, init, o, answers, DiskPath(host.snapshots, e.id));
    assert forall x :: x in init ==> !Reaches(x, o, host.snapshots, DiskPath(host.snapshots, e.id));
  }

  lemma DeletedSnoc(candidates: seq<Outcome>, c: Outcome)
    ensures Deleted(candidates + [c]) == Deleted(candidates) + if c.rowDeleted then {c.id} else {}
  {
    assert forall x :: x in candidates + [c] <==> x in candidates || x == c;
  }

  lemma IdsSnoc(init: seq<Entry>, e: Entry)
    ensures Ids(init + [e]) == Ids(init) + {e.id}
  {
    assert forall x :: x in init + [e] <==> x in init || x == e;
  }

  /** An executing pass deletes exactly the rows it marks as deleted, and accounts for what each row named. */
  lemma {:induction false} ExecutedPass(host: HostData, rows: Rows, entries: seq<Entry>, o: Options, answers: Answers)
    requires o.execute && Listed(entries, rows)
    ensures var p := ReapPass(host, rows, entries, o, answers);
      && p.rows == rows - Deleted(p.report.candidates)
      && (forall c :: c in p.report.candidates ==> c.id in Ids(entries) && FairlyReaped(c, host, rows, o, answers))
  {
    hide Torn, Reaped, FairlyReaped, DiskPath, OwnsDisk, Listed, Classify;
    if entries != [] {
      var init, e := entries[..|entries| - 1], entries[|entries| - 1];
      LastRowStays(host, rows, entries, o, answers);
      ExecutedPass(host, rows, init, o, answers);
      var p := ReapPass(host, rows, init, o, answers);
      var q := Visit(p, e, o, answers);
      assert entries == init + [e];
      IdsSnoc(init, e);
      if Classify(e, o).Candidate? {
        hide Visit;
        assert e.id !in Deleted(p.report.candidates);
        PassShrinks(host, rows, init, o, answers);
        if OwnsDisk(host.snapshots, e.id, rows, o) && DiskPath(host.snapshots, e.id) in host.files {
          OwnDiskStays(host, rows, entries, o, answers);
        }
        ReapedFacts(p, e, host, rows, o, answers);
        var c := q.report.candidates[|p.report.candidates|];
        DeletedSnoc(p.report.candidates, c);
      }
    }
  }

  /** A row reaped without residuals leaves nothing on the host, if True answers are real removals. */
  lemma {:induction false} CleanReap(host: HostData, rows: Rows, entries: seq<Entry>, o: Options, answers: Answers)
    requires o.execute && Listed(entries, rows)
    ensures var p := ReapPass(host, rows, entries, o, answers);
      forall c :: c in p.report.candidates && c.residual == [] && Truthful(answers(c.id)) ==>
        c.id in rows && Cleared(p.host, c.id, rows[c.id])
  {
    hide Torn, FairlyReaped, DiskPath, Confined, OwnsDisk, Truthful;
    if entries != [] {
      var init, e := entries[..|entries| - 1], entries[|entries| - 1];
      LastRowStays(host, rows, entries, o, answers);
      CleanReap(host, rows, init, o, answers);
      var p := ReapPass(host, rows, init, o, answers);
      var q := Visit(p, e, o, answers);
      VisitShrinks(p, e, o, answers);
      if Classify(e, o).Candidate? {
        PassShrinks(host, rows, init, o, answers);
        ReapedFacts(p, e, p.host, rows, o, answers);
        var c := q.report.candidates[|p.report.candidates|];
        hide Visit;
        if c.residual == [] && Truthful(answers(e.id)) {
          NoResidualMeansCleared(p.host, e.id, rows[e.id], answers(e.id));
        }
      }
    }
  }

  lemma {:induction false} CandidateIdsContain(entries: seq<Entry>, o: Options, id: string)
    ensures id in CandidateIds(entries, o) <==> exists e :: e in entries && e.id == id && Classify(e, o).Candidate?
  {
    if entries != [] {
      var init, last := entries[..|entries| - 1], entries[|entries| - 1];
      CandidateIdsContain(init, o, id);
      assert entries == init + [last];
    }
  }

  /** The candidates of a pass, in terms of the rows alone. */
  lemma CandidatesAreEligibleRows(entries: seq<Entry>, rows: Rows, o: Options, id: string)
    requires IsListing(entries, rows)
    ensures id in CandidateIds(entries, o) <==> id in rows && Classify(EntryOf(id, rows[id]), o).Candidate?
  {
    CandidateIdsContain(entries, o, id);
    if id in rows {
      assert id in Ids(entries);
      var e :| e in entries && e.id == id;
    }
  }

  /**
    Convergence: with the same options and clock, a second executing pass considers exactly the candidates of the
    first one whose rows were not deleted; if deletes succeed and rows are not kept, there are none.
   */
  lemma SecondPass(host: HostData, rows: Rows, entries: seq<Entry>, again: seq<Entry>, o: Options, answers: Answers)
    requires o.execute && IsListing(entries, rows)
    requires IsListing(again, ReapPass(host, rows, entries, o, answers).rows)
    ensures var p := ReapPass(host, rows, entries, o, answers);
      && (forall id :: id in CandidateIds(again, o) <==> id in CandidateIds(entries, o) && id !in Deleted(p.report.candidates))
      && (!o.keepOnFailure && (forall id :: !answers(id).deleteRaises) ==> CandidateIds(again, o) == [])
  {
    hide ReapPass, Classify, CandidateIds;
    var p := ReapPass(host, rows, entries, o, answers);
    ExecutedPass(host, rows, entries, o, answers);
    PassAccounting(host, rows, entries, o, answers);
    forall id ensures id in CandidateIds(again, o) <==> id in CandidateIds(entries, o) && id !in Deleted(p.report.candidates) {
      CandidatesAreEligibleRows(entries, rows, o, id);
      CandidatesAreEligibleRows(again, p.rows, o, id);
    }
    forall id | id in CandidateIds(entries, o) && !o.keepOnFailure && !answers(id).deleteRaises
      ensures id in Deleted(p.report.candidates)
    {
      assert id in IdsOf(p.report.candidates);
      var i :| 0 <= i < |p.report.candidates| && p.report.candidates[i].id == id;
      assert FairlyReaped(p.report.candidates[i], host, rows, o, answers);
    }
    assert CandidateIds(again, o) == [] || CandidateIds(again, o)[0] in CandidateIds(again, o);
  }

  // ---- what a pass spares ----

  ghost predicate Spared(id: string, before: HostData, after: HostData) {
    && after.snapshots == before.snapshots
    && (VmName(id) in before.vms ==> VmName(id) in after.vms)
    && (SwitchName(id) in before.switches ==> SwitchName(id) in after.switches)
    && (DiskPath(before.snapshots, id) in before.files ==> DiskPath(before.snapshots, id) in after.files)
  }

  /** A bunker that is not a candidate keeps its row, its VM and its switch through any pass. */
  lemma {:induction false} OthersKeepNames(host: HostData, rows: Rows, entries: seq<Entry>, o: Options, answers: Answers,
                                           id: string)
    requires Listed(entries, rows) && OwnNamesOnly(rows)
    requires id in rows && !Classify(EntryOf(id, rows[id]), o).Candidate?
    ensures var p := ReapPass(host, rows, entries, o, answers);
      && id in p.rows && p.rows[id] == rows[id]
      && (VmName(id) in host.vms ==> VmName(id) in p.host.vms)
      && (SwitchName(id) in host.switches ==> SwitchName(id) in p.host.switches)
  {
    hide VmName, SwitchName, DiskPath, Torn, Classify;
    if entries != [] {
      var init, e := entries[..|entries| - 1], entries[|entries| - 1];
      LastRowStays(host, rows, entries, o, answers);
      OthersKeepNames(host, rows, init, o, answers, id);
      var p := ReapPass(host, rows, init, o, answers);
      if Classify(e, o).Candidate? && o.execute {
        assert e.id != id;
        NamesAreInjective(host.snapshots, id, e.id);
        TornHost(p.host, e.id, Some(p.rows[e.id]), answers(e.id));
      }
    }
  }

  /** It keeps its disk too if no candidate's id resolves to the same disk. */
  lemma OthersAreSpared(host: HostData, rows: Rows, entries: seq<Entry>, o: Options, answers: Answers, id: string)
    requires Listed(entries, rows) && OwnNamesOnly(rows)
    requires id in rows && !Classify(EntryOf(id, rows[id]), o).Candidate? && OwnsDisk(host.snapshots, id, rows, o)
    ensures var p := ReapPass(host, rows, entries, o, answers);
      Spared(id, host, p.host) && id in p.rows && p.rows[id] == rows[id]
  {
    hide Classify;
    OthersKeepNames(host, rows, entries, o, answers, id);
    PassShrinks(host, rows, entries, o, answers);
    if DiskPath(host.snapshots, id) in host.files {
      DiskSurvivesIff(host, rows, entries, o, answers, DiskPath(host.snapshots, id));
    }
  }

  /** In particular whatever is asked for, a bunker in a never-reap state is untouched. */
  lemma LiveBunkersAreSpared(host: HostData, rows: Rows, entries: seq<Entry>, o: Options, answers: Answers, id: string)
    requires Listed(entries, rows) && OwnNamesOnly(rows) && OwnsDisk(host.snapshots, id, rows, o)
    requires id in rows && rows[id].state.Named? && rows[id].state.state in NEVER_REAP
    ensures var p := ReapPass(host, rows, entries, o, answers);
      Spared(id, host, p.host) && id in p.rows && p.rows[id] == rows[id]
  {
    hide ReapPass, OwnsDisk, Listed, OwnNamesOnly;
    OthersAreSpared(host, rows, entries, o, answers, id);
  }

  /** Ids without '/' always own their disks. */
  lemma PlainIdsOwnDisks(snapshots: Path, id: string, rows: Rows, o: Options)
    requires '/' !in id && forall other :: other in rows ==> '/' !in other
    ensures OwnsDisk(snapshots, id, rows, o)
  {
    hide DiskPath, Classify;
    forall other | other in rows && other != id ensures DiskPath(snapshots, other) != DiskPath(snapshots, id) {
      NamesAreInjective(snapshots, other, id);
    }
  }

  /**
    The confinement is containment, not ownership: an abandoned row under the id "x/../b" passes the guard, and reaping
    it deletes the disk of the live bunker "b".
   */
  lemma AliasReapsLiveDisk(host: HostData, rows: Rows, entries: seq<Entry>, o: Options, answers: Answers, b: string)
    requires IsListing(entries, rows) && o.execute && Error in o.selected && o.olderThanHours <= 0.0
    requires '/' !in b && DiskPath(host.snapshots, b) in host.files
    requires "x/../" + b in rows && rows["x/../" + b].state == Named(Error) && answers("x/../" + b).disk.done
    requires b in rows && rows[b].state == Named(Active)
    ensures DiskPath(host.snapshots, b) !in ReapPass(host, rows, entries, o, answers).host.files
  {
    hide DiskPath, Confined, ReapPass;
    AliasSharesDisk(host.snapshots, b);
    var id, path := "x/../" + b, DiskPath(host.snapshots, b);
    assert id in Ids(entries);
    var e :| e in entries && e.id == id;
    CandidateMeans(e, o);
    assert Reaches(e, o, host.snapshots, path) && DeletesDisk(host.snapshots, e.id, Some(rows[e.id]), answers(e.id));
    DiskSurvivesIff(host, rows, entries, o, answers, path);
  }
}
