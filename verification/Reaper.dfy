// The reaper, run in place over the store and the backend, and the selection of
// the states it may reap.
module Reaper {
  import opened Basics
  import opened Host
  import opened Store
  import opened Lifecycle
  import opened Reaping

  // ---- state selection ----

  function Requested(raw: string): Option<BunkerState> { ParseState(Upper(Strip(raw))) }

  ghost predicate Blank(s: string) { forall i :: 0 <= i < |s| ==> Space(s[i]) }

  /** The two texts differ at most in the case of ASCII letters. */
  ghost predicate SameLetters(s: string, t: string) {
    |s| == |t| && forall i :: 0 <= i < |s| ==>
      s[i] == t[i] || ('a' <= s[i] <= 'z' && s[i] as int - t[i] as int == 32)
  }

  lemma {:induction false} StripPadding(pre: string, s: string, suf: string)
    requires Blank(pre) && Blank(suf)
    requires s != "" && !Space(s[0]) && !Space(s[|s| - 1])
    ensures Strip(pre + s + suf) == s
    decreases |pre| + |suf|
  {
    var all := pre + s + suf;
    if pre != "" {
      assert all[1..] == pre[1..] + s + suf;
      StripPadding(pre[1..], s, suf);
    } else if suf != "" {
      var last := |suf| - 1;
      assert all[..|all| - 1] == pre + s + suf[..last];
      StripPadding(pre, s, suf[..last]);
    } else {
      assert all == s;
    }
  }

  /** A state's name denotes it in any letter case and with whitespace around it. */
  lemma AnySpelling(state: BunkerState, pre: string, name: string, suf: string)
    requires Blank(pre) && Blank(suf) && SameLetters(name, StateName(state))
    ensures Requested(pre + name + suf) == Some(state)
  {
    hide Strip;
    NameIsLetters(state);
    StripPadding(pre, name, suf);
    assert Upper(name) == StateName(state);
  }

  lemma NameIsLetters(state: BunkerState)
    ensures StateName(state) != "" && forall i :: 0 <= i < |StateName(state)| ==> 'A' <= StateName(state)[i] <= 'Z'
  {
  }

  /** And nothing else does: what denotes a state is its name in some case, with whitespace around it. */
  lemma OnlySpellings(raw: string) returns (pre: string, name: string, suf: string)
    requires Requested(raw).Some?
    ensures Blank(pre) && Blank(suf) && raw == pre + name + suf && SameLetters(name, StateName(Requested(raw).value))
  {
    pre, suf := Stripped(raw);
    name := Strip(raw);
    hide Strip;
    assert Upper(name) == StateName(Requested(raw).value);
  }

  lemma {:induction false} Stripped(s: string) returns (pre: string, suf: string)
    ensures Blank(pre) && Blank(suf) && s == pre + Strip(s) + suf
    decreases |s|
  {
    if s != "" && Space(s[0]) {
      var before, after := Stripped(s[1..]);
      pre, suf := [s[0]] + before, after;
      assert s == [s[0]] + s[1..];
    } else if s != "" && Space(s[|s| - 1]) {
      var before, after := Stripped(s[..|s| - 1]);
      pre, suf := before, after + [s[|s| - 1]];
      assert s == s[..|s| - 1] + [s[|s| - 1]];
    } else {
      pre, suf := "", "";
    }
  }

  datatype Selection = Selected(states: set<BunkerState>) | UnknownState(raw: string) | Forbidden(states: set<BunkerState>)

  function RequestedStates(names: seq<string>): set<BunkerState> {
    set raw | raw in names && Requested(raw).Some? :: Requested(raw).value
  }

  ghost predicate AllKnown(names: seq<string>) {
    forall raw :: raw in names ==> Requested(raw).Some?
  }

  /** Resolves the requested names: all of them, or an error that names the culprits. */
  method SelectStates(names: seq<string>) returns (r: Selection)
    ensures names == [] ==> r == Selected({Error})
    ensures names != [] && AllKnown(names) && RequestedStates(names) !! NEVER_REAP ==> r == Selected(RequestedStates(names))
    ensures AllKnown(names) && !(RequestedStates(names) !! NEVER_REAP) ==> r == Forbidden(RequestedStates(names) * NEVER_REAP)
    ensures !AllKnown(names) ==> exists i ::
      && 0 <= i < |names| && AllKnown(names[..i])
      && Requested(names[i]).None? && r == UnknownState(names[i])
  {
    hide Requested;
    if names == [] { return Selected({Error}); }
    var requested := {};
    for i := 0 to |names|
      invariant AllKnown(names[..i])
      invariant requested == RequestedStates(names[..i])
    {
      var state := Requested(names[i]);
      if state.None? { return UnknownState(names[i]); }
      assert names[..i + 1] == names[..i] + [names[i]];
      requested := requested + {state.value};
    }
    assert names[..|names|] == names;
    var forbidden := requested * NEVER_REAP;
    forall s | s in requested ensures s in NEVER_REAP ==> s in forbidden { }
    return if forbidden != {} then Forbidden(forbidden) else Selected(requested);
  }

  /** A selection can only hold abandoned states, and at least one. */
  lemma SelectionIsReapable(names: seq<string>)
    requires names != [] && AllKnown(names) && RequestedStates(names) !! NEVER_REAP
    ensures RequestedStates(names) != {} && RequestedStates(names) <= {Error, Terminating, Decontaminating}
  {
    hide Requested;
    assert Requested(names[0]).value in RequestedStates(names);
    forall s | s in RequestedStates(names) ensures s in {Error, Terminating, Decontaminating} {
      assert s.Initializing? || s.Ready? || s.Active? || s.Quarantine? || s.Destroyed?
        || s in {Error, Terminating, Decontaminating};
    }
  }

  // ---- one pass, in place ----

  method RecordStep(outcome: Outcome, what: Resource, r: Reply) returns (after: Outcome)
    ensures forall w: Work :: w.removed == outcome.removed && w.residual == outcome.residual ==>
      after == outcome.(removed := Recorded(w, what, r).removed, residual := Recorded(w, what, r).residual)
  {
    match r {
      case Yes => after := outcome.(removed := outcome.removed + [what]);
      case No => after := outcome.(residual := outcome.residual + [NotRemoved(what)]);
      case Raises => after := outcome.(residual := outcome.residual + [RaisedOn(what)]);
    }
  }

  method TearDown(backend: Backend, row: Option<Row>, blank: Outcome, a: RowAnswers) returns (outcome: Outcome)
    requires blank.removed == [] && blank.residual == []
    modifies backend
    ensures var w := Torn(old(backend.Data()), blank.id, row, a);
      backend.Data() == w.host && outcome == blank.(removed := w.removed, residual := w.residual)
  {
    hide DiskPath, Confined;
    outcome := blank;
    var disk := DiskPath(backend.snapshots, blank.id);
    ghost var w0 := Work(backend.Data(), [], []);
    if RowVm(row) != "" {
      var r := backend.RemoveVm(RowVm(row), disk, a.vm);
      outcome := RecordStep(outcome, VmNamed(RowVm(row)), r);
    }
    ghost var w1 := VmTorn(w0, blank.id, row, a);
    assert backend.Data() == w1.host && outcome == blank.(removed := w1.removed, residual := w1.residual);
    if RowSwitch(row) != "" {
      var r := backend.RemoveSwitch(RowSwitch(row), a.sw);
      outcome := RecordStep(outcome, SwitchNamed(RowSwitch(row)), r);
    }
    ghost var w2 := SwitchTorn(w1, row, a);
    assert backend.Data() == w2.host && outcome == blank.(removed := w2.removed, residual := w2.residual);
    if Confined(backend.snapshots, disk) && disk in backend.files {
      var r := backend.DeleteFile(disk, a.disk);
      outcome := RecordStep(outcome, DiskAt(disk), r);
    }
  }

  method ReapRow(store: StateStore, backend: Backend, e: Entry, blank: Outcome, o: Options, a: RowAnswers)
    returns (outcome: Outcome)
    requires blank.id == e.id && blank.removed == [] && blank.residual == [] && !blank.rowDeleted && blank.note.NoNote?
    modifies store, backend
    ensures forall r: Report ::
      Reaped(Pass(old(backend.Data()), old(store.rows), r), e, blank, o, a)
      == Pass(backend.Data(), store.rows, r.(candidates := r.candidates + [outcome]))
  {
    hide Torn;
    var row := store.Load(e.id);
    outcome := TearDown(backend, row, blank, a);
    if outcome.residual != [] && o.keepOnFailure {
      outcome := outcome.(note := RowKept);
    } else {
      var r := store.Delete(e.id, a.deleteRaises);
      if r.Raises? {
        outcome := outcome.(note := DeleteFailed);
      } else {
        outcome := outcome.(rowDeleted := r.Yes?);
      }
    }
  }

  method VisitEntry(store: StateStore, backend: Backend, e: Entry, o: Options, a: RowAnswers, report: Report)
    returns (after: Report)
    modifies store, backend
    ensures forall answers: Answers :: answers(e.id) == a ==>
      Pass(backend.Data(), store.rows, after) == Visit(Pass(old(backend.Data()), old(store.rows), report), e, o, answers)
  {
    hide Reaped;
    after := report.(scanned := report.scanned + 1);
    match Classify(e, o) {
      case WrongState => after := after.(skippedState := after.skippedState + 1);
      case TooRecent => after := after.(skippedRecent := after.skippedRecent + 1);
      case Candidate =>
        var age := AgeHours(e.updatedAt, o.now);
        var outcome := Outcome(e.id, e.state, e.updatedAt, if age.Some? then age.value else -1.0, [], [], false, NoNote);
        if o.execute {
          outcome := ReapRow(store, backend, e, outcome, o, a);
        }
        after := after.(candidates := after.candidates + [outcome]);
    }
  }

  /** Scans the listed rows and, when executing, reaps the eligible ones. */
  method Reap(store: StateStore, backend: Backend, o: Options, answers: Answers, order: Stamp -> real)
    returns (entries: seq<Entry>, report: Report)
    modifies store, backend
    ensures IsListing(entries, old(store.rows)) && NewestFirst(entries, order)
    ensures Pass(backend.Data(), store.rows, report) == ReapPass(old(backend.Data()), old(store.rows), entries, o, answers)
  {
    hide Visit;
    entries := store.ListAll(order);
    report := Report(0, 0, 0, []);
    for i := 0 to |entries|
      invariant Pass(backend.Data(), store.rows, report)
        == ReapPass(old(backend.Data()), old(store.rows), entries[..i], o, answers)
    {
      report := VisitEntry(store, backend, entries[i], o, answers(entries[i].id), report);
      assert entries[..i + 1][..i] == entries[..i];
    }
    assert entries[..|entries|] == entries;
  }
}
