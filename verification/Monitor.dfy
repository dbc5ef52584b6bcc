// The security monitor, whose records grow in place, and the loops that scan a
// text and collect indicators, proved against module Evidence.
module Monitor {
  import opened Basics
  import opened Evidence

  function SuspiciousPatterns(): Table {
    [
      ("vm_escape_indicators", ["VBOX", "VMWARE", "QEMU", "VIRTUALBOX", "vmmouse", "vmware svga", "vboxvideo",
                                "hypervisor", "hyper-v", "xen"]),
      ("debugging_indicators", ["kernel32.dll", "ntdll.dll", "IsDebuggerPresent", "CheckRemoteDebuggerPresent",
                                "NtQueryInformationProcess"]),
      ("persistence_indicators", ["CurrentVersion\\Run", "Winlogon", "Shell Folders", "Startup", "Scheduled Tasks",
                                  "Services"]),
      ("network_exfil_indicators", ["dns tunnel", "icmp tunnel", "http beacon", "reverse shell", "bind shell",
                                    "data exfiltration"]),
      ("injection_indicators", ["CreateRemoteThread", "WriteProcessMemory", "DLL injection", "Process Hollowing",
                                "APC Injection", "SetWindowsHookEx"])
    ]
  }

  /** No category of the monitor's own table contains the separator, so each of its findings is recovered. */
  lemma OwnFindingsAreRecovered(row: (string, seq<string>), pattern: string)
    requires row in SuspiciousPatterns() && pattern in row.1
    ensures Partition(Print(row.0, pattern)) == (row.0, pattern)
  {
    hide Partition, Print;
    assert ' ' !in row.0;
    assert !HasSeparator(row.0);
    PrintParse(row.0, pattern);
  }

  // ---- from a pattern of the table to the verdict ----

  const VM_ESCAPE := 0
  const DEBUGGING := 1
  const PERSISTENCE := 2
  const NETWORK_EXFIL := 3
  const INJECTION := 4

  lemma TableShape()
    ensures var t := SuspiciousPatterns();
      && |t| == 5
      && t[VM_ESCAPE].0 == "vm_escape_indicators" && t[DEBUGGING].0 == "debugging_indicators"
      && t[PERSISTENCE].0 == "persistence_indicators" && t[NETWORK_EXFIL].0 == "network_exfil_indicators"
      && t[INJECTION].0 == "injection_indicators"
  {
  }

  lemma CategoriesGraded()
    ensures CategoryIoc("vm_escape_indicators") == (ProcessIoc, High)
    ensures CategoryIoc("debugging_indicators") == (ProcessIoc, Low)
    ensures CategoryIoc("persistence_indicators") == (PersistenceIoc, Medium)
    ensures CategoryIoc("network_exfil_indicators") == (NetworkIoc, High)
    ensures CategoryIoc("injection_indicators") == (ProcessIoc, Critical)
  {
    assert "vm_escape_indicators"[0] == 'v' && "debugging_indicators"[0] == 'd' && "persistence_indicators"[0] == 'p';
    assert "network_exfil_indicators"[0] == 'n' && "injection_indicators"[0] == 'i';
  }

  /** The type, severity and points an indicator of each category has. */
  function Graded(k: nat): (IocType, Severity, nat)
    requires k < 5
  {
    if k == VM_ESCAPE then (ProcessIoc, High, 50)
    else if k == DEBUGGING then (ProcessIoc, Low, 1)
    else if k == PERSISTENCE then (PersistenceIoc, Medium, 10)
    else if k == NETWORK_EXFIL then (NetworkIoc, High, 50)
    else (ProcessIoc, Critical, 100)
  }

  /** A finding of category `k` becomes an indicator of that type and severity, with the pattern as its value. */
  lemma PatternIndicator(k: nat, p: string)
    requires k < 5 && |SuspiciousPatterns()| == 5 && p in SuspiciousPatterns()[k].1
    ensures var line := Print(SuspiciousPatterns()[k].0, p);
      FindingIoc(line) == Ioc(Graded(k).0, Strip(p), Graded(k).1, line)
  {
    TableShape();
    hide Partition, Print, Strip;
    OwnFindingsAreRecovered(SuspiciousPatterns()[k], p);
    CategoriesGraded();
    hide CategoryIoc, SuspiciousPatterns;
  }

  /** Some pattern of category `k` occurs in the text. */
  ghost predicate Hits(text: string, k: nat, lower: char -> string) {
    k < |SuspiciousPatterns()| && exists p :: p in SuspiciousPatterns()[k].1 && Matches(text, p, lower)
  }

  lemma HitIsFound(text: string, k: nat, lower: char -> string) returns (p: string)
    requires Hits(text, k, lower)
    ensures k < 5 && |SuspiciousPatterns()| == 5 && p in SuspiciousPatterns()[k].1
    ensures Print(SuspiciousPatterns()[k].0, p) in Findings(text, SuspiciousPatterns(), lower)
  {
    TableShape();
    hide SuspiciousPatterns, Matches;
    p :| p in SuspiciousPatterns()[k].1 && Matches(text, p, lower);
    FindingsExact(text, SuspiciousPatterns(), lower, Print(SuspiciousPatterns()[k].0, p));
    assert SuspiciousPatterns()[k] in SuspiciousPatterns();
  }

  lemma FoundIsHit(text: string, f: string, lower: char -> string) returns (k: nat, p: string)
    requires f in Findings(text, SuspiciousPatterns(), lower)
    ensures k < 5 && |SuspiciousPatterns()| == 5 && p in SuspiciousPatterns()[k].1 && Matches(text, p, lower)
    ensures Hits(text, k, lower) && f == Print(SuspiciousPatterns()[k].0, p)
  {
    TableShape();
    hide SuspiciousPatterns, Matches;
    FindingsExact(text, SuspiciousPatterns(), lower, f);
    var row;
    row, p :| row in SuspiciousPatterns() && p in row.1 && Matches(text, p, lower) && f == Print(row.0, p);
    k :| 0 <= k < 5 && SuspiciousPatterns()[k] == row;
  }

  /** The indicators of a text without records: exactly the graded ones of the patterns that occur. */
  lemma TextIndicators(text: string, lower: char -> string, severity: Severity)
    ensures Shows(Iocs(Findings(text, SuspiciousPatterns(), lower), Records([], [], [])), severity) <==>
      exists k: nat :: k < 5 && Hits(text, k, lower) && Graded(k).1 == severity
  {
    hide SuspiciousPatterns, Findings, FindingIoc, Graded, Hits, Candidates, Dedup;
    var findings, none := Findings(text, SuspiciousPatterns(), lower), Records([], [], []);
    DedupIsExact(Candidates(findings, none));
    if x :| x in Iocs(findings, none) && x.severity == severity {
      CandidateMembers(findings, none, x);
      var f :| f in findings && x == FindingIoc(f);
      var k, p := FoundIsHit(text, f, lower);
      PatternIndicator(k, p);
    }
    if k: nat :| k < 5 && Hits(text, k, lower) && Graded(k).1 == severity {
      var p := HitIsFound(text, k, lower);
      PatternIndicator(k, p);
      CandidateMembers(findings, none, FindingIoc(Print(SuspiciousPatterns()[k].0, p)));
    }
  }

  /** A text decides the verdict, when nothing was recorded: malicious, suspicious or clean by the categories that occur. */
  lemma TextVerdict(text: string, lower: char -> string, n: Records, join: set<string> -> string)
    requires n.unavailable == []
    ensures ReportOf(Findings(text, SuspiciousPatterns(), lower), Records([], [], []), n, None, join).verdict ==
      if Hits(text, VM_ESCAPE, lower) || Hits(text, NETWORK_EXFIL, lower) || Hits(text, INJECTION, lower) then Malicious
      else if Hits(text, PERSISTENCE, lower) then Suspicious
      else Clean
  {
    hide SuspiciousPatterns, Findings, Hits, Iocs, Graded, Shows, VerdictOf;
    TextIndicators(text, lower, Critical);
    TextIndicators(text, lower, High);
    TextIndicators(text, lower, Medium);
    HitsSplit(text, lower);
    VerdictBySeverity(Iocs(Findings(text, SuspiciousPatterns(), lower), Records([], [], [])));
  }

  lemma HitsSplit(text: string, lower: char -> string)
    ensures (exists k: nat :: k < 5 && Hits(text, k, lower) && Graded(k).1 == Critical) <==> Hits(text, INJECTION, lower)
    ensures (exists k: nat :: k < 5 && Hits(text, k, lower) && Graded(k).1 == High) <==>
      Hits(text, VM_ESCAPE, lower) || Hits(text, NETWORK_EXFIL, lower)
    ensures (exists k: nat :: k < 5 && Hits(text, k, lower) && Graded(k).1 == Medium) <==> Hits(text, PERSISTENCE, lower)
  {
    hide Hits;
  }

  /** Whatever else was recorded, such a text gets at least that verdict, unless it is an error. */
  lemma PatternDecides(text: string, lower: char -> string, k: nat, m: Records, n: Records, failure: Option<string>,
                       join: set<string> -> string)
    requires Hits(text, k, lower)
    requires !ReportOf(Findings(text, SuspiciousPatterns(), lower), m, n, failure, join).verdict.Failed?
    ensures k == VM_ESCAPE || k == NETWORK_EXFIL || k == INJECTION ==>
      ReportOf(Findings(text, SuspiciousPatterns(), lower), m, n, failure, join).verdict.Malicious?
    ensures k == PERSISTENCE ==>
      !ReportOf(Findings(text, SuspiciousPatterns(), lower), m, n, failure, join).verdict.Clean?
  {
    hide SuspiciousPatterns, Findings, FindingIoc, Hits, Candidates, Dedup;
    var findings := Findings(text, SuspiciousPatterns(), lower);
    var p := HitIsFound(text, k, lower);
    PatternIndicator(k, p);
    var x := FindingIoc(Print(SuspiciousPatterns()[k].0, p));
    CandidateMembers(findings, m, x);
    DedupIsExact(Candidates(findings, m));
    assert x in Iocs(findings, m);
  }

  /** A text in which one pattern alone occurs, and nothing recorded: one indicator, with the points of its category. */
  lemma PatternAlone(text: string, lower: char -> string, k: nat, p: string, n: Records, join: set<string> -> string)
    requires k < 5 && |SuspiciousPatterns()| == 5 && p in SuspiciousPatterns()[k].1 && Matches(text, p, lower)
    requires forall j: nat, q :: j < 5 && q in SuspiciousPatterns()[j].1 && Matches(text, q, lower) ==> j == k && q == p
    ensures var r := ReportOf(Findings(text, SuspiciousPatterns(), lower), Records([], [], []), n, None, join);
      var line := Print(SuspiciousPatterns()[k].0, p);
      r.iocs == [Ioc(Graded(k).0, Strip(p), Graded(k).1, line)] && r.score == Graded(k).2
  {
    hide SuspiciousPatterns, Findings, FindingIoc, Matches, Strip, Print, Graded, Weight, ReportOf;
    PatternIndicator(k, p);
    GradedPoints(k);
    FoundAlone(text, lower, k, p);
    OneFinding(Findings(text, SuspiciousPatterns(), lower), Print(SuspiciousPatterns()[k].0, p), n, join);
  }

  lemma GradedPoints(k: nat)
    requires k < 5
    ensures Weight(Graded(k).1) == Graded(k).2
  {
  }

  lemma FoundAlone(text: string, lower: char -> string, k: nat, p: string)
    requires k < 5 && |SuspiciousPatterns()| == 5 && p in SuspiciousPatterns()[k].1 && Matches(text, p, lower)
    requires forall j: nat, q :: j < 5 && q in SuspiciousPatterns()[j].1 && Matches(text, q, lower) ==> j == k && q == p
    ensures forall f :: f in Findings(text, SuspiciousPatterns(), lower) <==> f == Print(SuspiciousPatterns()[k].0, p)
  {
    hide SuspiciousPatterns, Findings, Matches, Print;
    var line := Print(SuspiciousPatterns()[k].0, p);
    assert SuspiciousPatterns()[k] in SuspiciousPatterns();
    FindingsExact(text, SuspiciousPatterns(), lower, line);
    forall f | f in Findings(text, SuspiciousPatterns(), lower) ensures f == line {
      var _, _ := FoundIsHit(text, f, lower);
    }
  }

  class SecurityMonitor {
    var events: seq<SecurityEvent>
    var attempts: seq<Attempt>
    var unavailable: seq<string>

    constructor ()
      ensures Data() == Records([], [], [])
    {
      events, attempts, unavailable := [], [], [];
    }

    function Data(): Records
      reads this
    {
      Records(events, attempts, unavailable)
    }

    /** A capability that could not be consulted is recorded once. */
    method RecordUnavailable(capability: string)
      modifies `unavailable
      ensures capability in unavailable && Grows(old(Data()), Data())
      ensures unavailable == if capability in old(unavailable) then old(unavailable) else old(unavailable) + [capability]
    {
      if capability !in unavailable { unavailable := unavailable + [capability]; }
    }

    method LogEvent(e: SecurityEvent)
      modifies `events
      ensures events == old(events) + [e] && Grows(old(Data()), Data())
    {
      events := events + [e];
    }

    /** An escape attempt is recorded and also logged as a critical event. */
    method DetectEscapeAttempt(a: Attempt, details: string) returns (detected: bool)
      modifies `events, `attempts
      ensures detected && attempts == old(attempts) + [a] && Grows(old(Data()), Data())
      ensures events == old(events)
        + [SecurityEvent(AttemptLayer(a), "ESCAPE_ATTEMPT_" + Upper(AttemptName(a)), CriticalThreat, details)]
    {
      attempts := attempts + [a];
      LogEvent(SecurityEvent(AttemptLayer(a), "ESCAPE_ATTEMPT_" + Upper(AttemptName(a)), CriticalThreat, details));
      return true;
    }
  }

  method AnalyzePatterns(text: string, table: Table, lower: char -> string) returns (detected: seq<string>)
    ensures detected == Findings(text, table, lower)
  {
    hide Matches;
    detected := [];
    for i := 0 to |table|
      invariant detected == Findings(text, table[..i], lower)
    {
      var (category, patterns) := table[i];
      for j := 0 to |patterns|
        invariant detected == Findings(text, table[..i], lower) + MatchesIn(text, category, patterns[..j], lower)
      {
        assert patterns[..j + 1][..j] == patterns[..j];
        if Matches(text, patterns[j], lower) { detected := detected + [Print(category, patterns[j])]; }
      }
      assert patterns[..|patterns|] == patterns;
      assert table[..i + 1][..i] == table[..i];
    }
    assert table[..|table|] == table;
  }

  /** Keeps an indicator unless it has been seen. */
  method Add(iocs: seq<Ioc>, seen: set<Ioc>, x: Ioc, ghost before: seq<Ioc>) returns (iocs': seq<Ioc>, seen': set<Ioc>)
    requires iocs == Dedup(before) && seen == set y | y in iocs
    ensures iocs' == Dedup(before + [x]) && seen' == set y | y in iocs'
  {
    assert (before + [x])[..|before|] == before;
    if x in seen { return iocs, seen; }
    return iocs + [x], seen + {x};
  }

  /** Collects findings, events and escape attempts; an unreadable sample (None) contributes no findings. */
  method CollectIocs(monitor: SecurityMonitor, text: Option<string>, table: Table, lower: char -> string)
    returns (iocs: seq<Ioc>)
    ensures iocs == Iocs(if text.Some? then Findings(text.value, table, lower) else [], monitor.Data())
  {
    hide Findings, FindingIoc, EventIoc, AttemptedIoc, Dedup, Candidates;
    var findings := [];
    if text.Some? { findings := AnalyzePatterns(text.value, table, lower); }
    ghost var all := Candidates(findings, monitor.Data());
    CandidatesAt(findings, monitor.Data());
    var seen: set<Ioc> := {};
    iocs := [];
    assert Dedup([]) == [] by { EmptyDedup(); }
    for i := 0 to |findings|
      invariant iocs == Dedup(all[..i]) && seen == set y | y in iocs
    {
      assert all[..i + 1] == all[..i] + [FindingIoc(findings[i])];
      iocs, seen := Add(iocs, seen, FindingIoc(findings[i]), all[..i]);
    }
    ghost var n := |findings|;
    for i := 0 to |monitor.events|
      invariant iocs == Dedup(all[..n + i]) && seen == set y | y in iocs
    {
      assert all[..n + i + 1] == all[..n + i] + [EventIoc(monitor.events[i])];
      iocs, seen := Add(iocs, seen, EventIoc(monitor.events[i]), all[..n + i]);
    }
    n := n + |monitor.events|;
    for i := 0 to |monitor.attempts|
      invariant iocs == Dedup(all[..n + i]) && seen == set y | y in iocs
    {
      assert all[..n + i + 1] == all[..n + i] + [AttemptedIoc(monitor.attempts[i])];
      iocs, seen := Add(iocs, seen, AttemptedIoc(monitor.attempts[i]), all[..n + i]);
    }
    assert all[..n + |monitor.attempts|] == all;
  }

  lemma CandidatesAt(findings: seq<string>, m: Records)
    ensures var all, n, k := Candidates(findings, m), |findings|, |findings| + |m.events|;
      && (forall i :: 0 <= i < n ==> all[i] == FindingIoc(findings[i]))
      && (forall i :: 0 <= i < |m.events| ==> all[n + i] == EventIoc(m.events[i]))
      && (forall i :: 0 <= i < |m.attempts| ==> all[k + i] == AttemptedIoc(m.attempts[i]))
  {
    hide FindingIoc, EventIoc, AttemptedIoc;
  }

  lemma EmptyDedup()
    ensures Dedup([]) == []
  {
  }
}
