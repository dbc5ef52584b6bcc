// From a scanned text and the monitor's records to indicators, score and verdict,
// as functions on values.
module Evidence {
  import opened Basics

  // ---- indicators ----

  datatype IocType = FileIoc | NetworkIoc | ProcessIoc | PersistenceIoc | RegistryIoc | MemoryIoc
  datatype Severity = Low | Medium | High | Critical
  datatype Ioc = Ioc(kind: IocType, value: string, severity: Severity, evidence: string)

  datatype ThreatLevel = NoThreat | LowThreat | MediumThreat | HighThreat | CriticalThreat
  datatype Layer = NetworkLayer | FilesystemLayer | ProcessLayer | MemoryLayer | HypervisorLayer
  datatype Attempt =
    | VmEscape | NetworkExfiltration | FilePersistence | ProcessInjection
    | MemoryManipulation | HypervisorAttack | SideChannel | RootkitDetected

  datatype SecurityEvent = SecurityEvent(layer: Layer, eventType: string, severity: ThreatLevel, description: string)

  /** What the monitor has recorded. */
  datatype Records = Records(events: seq<SecurityEvent>, attempts: seq<Attempt>, unavailable: seq<string>)

  function SeverityOf(level: ThreatLevel): Severity {
    match level
    case CriticalThreat => Critical
    case HighThreat => High
    case MediumThreat => Medium
    case _ => Low
  }

  function LayerIoc(layer: Layer): IocType {
    match layer
    case NetworkLayer => NetworkIoc
    case FilesystemLayer => FileIoc
    case MemoryLayer => MemoryIoc
    case _ => ProcessIoc
  }

  function AttemptIoc(a: Attempt): (IocType, Severity) {
    match a
    case NetworkExfiltration => (NetworkIoc, Critical)
    case FilePersistence => (PersistenceIoc, High)
    case MemoryManipulation => (MemoryIoc, Critical)
    case SideChannel => (MemoryIoc, High)
    case _ => (ProcessIoc, Critical)
  }

  function AttemptLayer(a: Attempt): Layer {
    match a
    case NetworkExfiltration => NetworkLayer
    case FilePersistence => FilesystemLayer
    case ProcessInjection => ProcessLayer
    case RootkitDetected => ProcessLayer
    case MemoryManipulation => MemoryLayer
    case SideChannel => MemoryLayer
    case _ => HypervisorLayer
  }

  function AttemptName(a: Attempt): string {
    match a
    case VmEscape => "vm_escape"
    case NetworkExfiltration => "network_exfiltration"
    case FilePersistence => "file_persistence"
    case ProcessInjection => "process_injection"
    case MemoryManipulation => "memory_manipulation"
    case HypervisorAttack => "hypervisor_attack"
    case SideChannel => "side_channel"
    case RootkitDetected => "rootkit_detected"
  }

  /** An unknown category is surfaced conservatively. */
  function CategoryIoc(category: string): (IocType, Severity) {
    if category == "vm_escape_indicators" then (ProcessIoc, High)
    else if category == "debugging_indicators" then (ProcessIoc, Low)
    else if category == "persistence_indicators" then (PersistenceIoc, Medium)
    else if category == "network_exfil_indicators" then (NetworkIoc, High)
    else if category == "injection_indicators" then (ProcessIoc, Critical)
    else (ProcessIoc, High)
  }

  // ---- findings: printed and parsed ----

  const SEPARATOR := ": "

  predicate SeparatorAt(s: string, i: nat) { i + 2 <= |s| && s[i] == ':' && s[i + 1] == ' ' }

  ghost predicate HasSeparator(s: string) { exists i: nat :: SeparatorAt(s, i) }

  function Print(category: string, pattern: string): string { category + SEPARATOR + pattern }

  /** Splits at the first separator; without one the whole text is the category. */
  function Partition(s: string): (r: (string, string))
    ensures !HasSeparator(s) ==> r == (s, "")
    ensures HasSeparator(s) ==> !HasSeparator(r.0) && s == Print(r.0, r.1)
  {
    if |s| < 2 then (s, "")
    else if SeparatorAt(s, 0) then ("", s[2..])
    else
      var (head, tail) := Partition(s[1..]);
      assert forall i: nat :: SeparatorAt(s[1..], i) ==> SeparatorAt(s, i + 1);
      assert forall i: nat :: i > 0 && SeparatorAt(s, i) ==> SeparatorAt(s[1..], i - 1);
      assert forall i: nat :: i > 0 && SeparatorAt([s[0]] + head, i) ==> SeparatorAt(head, i - 1);
      assert HasSeparator(s) ==> s[1..] == head + SEPARATOR + tail;
      assert s == [s[0]] + s[1..];
      ([s[0]] + head, tail)
  }

  /** Parsing a printed finding recovers its two parts exactly when the category has no separator of its own. */
  lemma PrintParse(category: string, pattern: string)
    ensures Partition(Print(category, pattern)) == (category, pattern) <==> !HasSeparator(category)
  {
    var s := Print(category, pattern);
    var (head, tail) := Partition(s);
    assert SeparatorAt(s, |category|);
    if !HasSeparator(category) {
      if |head| < |category| {
        assert SeparatorAt(s, |head|);
        if |head| + 2 <= |category| {
          assert SeparatorAt(category, |head|);
        }
      } else if |category| < |head| {
        if |category| + 2 <= |head| {
          assert SeparatorAt(head, |category|);
        }
      }
      assert |head| == |category|;
      assert head == s[..|head|] && tail == s[|head| + 2..];
      assert category == s[..|category|] && pattern == s[|category| + 2..];
    }
  }

  // ---- the pattern scan ----

  type Table = seq<(string, seq<string>)>

  predicate OccursAt(text: string, pattern: string, i: nat) {
    i + |pattern| <= |text| && text[i..i + |pattern|] == pattern
  }

  predicate Contains(text: string, pattern: string) {
    exists i: nat :: i <= |text| && OccursAt(text, pattern, i)
  }

  function Lowered(s: string, lower: char -> string): string {
    if s == "" then "" else Lowered(s[..|s| - 1], lower) + lower(s[|s| - 1])
  }

  lemma {:induction false} LoweredConcat(a: string, b: string, lower: char -> string)
    ensures Lowered(a + b, lower) == Lowered(a, lower) + Lowered(b, lower)
  {
    if b == "" {
      assert a + b == a;
    } else {
      LoweredConcat(a, b[..|b| - 1], lower);
      assert (a + b)[..|a + b| - 1] == a + b[..|b| - 1];
    }
  }

  predicate Matches(text: string, pattern: string, lower: char -> string) {
    Contains(Lowered(text, lower), Lowered(pattern, lower))
  }

  function MatchesIn(text: string, category: string, patterns: seq<string>, lower: char -> string): seq<string> {
    if patterns == [] then []
    else
      var last := patterns[|patterns| - 1];
      MatchesIn(text, category, patterns[..|patterns| - 1], lower)
      + if Matches(text, last, lower) then [Print(category, last)] else []
  }

  /** The findings, category by category and pattern by pattern. */
  function Findings(text: string, table: Table, lower: char -> string): seq<string> {
    if table == [] then []
    else
      var (category, patterns) := table[|table| - 1];
      Findings(text, table[..|table| - 1], lower) + MatchesIn(text, category, patterns, lower)
  }

  lemma {:induction false} MatchesInExact(text: string, category: string, patterns: seq<string>, lower: char -> string, f: string)
    ensures f in MatchesIn(text, category, patterns, lower) <==>
      exists p :: p in patterns && Matches(text, p, lower) && f == Print(category, p)
  {
    if patterns != [] {
      var init, last := patterns[..|patterns| - 1], patterns[|patterns| - 1];
      assert patterns == init + [last];
      MatchesInExact(text, category, init, lower, f);
    }
  }

  /** A line is found exactly when it prints a pattern of the table that occurs in the text, case folded. */
  lemma {:induction false} FindingsExact(text: string, table: Table, lower: char -> string, f: string)
    ensures f in Findings(text, table, lower) <==>
      exists row, p :: row in table && p in row.1 && Matches(text, p, lower) && f == Print(row.0, p)
  {
    if table != [] {
      var init, last := table[..|table| - 1], table[|table| - 1];
      assert table == init + [last];
      FindingsExact(text, init, lower, f);
      MatchesInExact(text, last.0, last.1, lower, f);
    }
  }

  /** A pattern occurs in a text exactly when the text is that pattern between two others. */
  lemma ContainsMeans(text: string, pattern: string)
    ensures Contains(text, pattern) <==> exists before, after :: text == before + pattern + after
  {
    if i: nat :| i <= |text| && OccursAt(text, pattern, i) {
      assert text == text[..i] + pattern + text[i + |pattern|..];
    }
    if before, after :| text == before + pattern + after {
      assert OccursAt(text, pattern, |before|);
    }
  }

  /** Texts that are the same when case folded have the same findings. */
  lemma {:induction false} CaseDoesNotMatter(text: string, other: string, table: Table, lower: char -> string)
    requires Lowered(text, lower) == Lowered(other, lower)
    ensures Findings(text, table, lower) == Findings(other, table, lower)
  {
    if table != [] {
      CaseDoesNotMatter(text, other, table[..|table| - 1], lower);
      SameMatches(text, other, table[|table| - 1].0, table[|table| - 1].1, lower);
    }
  }

  lemma {:induction false} SameMatches(text: string, other: string, category: string, patterns: seq<string>, lower: char -> string)
    requires Lowered(text, lower) == Lowered(other, lower)
    ensures MatchesIn(text, category, patterns, lower) == MatchesIn(other, category, patterns, lower)
  {
    if patterns != [] {
      SameMatches(text, other, category, patterns[..|patterns| - 1], lower);
    }
  }

  lemma OccursShifted(a: string, t: string, b: string, p: string, i: nat)
    requires OccursAt(t, p, i)
    ensures OccursAt(a + t + b, p, |a| + i)
  {
    assert (a + t + b)[|a| + i..|a| + i + |p|] == t[i..i + |p|];
  }

  lemma MatchesMonotone(before: string, text: string, after: string, pattern: string, lower: char -> string)
    requires Matches(text, pattern, lower)
    ensures Matches(before + text + after, pattern, lower)
  {
    LoweredConcat(before + text, after, lower);
    LoweredConcat(before, text, lower);
    var t, p := Lowered(text, lower), Lowered(pattern, lower);
    var i: nat :| i <= |t| && OccursAt(t, p, i);
    OccursShifted(Lowered(before, lower), t, Lowered(after, lower), p, i);
  }

  /** Scanning a longer text finds at least as much. */
  lemma FindingsMonotone(before: string, text: string, after: string, table: Table, lower: char -> string, f: string)
    requires f in Findings(text, table, lower)
    ensures f in Findings(before + text + after, table, lower)
  {
    FindingsExact(text, table, lower, f);
    FindingsExact(before + text + after, table, lower, f);
    var row, p :| row in table && p in row.1 && Matches(text, p, lower) && f == Print(row.0, p);
    MatchesMonotone(before, text, after, p, lower);
  }

  // ---- collecting ----

  function FindingIoc(finding: string): Ioc {
    var (category, pattern) := Partition(finding);
    var (kind, severity) := CategoryIoc(category);
    Ioc(kind, Strip(pattern), severity, finding)
  }

  function EventIoc(e: SecurityEvent): Ioc {
    Ioc(LayerIoc(e.layer), e.eventType, SeverityOf(e.severity), e.description)
  }

  function AttemptedIoc(a: Attempt): Ioc {
    Ioc(AttemptIoc(a).0, AttemptName(a), AttemptIoc(a).1, "escape attempt: " + AttemptName(a))
  }

  /** Every indicator in the order it is met: findings, then events, then escape attempts. */
  function Candidates(findings: seq<string>, m: Records): (r: seq<Ioc>)
    ensures |r| == |findings| + |m.events| + |m.attempts|
  {
    seq(|findings|, i requires 0 <= i < |findings| => FindingIoc(findings[i]))
    + seq(|m.events|, i requires 0 <= i < |m.events| => EventIoc(m.events[i]))
    + seq(|m.attempts|, i requires 0 <= i < |m.attempts| => AttemptedIoc(m.attempts[i]))
  }

  lemma CandidateMembers(findings: seq<string>, m: Records, x: Ioc)
    ensures x in Candidates(findings, m) <==>
      || (exists f :: f in findings && x == FindingIoc(f))
      || (exists e :: e in m.events && x == EventIoc(e))
      || (exists a :: a in m.attempts && x == AttemptedIoc(a))
  {
    hide FindingIoc, EventIoc, AttemptedIoc;
    var r := Candidates(findings, m);
    if f :| f in findings && x == FindingIoc(f) {
      var i :| 0 <= i < |findings| && findings[i] == f;
      assert r[i] == x;
    }
    if e :| e in m.events && x == EventIoc(e) {
      var i :| 0 <= i < |m.events| && m.events[i] == e;
      assert r[|findings| + i] == x;
    }
    if a :| a in m.attempts && x == AttemptedIoc(a) {
      var i :| 0 <= i < |m.attempts| && m.attempts[i] == a;
      assert r[|findings| + |m.events| + i] == x;
    }
  }

  /** The distinct elements, each where it first occurs. */
  function Dedup(s: seq<Ioc>): seq<Ioc> {
    if s == [] then []
    else
      var init, last := Dedup(s[..|s| - 1]), s[|s| - 1];
      if last in init then init else init + [last]
  }

  /** The position of the first occurrence. */
  function FirstIndex(s: seq<Ioc>, x: Ioc): (i: nat)
    requires x in s
    ensures i < |s| && s[i] == x && forall k :: 0 <= k < i ==> s[k] != x
  {
    if s[0] == x then 0 else 1 + FirstIndex(s[1..], x)
  }

  /** The elements of `d` stand in the order in which they first occur in `s`. */
  ghost predicate InFirstOrder(d: seq<Ioc>, s: seq<Ioc>) {
    && (forall x :: x in d ==> x in s)
    && forall i, j :: 0 <= i < j < |d| ==> d[i] in s && d[j] in s && FirstIndex(s, d[i]) < FirstIndex(s, d[j])
  }

  lemma OrderSnoc(d: seq<Ioc>, init: seq<Ioc>, last: Ioc)
    requires InFirstOrder(d, init)
    ensures InFirstOrder(d, init + [last])
    ensures last !in init ==> InFirstOrder(d + [last], init + [last])
  {
    forall x | x in d ensures x in init + [last] && FirstIndex(init + [last], x) == FirstIndex(init, x) {
      FirstIndexStays(init, last, x);
    }
    hide FirstIndex;
    if last !in init {
      assert (init + [last])[FirstIndex(init + [last], last)] == last;
    }
  }

  /** Deduplication keeps every element once, in the order of first occurrence. */
  lemma {:induction false} DedupIsExact(s: seq<Ioc>)
    ensures var d := Dedup(s);
      && Distinct(d)
      && (forall x :: x in d <==> x in s)
      && InFirstOrder(d, s)
  {
    if s != [] {
      hide InFirstOrder;
      var init, last := s[..|s| - 1], s[|s| - 1];
      assert s == init + [last];
      DedupIsExact(init);
      OrderSnoc(Dedup(init), init, last);
      assert Dedup(s) == if last in Dedup(init) then Dedup(init) else Dedup(init) + [last];
    }
  }

  lemma FirstIndexStays(init: seq<Ioc>, last: Ioc, x: Ioc)
    requires x in init
    ensures FirstIndex(init + [last], x) == FirstIndex(init, x)
  {
    var i, j := FirstIndex(init + [last], x), FirstIndex(init, x);
    assert (init + [last])[j] == init[j] == x;
    assert i < |init| ==> init[i] == (init + [last])[i] == x;
  }

  // ---- score and verdict ----

  function Weight(s: Severity): nat {
    match s
    case Low => 1
    case Medium => 10
    case High => 50
    case Critical => 100
  }

  function Score(iocs: seq<Ioc>): nat {
    if iocs == [] then 0 else Score(iocs[..|iocs| - 1]) + Weight(iocs[|iocs| - 1].severity)
  }

  datatype Verdict = Clean | Suspicious | Malicious | Failed

  function VerdictOf(iocs: seq<Ioc>, error: Option<string>): Verdict {
    if error.Some? && error.value != "" then Failed
    else if exists x :: x in iocs && (x.severity.Critical? || x.severity.High?) then Malicious
    else if exists x :: x in iocs && x.severity.Medium? then Suspicious
    else Clean
  }

  /** Some indicator has this severity. */
  ghost predicate Shows(iocs: seq<Ioc>, severity: Severity) { exists x :: x in iocs && x.severity == severity }

  lemma VerdictBySeverity(iocs: seq<Ioc>)
    ensures VerdictOf(iocs, None) ==
      if Shows(iocs, High) || Shows(iocs, Critical) then Malicious else if Shows(iocs, Medium) then Suspicious else Clean
  {
  }

  /** An error is one only with a text; an empty one decides nothing. */
  lemma ErrorNeedsText(iocs: seq<Ioc>, error: Option<string>)
    ensures VerdictOf(iocs, error).Failed? <==> error.Some? && error.value != ""
    ensures error == Some("") ==> VerdictOf(iocs, error) == VerdictOf(iocs, None)
  {
  }

  function Rank(v: Verdict): nat
    requires !v.Failed?
  {
    match v
    case Clean => 0
    case Suspicious => 1
    case Malicious => 2
  }

  function Without(s: seq<Ioc>, k: nat): seq<Ioc>
    requires k < |s|
  {
    s[..k] + s[k + 1..]
  }

  lemma WithoutMembers(s: seq<Ioc>, k: nat)
    requires k < |s| && Distinct(s)
    ensures Distinct(Without(s, k))
    ensures forall x :: x in Without(s, k) <==> x in s && x != s[k]
  {
    assert s == s[..k] + [s[k]] + s[k + 1..];
  }

  lemma {:induction false} ScoreRemove(iocs: seq<Ioc>, k: nat)
    requires k < |iocs|
    ensures Score(iocs) == Score(Without(iocs, k)) + Weight(iocs[k].severity)
  {
    var init, last := iocs[..|iocs| - 1], |iocs| - 1;
    if k == last {
      assert Without(iocs, k) == init;
    } else {
      ScoreRemove(init, k);
      var rest := Without(iocs, k);
      assert rest[..|rest| - 1] == Without(init, k);
      assert rest[|rest| - 1] == iocs[last];
    }
  }

  /** Over distinct indicators the score grows with the set: strictly if the set does. */
  lemma {:induction false} ScoreMonotone(a: seq<Ioc>, b: seq<Ioc>)
    requires Distinct(a) && Distinct(b) && forall x :: x in a ==> x in b
    ensures Score(a) <= Score(b)
    ensures Score(a) == Score(b) <==> forall x :: x in b ==> x in a
  {
    if a == [] {
      if b != [] { assert b[0] in b && Weight(b[|b| - 1].severity) >= 1; }
    } else {
      hide Weight;
      var init, last := a[..|a| - 1], a[|a| - 1];
      assert last in b;
      var k :| 0 <= k < |b| && b[k] == last;
      var rest := Without(b, k);
      WithoutMembers(b, k);
      WithoutMembers(a, |a| - 1);
      assert Without(a, |a| - 1) == init;
      ScoreRemove(b, k);
      ScoreMonotone(init, rest);
    }
  }

  lemma VerdictMonotone(a: seq<Ioc>, b: seq<Ioc>)
    requires forall x :: x in a ==> x in b
    ensures Rank(VerdictOf(a, None)) <= Rank(VerdictOf(b, None))
  {
  }

  lemma {:induction false} ScoreBounds(iocs: seq<Ioc>)
    ensures |iocs| <= Score(iocs) <= 100 * |iocs|
  {
    if iocs != [] { ScoreBounds(iocs[..|iocs| - 1]); }
  }

  /** One more indicator raises the verdict to its own severity, or leaves it. */
  lemma VerdictSnoc(init: seq<Ioc>, last: Ioc)
    ensures VerdictOf(init + [last], None) ==
      match last.severity
      case Low => VerdictOf(init, None)
      case Medium => if VerdictOf(init, None).Malicious? then Malicious else Suspicious
      case _ => Malicious
  {
    assert forall x :: x in init + [last] <==> x in init || x == last;
  }

  /** The score bounds the verdict: clean means one point each, suspicious at least ten, malicious at least fifty. */
  lemma {:induction false} ScoreOfVerdict(iocs: seq<Ioc>)
    ensures match VerdictOf(iocs, None)
      case Clean => Score(iocs) == |iocs|
      case Suspicious => 10 <= Score(iocs) <= 10 * |iocs|
      case Malicious => 50 <= Score(iocs) <= 100 * |iocs|
      case Failed => false
  {
    if iocs != [] {
      var init, last := iocs[..|iocs| - 1], iocs[|iocs| - 1];
      assert iocs == init + [last];
      VerdictSnoc(init, last);
      ScoreBounds(iocs);
      hide VerdictOf;
      ScoreOfVerdict(init);
    }
  }

  function Unavailable(): (s: string)
    ensures s != ""
  {
    "guest telemetry unavailable, no verdict can be supported: "
  }

  /** What the records say about telemetry that could not be collected; `join` sorts the names and puts commas between. */
  function TelemetryError(unavailable: seq<string>, join: set<string> -> string): Option<string> {
    if unavailable == [] then None else Some(Unavailable() + join(set u | u in unavailable))
  }

  function Iocs(findings: seq<string>, m: Records): seq<Ioc> { Dedup(Candidates(findings, m)) }

  /** What a cycle reports. */
  datatype CycleReport = CycleReport(verdict: Verdict, score: nat, iocs: seq<Ioc>, error: Option<string>)

  /** Extended by later events and attempts; telemetry found missing stays missing. */
  ghost predicate Grows(m: Records, n: Records) {
    m.events <= n.events && m.attempts <= n.attempts && m.unavailable <= n.unavailable
  }

  /**
    A cycle that failed before it collected has no indicators; its own error comes first, then missing telemetry. The
    indicators are collected from `m`; telemetry is read after decontamination, when the records are `n`.
   */
  function ReportOf(findings: seq<string>, m: Records, n: Records, failure: Option<string>, join: set<string> -> string):
    CycleReport
  {
    var failed := failure.Some? && failure.value != "";
    var iocs := if failed then [] else Iocs(findings, m);
    var error := if failed then failure else TelemetryError(n.unavailable, join);
    CycleReport(VerdictOf(iocs, error), Score(iocs), iocs, error)
  }

  lemma CandidatesMonotone(before: string, text: string, after: string, table: Table, lower: char -> string,
                           m: Records, n: Records, x: Ioc)
    requires Grows(m, n) && x in Candidates(Findings(text, table, lower), m)
    ensures x in Candidates(Findings(before + text + after, table, lower), n)
  {
    hide FindingIoc, EventIoc, AttemptedIoc, Candidates, Findings;
    var small, large := Findings(text, table, lower), Findings(before + text + after, table, lower);
    CandidateMembers(small, m, x);
    CandidateMembers(large, n, x);
    if f :| f in small && x == FindingIoc(f) {
      FindingsMonotone(before, text, after, table, lower, f);
    }
  }

  /** A larger text and more records never lower the score nor the verdict. */
  lemma MoreEvidence(before: string, text: string, after: string, table: Table, lower: char -> string, m: Records, n: Records)
    requires Grows(m, n)
    ensures var small, large := Iocs(Findings(text, table, lower), m), Iocs(Findings(before + text + after, table, lower), n);
      && Score(small) <= Score(large)
      && Rank(VerdictOf(small, None)) <= Rank(VerdictOf(large, None))
  {
    hide Candidates, Findings, Dedup, VerdictOf;
    var a := Candidates(Findings(text, table, lower), m);
    var b := Candidates(Findings(before + text + after, table, lower), n);
    forall x | x in a ensures x in b {
      CandidatesMonotone(before, text, after, table, lower, m, n, x);
    }
    DedupIsExact(a);
    DedupIsExact(b);
    ScoreMonotone(Dedup(a), Dedup(b));
    VerdictMonotone(Dedup(a), Dedup(b));
  }

  /** The score is a function of the set of indicators: order and repetition do not matter. */
  lemma ScoreOfSet(a: seq<Ioc>, b: seq<Ioc>)
    requires forall x :: x in a <==> x in b
    ensures Score(Dedup(a)) == Score(Dedup(b))
  {
    DedupIsExact(a);
    DedupIsExact(b);
    hide Dedup;
    ScoreMonotone(Dedup(a), Dedup(b));
  }

  /**
    The verdict is an error exactly when the cycle failed or some telemetry was unavailable by the end; a failed cycle
    reports no indicator, missing telemetry keeps them, and the cycle's own error wins.
   */
  lemma ErrorIff(findings: seq<string>, m: Records, n: Records, failure: Option<string>, join: set<string> -> string)
    requires Grows(m, n)
    ensures var failed, r := failure.Some? && failure.value != "", ReportOf(findings, m, n, failure, join);
      && (r.verdict.Failed? <==> failed || n.unavailable != [])
      && (m.unavailable != [] ==> r.verdict.Failed?)
      && (failed ==> r.error == failure && r.iocs == [] && r.score == 0)
      && (!failed ==> r.iocs == Iocs(findings, m) && r.score == Score(r.iocs))
      && (!failed && n.unavailable != [] ==> r.error.Some? && Unavailable() <= r.error.value)
  {
    hide Iocs, Unavailable;
  }

  /** Any escape attempt recorded in time makes a verdict that is not an error malicious. */
  lemma AttemptIsMalicious(findings: seq<string>, m: Records, n: Records, failure: Option<string>, join: set<string> -> string)
    requires m.attempts != []
    ensures ReportOf(findings, m, n, failure, join).verdict in {Malicious, Verdict.Failed}
  {
    var x := AttemptedIoc(m.attempts[0]);
    assert x.severity.High? || x.severity.Critical?;
    hide Candidates, Dedup, AttemptedIoc;
    CandidateMembers(findings, m, x);
    DedupIsExact(Candidates(findings, m));
  }

  /** An event of threat HIGH or above makes the verdict malicious, one of MEDIUM at least suspicious, unless it is an error. */
  lemma EventDecides(findings: seq<string>, m: Records, n: Records, failure: Option<string>, join: set<string> -> string,
                     e: SecurityEvent)
    requires e in m.events && !ReportOf(findings, m, n, failure, join).verdict.Failed?
    ensures e.severity.HighThreat? || e.severity.CriticalThreat? ==> ReportOf(findings, m, n, failure, join).verdict.Malicious?
    ensures e.severity.MediumThreat? ==> !ReportOf(findings, m, n, failure, join).verdict.Clean?
  {
    hide Candidates, Dedup;
    CandidateMembers(findings, m, EventIoc(e));
    DedupIsExact(Candidates(findings, m));
    assert EventIoc(e) in Iocs(findings, m);
  }

  // ---- what single sources yield ----

  lemma SingleIoc(x: Ioc)
    ensures Dedup([x]) == [x] && Score([x]) == Weight(x.severity)
  {
    assert [x][..0] == [];
  }

  /** Candidates that are all the same indicator are reported once. */
  lemma OnlyOne(s: seq<Ioc>, x: Ioc)
    requires forall y :: y in s <==> y == x
    ensures Dedup(s) == [x]
  {
    DedupIsExact(s);
    hide Dedup;
    var d := Dedup(s);
    assert x in d;
    forall i | 0 <= i < |d| ensures d[i] == x { assert d[i] in d; }
    AtMostOne(d, x);
  }

  lemma AtMostOne(d: seq<Ioc>, x: Ioc)
    requires forall i :: 0 <= i < |d| ==> d[i] == x
    ensures Distinct(d) ==> |d| <= 1
  {
    if |d| > 1 { assert d[0] == d[1]; }
  }

  lemma OneFinding(findings: seq<string>, line: string, n: Records, join: set<string> -> string)
    requires forall f :: f in findings <==> f == line
    ensures var r := ReportOf(findings, Records([], [], []), n, None, join);
      && r.iocs == [FindingIoc(line)] && r.score == Weight(FindingIoc(line).severity)
      && (n.unavailable == [] ==> r.verdict == VerdictOf([FindingIoc(line)], None))
  {
    hide FindingIoc, Candidates, Dedup, Score, VerdictOf;
    var none := Records([], [], []);
    forall y ensures y in Candidates(findings, none) <==> y == FindingIoc(line) { CandidateMembers(findings, none, y); }
    OnlyOne(Candidates(findings, none), FindingIoc(line));
    SingleIoc(FindingIoc(line));
  }

  /** One event alone: its indicator's type by the layer, and one, ten, fifty or a hundred points by the threat. */
  lemma EventAlone(e: SecurityEvent, n: Records, join: set<string> -> string)
    ensures var r := ReportOf([], Records([e], [], []), n, None, join);
      && |r.iocs| == 1 && r.iocs[0].value == e.eventType && r.iocs[0].evidence == e.description
      && r.iocs[0].kind == (match e.layer
           case NetworkLayer => NetworkIoc
           case FilesystemLayer => FileIoc
           case ProcessLayer => ProcessIoc
           case MemoryLayer => MemoryIoc
           case HypervisorLayer => ProcessIoc)
      && r.score == (match e.severity
           case NoThreat => 1
           case LowThreat => 1
           case MediumThreat => 10
           case HighThreat => 50
           case CriticalThreat => 100)
  {
    assert Candidates([], Records([e], [], [])) == [EventIoc(e)];
    SingleIoc(EventIoc(e));
  }

  /** One escape attempt alone: its indicator's type, and fifty points for two kinds of attempt, a hundred for the others. */
  lemma AttemptAlone(a: Attempt, n: Records, join: set<string> -> string)
    ensures var r := ReportOf([], Records([], [a], []), n, None, join);
      && |r.iocs| == 1 && r.iocs[0].value == AttemptName(a)
      && r.iocs[0].evidence == "escape attempt: " + AttemptName(a)
      && r.iocs[0].kind == (match a
           case NetworkExfiltration => NetworkIoc
           case FilePersistence => PersistenceIoc
           case MemoryManipulation => MemoryIoc
           case SideChannel => MemoryIoc
           case VmEscape => ProcessIoc
           case ProcessInjection => ProcessIoc
           case HypervisorAttack => ProcessIoc
           case RootkitDetected => ProcessIoc)
      && r.score == if a.FilePersistence? || a.SideChannel? then 50 else 100
  {
    hide AttemptName;
    assert Candidates([], Records([], [a], [])) == [AttemptedIoc(a)];
    SingleIoc(AttemptedIoc(a));
  }

  /** The names of the attempts, and what their events are filed under: pairwise different names on one of five layers. */
  lemma AttemptsNamed(a: Attempt, b: Attempt)
    ensures AttemptName(a) == AttemptName(b) <==> a == b
    ensures AttemptName(VmEscape) == "vm_escape" && AttemptName(NetworkExfiltration) == "network_exfiltration"
    ensures AttemptName(FilePersistence) == "file_persistence" && AttemptName(ProcessInjection) == "process_injection"
    ensures AttemptName(MemoryManipulation) == "memory_manipulation" && AttemptName(SideChannel) == "side_channel"
    ensures AttemptName(HypervisorAttack) == "hypervisor_attack" && AttemptName(RootkitDetected) == "rootkit_detected"
  {
  }

  /** An attempt that was detected counts twice: by itself and through its critical event, which carries its layer. */
  lemma DetectedAttempt(a: Attempt, details: string, n: Records, join: set<string> -> string)
    ensures var e := SecurityEvent(AttemptLayer(a), "ESCAPE_ATTEMPT_" + Upper(AttemptName(a)), CriticalThreat, details);
      var r := ReportOf([], Records([e], [a], []), n, None, join);
      && r.score == (if a.FilePersistence? || a.SideChannel? then 150 else 200)
      && r.iocs == [EventIoc(e), AttemptedIoc(a)]
      && EventIoc(e).kind == (match a
           case NetworkExfiltration => NetworkIoc
           case FilePersistence => FileIoc
           case MemoryManipulation => MemoryIoc
           case SideChannel => MemoryIoc
           case VmEscape => ProcessIoc
           case ProcessInjection => ProcessIoc
           case HypervisorAttack => ProcessIoc
           case RootkitDetected => ProcessIoc)
      && (AttemptLayer(a).HypervisorLayer? <==> a.VmEscape? || a.HypervisorAttack?)
  {
    var e := SecurityEvent(AttemptLayer(a), "ESCAPE_ATTEMPT_" + Upper(AttemptName(a)), CriticalThreat, details);
    var x, y := EventIoc(e), AttemptedIoc(a);
    AttemptGrades(a);
    NameStartsSmall(a);
    hide AttemptName, Upper, AttemptLayer, LayerIoc, AttemptIoc, VerdictOf, Score, Dedup;
    assert x.value[0] == 'E' && y.value[0] != 'E';
    assert Candidates([], Records([e], [a], [])) == [x, y];
    PairIoc(x, y);
  }

  lemma AttemptGrades(a: Attempt)
    ensures AttemptIoc(a).1 == if a.FilePersistence? || a.SideChannel? then High else Critical
    ensures LayerIoc(AttemptLayer(a)) ==
      if a.NetworkExfiltration? then NetworkIoc
      else if a.FilePersistence? then FileIoc
      else if a.MemoryManipulation? || a.SideChannel? then MemoryIoc
      else ProcessIoc
    ensures AttemptLayer(a).HypervisorLayer? <==> a.VmEscape? || a.HypervisorAttack?
  {
  }

  lemma NameStartsSmall(a: Attempt)
    ensures AttemptName(a) != "" && 'a' <= AttemptName(a)[0] <= 'z'
  {
  }

  lemma PairIoc(x: Ioc, y: Ioc)
    requires x != y
    ensures Dedup([x, y]) == [x, y] && Score([x, y]) == Weight(x.severity) + Weight(y.severity)
  {
    SingleIoc(x);
    assert [x, y][..1] == [x] && [x, y][1] == y;
    hide Weight;
    assert Score([x, y]) == Score([x]) + Weight(y.severity);
  }

  /** Telemetry that is missing by the end is named in the error, each capability once, unless the cycle failed itself. */
  lemma TelemetrySays(findings: seq<string>, m: Records, n: Records, join: set<string> -> string)
    ensures ReportOf(findings, m, n, None, join).error ==
      if n.unavailable == [] then None
      else Some("guest telemetry unavailable, no verdict can be supported: " + join(set u | u in n.unavailable))
  {
    hide Iocs, VerdictOf;
  }

  predicate UnknownCategory(category: string) {
    && category != "vm_escape_indicators" && category != "debugging_indicators" && category != "persistence_indicators"
    && category != "network_exfil_indicators" && category != "injection_indicators"
  }

  lemma UnknownGrade(category: string)
    requires UnknownCategory(category)
    ensures CategoryIoc(category) == (ProcessIoc, High)
  {
  }

  /** A category the program does not know is not played down: its findings alone make a verdict malicious. */
  lemma UnknownCategoryIsMalicious(category: string, pattern: string, n: Records, join: set<string> -> string)
    requires !HasSeparator(category) && n.unavailable == []
    requires UnknownCategory(category)
    ensures var line := Print(category, pattern);
      var r := ReportOf([line], Records([], [], []), n, None, join);
      r.iocs == [Ioc(ProcessIoc, Strip(pattern), High, line)] && r.score == 50 && r.verdict.Malicious?
  {
    var line := Print(category, pattern);
    hide Print, FindingIoc, Strip, Score, Dedup, Candidates, UnknownCategory, CategoryIoc;
    FindingRecovered(category, pattern);
    UnknownGrade(category);
    OneFinding([line], line, n, join);
    hide ReportOf, HasSeparator;
    assert FindingIoc(line) in [FindingIoc(line)];
  }

  /** The indicator of a finding of the table carries the pattern, the category's severity and the printed line. */
  lemma FindingRecovered(category: string, pattern: string)
    requires !HasSeparator(category)
    ensures FindingIoc(Print(category, pattern)) ==
      Ioc(CategoryIoc(category).0, Strip(pattern), CategoryIoc(category).1, Print(category, pattern))
  {
    hide CategoryIoc, Strip, Partition, Print;
    PrintParse(category, pattern);
  }
}
