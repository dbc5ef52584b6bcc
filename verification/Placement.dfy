// Placing and balancing VMs over hosts: the score of a host, the choice of the
// best one, and the migration plan, on host values.
module Placement {
  import opened Basics

  datatype Status = Unknown | Online | Offline | Maintenance

  datatype HostValue = HostValue(
    name: string, status: Status, memory: int, cpus: int, gpus: int, vmCount: int, vmIds: seq<string>)

  function OnlineOf(hosts: seq<HostValue>): seq<HostValue> {
    if hosts == [] then []
    else OnlineOf(hosts[..|hosts| - 1]) + if hosts[|hosts| - 1].status.Online? then [hosts[|hosts| - 1]] else []
  }

  lemma {:induction false} OnlineOfMembers(hosts: seq<HostValue>)
    ensures forall h :: h in OnlineOf(hosts) <==> h in hosts && h.status.Online?
  {
    if hosts != [] {
      OnlineOfMembers(hosts[..|hosts| - 1]);
      assert hosts == hosts[..|hosts| - 1] + [hosts[|hosts| - 1]];
    }
  }

  // ---- placement ----

  datatype Need = Need(memory: nat, cpus: int, gpus: int)

  /** The whole part of a quotient. */
  function Whole(a: nat, b: nat): (q: nat)
    requires b > 0
    ensures q * b <= a < (q + 1) * b
  {
    assert a == a / b * b + a % b;
    a / b
  }

  lemma Scaled(x: nat, y: nat, b: nat)
    ensures x <= y ==> x * b <= y * b
  {
    if x <= y { assert y * b == x * b + (y - x) * b; }
  }

  lemma WholeAtMost(a: nat, b: nat, q: nat)
    requires b > 0 && a <= q * b
    ensures Whole(a, b) <= q
  {
    hide Whole;
    var w := Whole(a, b);
    Scaled(q + 1, w, b);
    assert (q + 1) * b == q * b + b;
  }

  /** How tightly the memory fits, from 0 to 20. */
  function FitBonus(h: HostValue, need: Need): (bonus: nat)
    requires h.memory >= need.memory
    ensures bonus <= 20
  {
    var available := if h.memory > 1 then h.memory else 1;
    WholeAtMost(20 * need.memory, available, 20);
    Whole(20 * need.memory, available)
  }

  function Score(h: HostValue, need: Need, maxVms: int): int {
    (if h.memory >= need.memory then 40 + FitBonus(h, need) else 0)
    + (if h.cpus >= need.cpus then 30 else 0)
    + (if need.gpus > 0 && h.gpus >= need.gpus then 20 else 0)
    + (if h.vmCount < maxVms then 10 else -100)
  }

  /** Without GPUs, of two hosts with room the one that only fits the memory beats the one that only fits the cores. */
  lemma MemoryBeatsCores(h: HostValue, g: HostValue, need: Need, maxVms: int)
    requires need.gpus <= 0 && Roomy(h, maxVms) && Roomy(g, maxVms)
    requires h.memory >= need.memory && h.cpus < need.cpus
    requires g.memory < need.memory && g.cpus >= need.cpus
    ensures Score(g, need, maxVms) == 40 && 50 <= Score(h, need, maxVms) <= 70
  {
  }

  /** Of two hosts that fit the memory, the tighter one has no smaller bonus. */
  lemma TighterScoresNoLess(h: HostValue, g: HostValue, need: Need)
    requires need.memory <= h.memory <= g.memory
    ensures FitBonus(g, need) <= FitBonus(h, need)
  {
    LargerDivisor(20 * need.memory, if h.memory > 1 then h.memory else 1, if g.memory > 1 then g.memory else 1);
  }

  lemma LargerDivisor(n: nat, a: nat, b: nat)
    requires 0 < a <= b
    ensures Whole(n, b) <= Whole(n, a)
  {
    hide Whole;
    Squeeze(n, a, b, Whole(n, a), Whole(n, b));
  }

  lemma Squeeze(n: nat, a: nat, b: nat, x: nat, y: nat)
    requires a <= b && n < (x + 1) * a && y * b <= n
    ensures y <= x
  {
    assert y * b == y * a + y * (b - a);
    Scaled(x + 1, y, a);
  }

  /** The bonus is the whole number of twentieths of the host's memory that the need takes. */
  lemma BonusIsTwentieths(h: HostValue, need: Need)
    requires 0 < need.memory <= h.memory
    ensures FitBonus(h, need) * h.memory <= 20 * need.memory < (FitBonus(h, need) + 1) * h.memory
  {
    hide Whole;
  }

  /** `best` is the first host of maximal score, if that score is positive. */
  ghost predicate IsBest(best: Option<nat>, online: seq<HostValue>, need: Need, maxVms: int) {
    match best
    case None => forall h :: h in online ==> Score(h, need, maxVms) <= 0
    case Some(i) =>
      && i < |online| && Score(online[i], need, maxVms) > 0
      && (forall j :: 0 <= j < |online| ==> Score(online[j], need, maxVms) <= Score(online[i], need, maxVms))
      && (forall j :: 0 <= j < i ==> Score(online[j], need, maxVms) < Score(online[i], need, maxVms))
  }

  predicate Fits(h: HostValue, need: Need) { h.memory >= need.memory && h.cpus >= need.cpus }

  predicate Roomy(h: HostValue, maxVms: int) { h.vmCount < maxVms }

  /** A roomy host with enough memory and cores outscores any other that is not, by at least ten points without GPUs. */
  lemma ScoreSeparates(h: HostValue, need: Need, maxVms: int)
    ensures need.gpus <= 0 ==>
      if Fits(h, need) && Roomy(h, maxVms) then 80 <= Score(h, need, maxVms) <= 100 else Score(h, need, maxVms) <= 70
    ensures need.gpus > 0 ==>
      if Fits(h, need) && Roomy(h, maxVms) then
        (if h.gpus >= need.gpus then 100 <= Score(h, need, maxVms) <= 120 else 80 <= Score(h, need, maxVms) <= 100)
      else Score(h, need, maxVms) <= 90
  {
  }

  /** Without GPUs: if some online host fits and has room, so does the chosen one; and one is chosen iff some host has room. */
  lemma PlacementGuarantee(best: Option<nat>, online: seq<HostValue>, need: Need, maxVms: int)
    requires IsBest(best, online, need, maxVms) && need.gpus <= 0
    ensures (exists h :: h in online && Fits(h, need) && Roomy(h, maxVms)) ==>
      best.Some? && Fits(online[best.value], need) && Roomy(online[best.value], maxVms)
    ensures best.Some? <==> exists h :: h in online && Roomy(h, maxVms)
    ensures best.Some? ==> Roomy(online[best.value], maxVms)
  {
    forall h | h in online ensures Score(h, need, maxVms) > 0 <==> Roomy(h, maxVms) {
      ScoreSeparates(h, need, maxVms);
    }
    if h :| h in online && Fits(h, need) && Roomy(h, maxVms) {
      ScoreSeparates(h, need, maxVms);
      assert best.Some?;
      var i :| 0 <= i < |online| && online[i] == h;
      ScoreSeparates(online[best.value], need, maxVms);
    }
  }

  /**
    With GPUs: if some online host meets the whole need and has room, the chosen one still fits memory and cores and
    has room, and it lacks the GPUs only if it fits the memory exactly.
   */
  lemma GpuPlacement(best: Option<nat>, online: seq<HostValue>, need: Need, maxVms: int)
    requires IsBest(best, online, need, maxVms) && need.gpus > 0
    requires exists h :: h in online && Meets(h, need, maxVms)
    ensures best.Some?
    ensures var chosen := online[best.value];
      && Fits(chosen, need) && Roomy(chosen, maxVms)
      && (chosen.gpus < need.gpus ==> chosen.memory == need.memory)
  {
    var h :| h in online && Meets(h, need, maxVms);
    ScoreSeparates(h, need, maxVms);
    var i :| 0 <= i < |online| && online[i] == h;
    assert best.Some? && Score(online[best.value], need, maxVms) >= 100;
    var chosen := online[best.value];
    ScoreSeparates(chosen, need, maxVms);
    if chosen.gpus < need.gpus {
      BonusEnds(chosen, need);
    }
  }

  /** The whole bonus goes to an exact fit of a request for memory, none to a host with over twenty times the memory. */
  lemma BonusEnds(h: HostValue, need: Need)
    requires h.memory >= need.memory
    ensures FitBonus(h, need) == 20 <==> h.memory == need.memory > 0
    ensures FitBonus(h, need) == 0 <==> need.memory == 0 || h.memory > 20 * need.memory
  {
    hide Whole;
    var available := if h.memory > 1 then h.memory else 1;
    var bonus := FitBonus(h, need);
    assert bonus * available <= 20 * need.memory < (bonus + 1) * available;
    if bonus == 20 { assert available <= need.memory; }
    if h.memory == need.memory > 0 { assert 20 * available < (bonus + 1) * available; Scaled(bonus + 1, 20, available); }
    if bonus > 0 { assert available <= bonus * available by { Scaled(1, bonus, available); } }
  }

  /**
    A host without room can still be chosen: alone, exactly when it meets a need for GPUs and everything else, and more
    than half of its memory is asked for, by at least eleven twentieths.
   */
  lemma FullHostChosenIff(h: HostValue, need: Need, maxVms: int)
    requires !Roomy(h, maxVms)
    ensures Score(h, need, maxVms) <= 10
    ensures IsBest(Some(0), [h], need, maxVms) <==>
      Fits(h, need) && need.gpus > 0 && h.gpus >= need.gpus && need.memory > 0 && 20 * need.memory >= 11 * h.memory
  {
    hide FitBonus;
    assert IsBest(Some(0), [h], need, maxVms) <==> Score(h, need, maxVms) > 0 by { assert [h][0] == h; }
    if h.memory >= need.memory {
      BonusEnds(h, need);
      if need.memory > 0 {
        BonusIsTwentieths(h, need);
        Scaled(11, FitBonus(h, need), h.memory);
        Scaled(FitBonus(h, need) + 1, 11, h.memory);
      }
    }
  }

  /** The host meets the whole need and has room. */
  predicate Meets(h: HostValue, need: Need, maxVms: int) { Fits(h, need) && Roomy(h, maxVms) && h.gpus >= need.gpus }

  /**
    Host `i` fits the memory exactly and lacks only the GPUs, and every host that meets the need comes later and has
    over twenty times the memory.
   */
  ghost predicate Eclipses(i: nat, online: seq<HostValue>, need: Need, maxVms: int)
    requires i < |online|
  {
    && Fits(online[i], need) && Roomy(online[i], maxVms) && online[i].gpus < need.gpus
    && online[i].memory == need.memory > 0
    && forall j :: 0 <= j < |online| && Meets(online[j], need, maxVms) ==> j > i && online[j].memory > 20 * need.memory
  }

  /** The score of a host with room that fits, and of one that meets the need. */
  lemma ScoreOfFit(h: HostValue, need: Need, maxVms: int)
    requires need.gpus > 0 && Fits(h, need) && Roomy(h, maxVms)
    ensures Score(h, need, maxVms) == (if h.gpus >= need.gpus then 100 else 80) + FitBonus(h, need)
  {
  }

  /** Exactly when a host without the GPUs is chosen although some host meets the whole need. */
  lemma PassedOverIff(best: Option<nat>, online: seq<HostValue>, need: Need, maxVms: int)
    requires IsBest(best, online, need, maxVms) && need.gpus > 0
    requires exists h :: h in online && Meets(h, need, maxVms)
    ensures best.Some? && (online[best.value].gpus < need.gpus <==>
      exists i :: 0 <= i < |online| && Eclipses(i, online, need, maxVms))
  {
    var h :| h in online && Meets(h, need, maxVms);
    GpuPlacement(best, online, need, maxVms);
    var k := best.value;
    hide Score, FitBonus;
    if online[k].gpus < need.gpus {
      ScoreOfFit(online[k], need, maxVms);
      BonusEnds(online[k], need);
      forall j | 0 <= j < |online| && Meets(online[j], need, maxVms) ensures j > k && online[j].memory > 20 * need.memory {
        ScoreOfFit(online[j], need, maxVms);
        BonusEnds(online[j], need);
      }
      var j :| 0 <= j < |online| && online[j] == h;
      ScoreOfFit(h, need, maxVms);
      assert Eclipses(k, online, need, maxVms);
    }
    if i :| 0 <= i < |online| && Eclipses(i, online, need, maxVms) {
      ScoreOfFit(online[i], need, maxVms);
      BonusEnds(online[i], need);
      if Meets(online[k], need, maxVms) {
        ScoreOfFit(online[k], need, maxVms);
        BonusEnds(online[k], need);
      }
    }
  }

  /** That exception is real: a GPU host can lose to an exact fit without GPUs that comes first. */
  lemma GpuCanBePassedOver()
    ensures var exact := HostValue("a", Online, 1000, 4, 0, 0, []);
      var gpu := HostValue("b", Online, 64000, 4, 1, 0, []);
      var need := Need(1000, 4, 1);
      && IsBest(Some(0), [exact, gpu], need, 10)
      && Fits(gpu, need) && Roomy(gpu, 10) && gpu.gpus >= need.gpus > exact.gpus
  {
    var exact := HostValue("a", Online, 1000, 4, 0, 0, []);
    var gpu := HostValue("b", Online, 64000, 4, 1, 0, []);
    var need := Need(1000, 4, 1);
    assert Score(exact, need, 10) == 100 && Score(gpu, need, 10) == 100;
  }

  method FindBest(online: seq<HostValue>, need: Need, maxVms: int) returns (best: Option<nat>)
    ensures IsBest(best, online, need, maxVms)
  {
    if |online| == 0 { return None; }
    var i := 0;
    for j := 1 to |online|
      invariant 0 <= i < j
      invariant forall k :: 0 <= k < j ==> Score(online[k], need, maxVms) <= Score(online[i], need, maxVms)
      invariant forall k :: 0 <= k < i ==> Score(online[k], need, maxVms) < Score(online[i], need, maxVms)
    {
      if Score(online[j], need, maxVms) > Score(online[i], need, maxVms) { i := j; }
    }
    return if Score(online[i], need, maxVms) > 0 then Some(i) else None;
  }

  // ---- balancing ----

  function TotalVms(hosts: seq<HostValue>): nat {
    if hosts == [] then 0 else TotalVms(hosts[..|hosts| - 1]) + |hosts[|hosts| - 1].vmIds|
  }

  /** The number of VMs every online host should hold. */
  function Ideal(online: seq<HostValue>): (ideal: nat)
    requires online != []
    ensures ideal >= 1
  {
    var share := Whole(TotalVms(online), |online|);
    if share > 1 then share else 1
  }

  /** The ideal is the whole part of the mean share, and one where there are fewer VMs than hosts. */
  lemma IdealIsMeanShare(online: seq<HostValue>)
    requires online != []
    ensures TotalVms(online) >= |online| ==>
      Ideal(online) * |online| <= TotalVms(online) < (Ideal(online) + 1) * |online|
    ensures TotalVms(online) < |online| ==> Ideal(online) == 1
  {
    var total, n := TotalVms(online), |online|;
    hide Whole;
    if total < n { SparseIdealIsOne(online); } else { FullQuotient(total, n); }
  }

  lemma FullQuotient(a: nat, b: nat)
    requires a >= b > 0
    ensures Whole(a, b) >= 1
  {
    hide Whole;
    Scaled(Whole(a, b) + 1, 1, b);
  }

  /** The first other host below the ideal. */
  ghost predicate IsFirstUnder(k: nat, i: nat, online: seq<HostValue>, ideal: nat) {
    && k < |online| && k != i && |online[k].vmIds| < ideal
    && forall j :: 0 <= j < k && j != i ==> |online[j].vmIds| >= ideal
  }

  /** What the plan moves off host `i`: nothing, or a prefix bounded by its excess and the first deficit. */
  ghost predicate PlansFor(moves: seq<string>, i: nat, online: seq<HostValue>, ideal: nat)
    requires i < |online|
  {
    var vms := online[i].vmIds;
    if |vms| > ideal && exists k: nat :: IsFirstUnder(k, i, online, ideal) then
      exists k: nat :: IsFirstUnder(k, i, online, ideal)
        && var deficit := ideal - |online[k].vmIds|;
          moves == vms[..if |vms| - ideal <= deficit then |vms| - ideal else deficit]
    else moves == []
  }

  ghost predicate UniqueNames(hosts: seq<HostValue>) {
    forall i, j :: 0 <= i < j < |hosts| ==> hosts[i].name != hosts[j].name
  }

  /** The plan names exactly the hosts something is moved off. */
  ghost predicate IsPlan(plan: map<string, seq<string>>, online: seq<HostValue>)
    requires |online| >= 2
  {
    && (forall i :: 0 <= i < |online| ==>
          PlansFor(if online[i].name in plan then plan[online[i].name] else [], i, online, Ideal(online)))
    && (forall name :: name in plan ==> plan[name] != [] && exists i :: 0 <= i < |online| && online[i].name == name)
  }

  method Balance(online: seq<HostValue>) returns (plan: map<string, seq<string>>)
    requires UniqueNames(online)
    ensures |online| < 2 ==> plan == map[]
    ensures |online| >= 2 ==> IsPlan(plan, online)
  {
    plan := map[];
    if |online| < 2 { return; }
    var total := 0;
    for i := 0 to |online|
      invariant total == TotalVms(online[..i])
    {
      assert online[..i + 1][..i] == online[..i];
      total := total + |online[i].vmIds|;
    }
    assert online[..|online|] == online;
    var ideal := if Whole(total, |online|) > 1 then Whole(total, |online|) else 1;
    for i := 0 to |online|
      invariant forall k :: 0 <= k < i ==>
        PlansFor(if online[k].name in plan then plan[online[k].name] else [], k, online, ideal)
      invariant forall name :: name in plan ==> plan[name] != [] && exists k :: 0 <= k < i && online[k].name == name
    {
      var moves := PlanFor(i, online, ideal);
      if moves != [] {
        plan := plan[online[i].name := moves];
      }
    }
  }

  method PlanFor(i: nat, online: seq<HostValue>, ideal: nat) returns (moves: seq<string>)
    requires i < |online|
    ensures PlansFor(moves, i, online, ideal)
  {
    var vms := online[i].vmIds;
    moves := [];
    if |vms| <= ideal { return; }
    for k := 0 to |online|
      invariant forall j :: 0 <= j < k && j != i ==> |online[j].vmIds| >= ideal
    {
      if k != i {
        var deficit := ideal - |online[k].vmIds|;
        if deficit > 0 {
          assert IsFirstUnder(k, i, online, ideal);
          return vms[..if |vms| - ideal <= deficit then |vms| - ideal else deficit];
        }
      }
    }
  }

  /** Every entry is a nonempty prefix of its host's VMs, and moving it leaves the host at or above the ideal. */
  lemma PlanEntries(plan: map<string, seq<string>>, online: seq<HostValue>)
    requires |online| >= 2 && IsPlan(plan, online)
    ensures forall name :: name in plan ==> exists i ::
      && 0 <= i < |online| && online[i].name == name
      && 0 < |plan[name]| && plan[name] <= online[i].vmIds
      && |online[i].vmIds| - |plan[name]| >= Ideal(online)
  {
    hide IsPlan, PlansFor, Ideal;
    forall name | name in plan
      ensures exists i ::
        && 0 <= i < |online| && online[i].name == name
        && 0 < |plan[name]| && plan[name] <= online[i].vmIds
        && |online[i].vmIds| - |plan[name]| >= Ideal(online)
    {
      var i := PlannedName(plan, online, name);
      PlannedHost(plan, online, i);
      EntryIsPrefix(plan[name], i, online, Ideal(online));
    }
  }

  lemma EntryIsPrefix(moves: seq<string>, i: nat, online: seq<HostValue>, ideal: nat)
    requires i < |online| && PlansFor(moves, i, online, ideal) && moves != []
    ensures moves <= online[i].vmIds && |online[i].vmIds| - |moves| >= ideal
  {
  }

  /** Nothing is planned off a host that holds no more than the mean share. */
  lemma MeanShareStays(plan: map<string, seq<string>>, online: seq<HostValue>, i: nat)
    requires |online| >= 2 && IsPlan(plan, online) && i < |online|
    requires |online[i].vmIds| * |online| <= TotalVms(online)
    ensures online[i].name !in plan
  {
    hide IsPlan, Ideal, TotalVms;
    IdealIsMeanShare(online);
    PlannedHost(plan, online, i);
    NotAboveIdeal(|online[i].vmIds|, |online|, TotalVms(online), Ideal(online));
    assert MovesOff(plan, online[i].name) == [];
    NothingPlannedEmpty(plan, online);
  }

  lemma NotAboveIdeal(c: nat, n: nat, total: nat, ideal: nat)
    requires n > 0 && c * n <= total
    requires total >= n ==> total < (ideal + 1) * n
    requires total < n ==> ideal == 1
    ensures c <= ideal
  {
    Scaled(if total >= n then ideal + 1 else 2, c, n);
  }

  lemma NothingPlannedEmpty(plan: map<string, seq<string>>, online: seq<HostValue>)
    requires |online| >= 2 && IsPlan(plan, online)
    ensures forall name :: name in plan ==> MovesOff(plan, name) != []
  {
    hide PlansFor, Ideal;
  }

  lemma {:induction false} TotalBound(hosts: seq<HostValue>, c: nat)
    requires forall i :: 0 <= i < |hosts| ==> |hosts[i].vmIds| <= c
    ensures TotalVms(hosts) <= c * |hosts|
    ensures (exists i :: 0 <= i < |hosts| && |hosts[i].vmIds| < c) ==> TotalVms(hosts) < c * |hosts|
  {
    if hosts != [] {
      var init := hosts[..|hosts| - 1];
      TotalBound(init, c);
      assert c * |hosts| == c * |init| + c;
      if i :| 0 <= i < |hosts| && |hosts[i].vmIds| < c {
        assert i < |init| ==> init[i] == hosts[i];
      }
    }
  }

  /** Pigeonhole: below one VM per host, some host holds none. */
  lemma {:induction false} SomeHostIsEmpty(hosts: seq<HostValue>)
    requires TotalVms(hosts) < |hosts|
    ensures exists i :: 0 <= i < |hosts| && hosts[i].vmIds == []
  {
    var init, last := hosts[..|hosts| - 1], |hosts| - 1;
    if hosts[last].vmIds != [] {
      SomeHostIsEmpty(init);
      var i :| 0 <= i < |init| && init[i].vmIds == [];
      assert hosts[i].vmIds == [];
    }
  }

  lemma LeastUnder(i: nat, online: seq<HostValue>, ideal: nat, k: nat) returns (m: nat)
    requires k < |online| && k != i && |online[k].vmIds| < ideal
    ensures IsFirstUnder(m, i, online, ideal)
  {
    m := 0;
    while m == i || |online[m].vmIds| >= ideal
      invariant m <= k && forall j :: 0 <= j < m && j != i ==> |online[j].vmIds| >= ideal
      decreases k - m
    {
      m := m + 1;
    }
  }

  lemma EntryHasEnds(moves: seq<string>, i: nat, online: seq<HostValue>, ideal: nat)
    requires i < |online| && PlansFor(moves, i, online, ideal) && moves != []
    ensures |online[i].vmIds| > ideal && exists k :: 0 <= k < |online| && |online[k].vmIds| < ideal
  {
    var k: nat :| IsFirstUnder(k, i, online, ideal);
  }

  lemma EndsHaveEntry(moves: seq<string>, i: nat, online: seq<HostValue>, ideal: nat, k: nat)
    requires i < |online| && PlansFor(moves, i, online, ideal)
    requires k < |online| && |online[k].vmIds| < ideal < |online[i].vmIds|
    ensures moves != []
  {
    var m := LeastUnder(i, online, ideal, k);
  }

  /** What the plan moves off the host of that name. */
  function MovesOff(plan: map<string, seq<string>>, name: string): seq<string> {
    if name in plan then plan[name] else []
  }

  lemma PlannedHost(plan: map<string, seq<string>>, online: seq<HostValue>, i: nat)
    requires |online| >= 2 && IsPlan(plan, online) && i < |online|
    ensures PlansFor(MovesOff(plan, online[i].name), i, online, Ideal(online))
  {
    hide PlansFor, Ideal;
  }

  lemma PlannedName(plan: map<string, seq<string>>, online: seq<HostValue>, name: string) returns (i: nat)
    requires |online| >= 2 && IsPlan(plan, online) && name in plan
    ensures i < |online| && online[i].name == name && plan[name] != []
  {
    hide PlansFor, Ideal;
    i :| 0 <= i < |online| && online[i].name == name;
  }

  /** The plan moves something exactly when one host is above the ideal and another below it. */
  lemma PlanNonEmptyIff(plan: map<string, seq<string>>, online: seq<HostValue>)
    requires |online| >= 2 && IsPlan(plan, online)
    ensures plan != map[] <==>
      && (exists i :: 0 <= i < |online| && |online[i].vmIds| > Ideal(online))
      && (exists k :: 0 <= k < |online| && |online[k].vmIds| < Ideal(online))
  {
    hide IsPlan, PlansFor, Ideal;
    if plan != map[] {
      var name :| name in plan;
      var i := PlannedName(plan, online, name);
      PlannedHost(plan, online, i);
      EntryHasEnds(plan[name], i, online, Ideal(online));
    }
    if i, k :| 0 <= i < |online| && 0 <= k < |online| && |online[k].vmIds| < Ideal(online) < |online[i].vmIds| {
      PlannedHost(plan, online, i);
      EndsHaveEntry(MovesOff(plan, online[i].name), i, online, Ideal(online), k);
      assert online[i].name in plan;
    }
  }

  /** With at least one VM per host, a host below the ideal forces another one above it. */
  lemma DeficitForcesExcess(online: seq<HostValue>)
    requires |online| > 0 && TotalVms(online) >= |online|
    requires exists k :: 0 <= k < |online| && |online[k].vmIds| < Ideal(online)
    ensures exists i :: 0 <= i < |online| && |online[i].vmIds| > Ideal(online)
  {
    var n, total := |online|, TotalVms(online);
    IdealIsMeanShare(online);
    hide Ideal;
    if forall i :: 0 <= i < n ==> |online[i].vmIds| <= Ideal(online) {
      TotalBound(online, Ideal(online));
      assert false;
    }
  }

  lemma SparseIdealIsOne(online: seq<HostValue>)
    requires 0 < |online| && TotalVms(online) < |online|
    ensures Ideal(online) == 1
  {
    hide TotalVms;
    SmallQuotient(TotalVms(online), |online|);
  }

  lemma SmallQuotient(a: nat, b: nat)
    requires a < b
    ensures Whole(a, b) == 0
  {
    hide Whole;
    Scaled(1, Whole(a, b), b);
  }

  /**
    With at least one VM per host the plan is empty iff no host is below the ideal; with fewer it is empty iff
    no host holds two.
   */
  lemma PlanEmptyIff(plan: map<string, seq<string>>, online: seq<HostValue>)
    requires |online| >= 2 && IsPlan(plan, online)
    ensures TotalVms(online) >= |online| ==>
      (plan == map[] <==> forall i :: 0 <= i < |online| ==> |online[i].vmIds| >= Ideal(online))
    ensures TotalVms(online) < |online| ==>
      (plan == map[] <==> forall i :: 0 <= i < |online| ==> |online[i].vmIds| <= 1)
  {
    hide IsPlan, Ideal, TotalVms;
    PlanNonEmptyIff(plan, online);
    if TotalVms(online) >= |online| {
      if exists k :: 0 <= k < |online| && |online[k].vmIds| < Ideal(online) {
        DeficitForcesExcess(online);
      }
    } else {
      SomeHostIsEmpty(online);
      SparseIdealIsOne(online);
    }
  }
}
