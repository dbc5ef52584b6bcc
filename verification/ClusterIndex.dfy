// The two-way index between hosts and VMs, as functions on values, and when the
// two sides agree.
module ClusterIndex {
  import opened Basics
  import opened Placement

  datatype Cluster = Cluster(hosts: seq<HostValue>, vmHosts: map<string, string>)

  function SetOf(s: seq<string>): set<string> { set v | v in s }

  function NewHost(name: string): HostValue { HostValue(name, Online, 0, 0, 0, 0, []) }

  /** The position of the host with this name. */
  function Find(hosts: seq<HostValue>, name: string): (r: Option<nat>)
    ensures r.Some? ==> r.value < |hosts| && hosts[r.value].name == name
    ensures r.None? ==> forall i :: 0 <= i < |hosts| ==> hosts[i].name != name
    ensures r.Some? && UniqueNames(hosts) ==> forall i :: 0 <= i < |hosts| && hosts[i].name == name ==> i == r.value
  {
    if hosts == [] then None
    else
      var last := |hosts| - 1;
      if hosts[last].name == name then Some(last) else Find(hosts[..last], name)
  }

  /** An existing host of that name is replaced where it stands. */
  function AddHost(c: Cluster, name: string): Cluster {
    match Find(c.hosts, name)
    case None => c.(hosts := c.hosts + [NewHost(name)])
    case Some(i) => c.(hosts := c.hosts[i := NewHost(name)])
  }

  function RemoveHost(c: Cluster, name: string): (Cluster, bool) {
    match Find(c.hosts, name)
    case None => (c, false)
    case Some(i) =>
      (Cluster(c.hosts[..i] + c.hosts[i + 1..], c.vmHosts - SetOf(c.hosts[i].vmIds)), true)
  }

  /** A heartbeat, or any other update of a host's status and resources. */
  function Refresh(c: Cluster, name: string, status: Status, memory: int, cpus: int, gpus: int): Cluster {
    match Find(c.hosts, name)
    case None => c
    case Some(i) => c.(hosts := c.hosts[i := c.hosts[i].(status := status, memory := memory, cpus := cpus, gpus := gpus)])
  }

  function WithVms(h: HostValue, vmIds: seq<string>): HostValue {
    h.(vmIds := vmIds, vmCount := |vmIds|)
  }

  function Register(c: Cluster, vm: string, name: string): (Cluster, bool) {
    match Find(c.hosts, name)
    case None => (c, false)
    case Some(i) =>
      if !c.hosts[i].status.Online? then (c, false)
      else
        var h := c.hosts[i];
        (Cluster(if vm in h.vmIds then c.hosts else c.hosts[i := WithVms(h, h.vmIds + [vm])], c.vmHosts[vm := name]), true)
  }

  /** The list without the first occurrence of `x`. */
  function RemoveFirst(s: seq<string>, x: string): seq<string> {
    if s == [] then [] else if s[0] == x then s[1..] else [s[0]] + RemoveFirst(s[1..], x)
  }

  lemma {:induction false} RemoveFirstFacts(s: seq<string>, x: string)
    requires Distinct(s)
    ensures Distinct(RemoveFirst(s, x))
    ensures forall y :: y in RemoveFirst(s, x) <==> y in s && y != x
  {
    if s != [] {
      assert s == [s[0]] + s[1..];
      if s[0] != x {
        RemoveFirstFacts(s[1..], x);
        var rest := RemoveFirst(s[1..], x);
        assert s[0] !in rest by { assert s[0] !in s[1..]; }
        assert Distinct([s[0]] + rest);
      }
    }
  }

  /** A VM recorded under the empty host name is not found. */
  function Unregister(c: Cluster, vm: string): (Cluster, bool) {
    if vm !in c.vmHosts || c.vmHosts[vm] == "" then (c, false)
    else
      var hosts :=
        match Find(c.hosts, c.vmHosts[vm])
        case None => c.hosts
        case Some(i) =>
          if vm in c.hosts[i].vmIds then c.hosts[i := WithVms(c.hosts[i], RemoveFirst(c.hosts[i].vmIds, vm))] else c.hosts;
      (Cluster(hosts, c.vmHosts - {vm}), true)
  }

  function UnregisterAll(c: Cluster, vms: seq<string>): (r: Cluster)
    ensures |r.hosts| == |c.hosts|
  {
    if vms == [] then c else Unregister(UnregisterAll(c, vms[..|vms| - 1]), vms[|vms| - 1]).0
  }

  /** Evicts the VMs of the first `k` hosts that are OFFLINE. */
  function EvictFirst(c: Cluster, k: nat): (r: (Cluster, seq<string>))
    requires k <= |c.hosts|
    ensures |r.0.hosts| == |c.hosts|
  {
    if k == 0 then (c, [])
    else
      var (d, evicted) := EvictFirst(c, k - 1);
      var h := d.hosts[k - 1];
      if h.status.Offline? && h.vmIds != [] then
        var e := UnregisterAll(d, h.vmIds);
        (e.(hosts := e.hosts[k - 1 := WithVms(e.hosts[k - 1], [])]), evicted + h.vmIds)
      else (d, evicted)
  }

  function Evict(c: Cluster): (Cluster, seq<string>) { EvictFirst(c, |c.hosts|) }

  // ---- agreement ----

  ghost predicate HostOk(h: HostValue) {
    h.name != "" && Distinct(h.vmIds) && h.vmCount == |h.vmIds|
  }

  /** Host `i` lists the VM, and the VM is mapped to it. */
  ghost predicate Holds(c: Cluster, i: nat, v: string) {
    i < |c.hosts| && v in c.hosts[i].vmIds && v in c.vmHosts && c.vmHosts[v] == c.hosts[i].name
  }

  ghost predicate HostsOk(hosts: seq<HostValue>) {
    UniqueNames(hosts) && forall i :: 0 <= i < |hosts| ==> HostOk(hosts[i])
  }

  /** The two sides of the index agree: each host lists exactly the VMs mapped to it, once. */
  ghost predicate Agrees(c: Cluster) {
    && HostsOk(c.hosts)
    && (forall i: nat, v :: i < |c.hosts| && v in c.hosts[i].vmIds ==> Holds(c, i, v))
    && (forall v :: v in c.vmHosts ==> exists i: nat :: Holds(c, i, v))
  }

  /** Looking a VM up on either side gives the same host. */
  lemma AgreementBothWays(c: Cluster, v: string, i: nat)
    requires Agrees(c) && i < |c.hosts|
    ensures v in c.hosts[i].vmIds <==> v in c.vmHosts && c.vmHosts[v] == c.hosts[i].name
  {
    if v in c.vmHosts && c.vmHosts[v] == c.hosts[i].name {
      var j: nat :| Holds(c, j, v);
      assert j == i;
    }
  }

  lemma GrownHostsOk(hosts: seq<HostValue>, i: nat, vm: string)
    requires HostsOk(hosts) && i < |hosts| && vm !in hosts[i].vmIds
    ensures HostsOk(hosts[i := WithVms(hosts[i], hosts[i].vmIds + [vm])])
  {
    assert HostOk(hosts[i]);
  }

  /** Putting a VM that is mapped nowhere on a host and into the map keeps the agreement. */
  lemma GrowAgrees(c: Cluster, i: nat, vm: string)
    requires Agrees(c) && i < |c.hosts| && vm !in c.vmHosts
    ensures Agrees(Cluster(c.hosts[i := WithVms(c.hosts[i], c.hosts[i].vmIds + [vm])], c.vmHosts[vm := c.hosts[i].name]))
  {
    var d := Cluster(c.hosts[i := WithVms(c.hosts[i], c.hosts[i].vmIds + [vm])], c.vmHosts[vm := c.hosts[i].name]);
    assert vm !in c.hosts[i].vmIds by { assert !Holds(c, i, vm); }
    GrownHostsOk(c.hosts, i, vm);
    hide HostsOk;
    forall k: nat, v | k < |d.hosts| && v in d.hosts[k].vmIds ensures Holds(d, k, v) {
      if !(k == i && v == vm) { assert Holds(c, k, v); }
    }
    forall v | v in d.vmHosts ensures exists k: nat :: Holds(d, k, v) {
      if v == vm { assert Holds(d, i, v); } else { var k: nat :| Holds(c, k, v); assert Holds(d, k, v); }
    }
  }

  lemma RegisterAgrees(c: Cluster, vm: string, name: string)
    requires Agrees(c) && (vm !in c.vmHosts || c.vmHosts[vm] == name)
    ensures Agrees(Register(c, vm, name).0)
  {
    var (d, ok) := Register(c, vm, name);
    if ok {
      var i := Find(c.hosts, name).value;
      AgreementBothWays(c, vm, i);
      hide Agrees;
      if vm in c.vmHosts { assert d == c; } else { GrowAgrees(c, i, vm); }
    }
  }

  /**
    Registering keeps the agreement exactly when the host is unknown or not ONLINE, or the VM is not on another host:
    the old entry is never dropped.
   */
  lemma RegisterAgreesIff(c: Cluster, vm: string, name: string)
    requires Agrees(c)
    ensures Agrees(Register(c, vm, name).0) <==>
      || Find(c.hosts, name).None? || !c.hosts[Find(c.hosts, name).value].status.Online?
      || vm !in c.vmHosts || c.vmHosts[vm] == name
  {
    var (d, ok) := Register(c, vm, name);
    if ok && vm in c.vmHosts && c.vmHosts[vm] != name {
      var j: nat :| Holds(c, j, vm);
      assert vm in d.hosts[j].vmIds && !Holds(d, j, vm);
    } else if ok {
      RegisterAgrees(c, vm, name);
    }
  }

  /** Adding keeps the agreement exactly when the name is not empty and does not replace a host that holds VMs. */
  lemma AddHostAgreesIff(c: Cluster, name: string)
    requires Agrees(c)
    ensures Agrees(AddHost(c, name)) <==>
      name != "" && (Find(c.hosts, name).None? || c.hosts[Find(c.hosts, name).value].vmIds == [])
  {
    hide Find;
    var d := AddHost(c, name);
    match Find(c.hosts, name) {
      case None =>
        assert !HostOk(NewHost("")) && d.hosts[|c.hosts|] == NewHost(name);
        forall k: nat, v | k < |d.hosts| && v in d.hosts[k].vmIds ensures Holds(d, k, v) { assert Holds(c, k, v); }
        forall v | v in d.vmHosts ensures exists k: nat :: Holds(d, k, v) {
          var k: nat :| Holds(c, k, v);
          assert Holds(d, k, v);
        }
      case Some(i) =>
        if c.hosts[i].vmIds == [] {
          forall k: nat, v | k < |d.hosts| && v in d.hosts[k].vmIds ensures Holds(d, k, v) { assert Holds(c, k, v); }
          forall v | v in d.vmHosts ensures exists k: nat :: Holds(d, k, v) {
            var k: nat :| Holds(c, k, v);
            assert Holds(d, k, v);
          }
        } else {
          var v := c.hosts[i].vmIds[0];
          assert Holds(c, i, v);
          forall k: nat ensures !Holds(d, k, v) { }
        }
    }
  }

  /** After a removal the name is unknown, exactly its VMs are unmapped, and every other host stays; True means it was known. */
  lemma RemovalIsExact(c: Cluster, name: string)
    requires Agrees(c)
    ensures var (d, ok) := RemoveHost(c, name);
      && (ok <==> exists i :: 0 <= i < |c.hosts| && c.hosts[i].name == name)
      && (forall i :: 0 <= i < |d.hosts| ==> d.hosts[i].name != name)
      && (forall h :: h in d.hosts <==> h in c.hosts && h.name != name)
      && (forall v :: v in d.vmHosts <==> v in c.vmHosts && c.vmHosts[v] != name)
      && (forall v :: v in d.vmHosts ==> d.vmHosts[v] == c.vmHosts[v])
  {
    hide Find, Holds;
    var (d, ok) := RemoveHost(c, name);
    if ok {
      var i := Find(c.hosts, name).value;
      DroppedHostsOk(c.hosts, i);
      forall v | v in c.vmHosts ensures v in c.hosts[i].vmIds <==> c.vmHosts[v] == name { AgreementBothWays(c, v, i); }
      DroppedMembers(c.hosts, i);
    } else {
      Unmapped(c, name);
    }
  }

  lemma DroppedMembers(hosts: seq<HostValue>, i: nat)
    requires UniqueNames(hosts) && i < |hosts|
    ensures forall h :: h in hosts[..i] + hosts[i + 1..] <==> h in hosts && h.name != hosts[i].name
  {
    assert hosts == hosts[..i] + [hosts[i]] + hosts[i + 1..];
    forall h | h in hosts[..i] + hosts[i + 1..] ensures h.name != hosts[i].name {
      var d := hosts[..i] + hosts[i + 1..];
      var k :| 0 <= k < |d| && d[k] == h;
      assert h == hosts[if k < i then k else k + 1];
    }
  }

  lemma Unmapped(c: Cluster, name: string)
    requires Agrees(c) && forall i :: 0 <= i < |c.hosts| ==> c.hosts[i].name != name
    ensures forall v :: v in c.vmHosts ==> c.vmHosts[v] != name
  {
    forall v | v in c.vmHosts ensures c.vmHosts[v] != name { var i: nat :| Holds(c, i, v); }
  }

  /** A refreshed host has what was reported and keeps its VMs; all else stays, and an unknown name changes nothing. */
  lemma RefreshIsExact(c: Cluster, name: string, status: Status, memory: int, cpus: int, gpus: int)
    requires UniqueNames(c.hosts)
    ensures var d := Refresh(c, name, status, memory, cpus, gpus);
      && d.vmHosts == c.vmHosts && |d.hosts| == |c.hosts|
      && forall i :: 0 <= i < |c.hosts| ==>
        if c.hosts[i].name == name
        then d.hosts[i] == HostValue(name, status, memory, cpus, gpus, c.hosts[i].vmCount, c.hosts[i].vmIds)
        else d.hosts[i] == c.hosts[i]
  {
  }

  /** Registering answers True exactly for a known ONLINE host, and then the host lists the VM and the map gives it. */
  lemma RegistrationIsExact(c: Cluster, vm: string, name: string, i: nat)
    requires UniqueNames(c.hosts) && i < |c.hosts|
    ensures var (d, ok) := Register(c, vm, name);
      && (c.hosts[i].name == name ==> (ok <==> c.hosts[i].status.Online?))
      && (!ok ==> d == c)
      && (ok ==> vm in d.vmHosts && d.vmHosts[vm] == name && d.vmHosts - {vm} == c.vmHosts - {vm})
      && (ok && c.hosts[i].name == name ==> vm in d.hosts[i].vmIds && c.hosts[i].vmIds <= d.hosts[i].vmIds)
      && (ok && c.hosts[i].name != name ==> d.hosts[i] == c.hosts[i])
  {
  }

  /** Adding a host makes it known, ONLINE and empty. */
  lemma AdditionIsExact(c: Cluster, name: string)
    ensures var d := AddHost(c, name);
      && d.vmHosts == c.vmHosts
      && Find(d.hosts, name).Some?
      && d.hosts[Find(d.hosts, name).value] == HostValue(name, Online, 0, 0, 0, 0, [])
  {
    LastNamed(c.hosts, name);
  }

  /** Why the empty name is excluded: a VM registered on a host of that name can never be unregistered. */
  lemma EmptyNameStrands(c: Cluster, vm: string)
    ensures var (d, ok) := Register(AddHost(c, ""), vm, "");
      ok && vm in d.vmHosts && Unregister(d, vm) == (d, false)
  {
    LastNamed(c.hosts, "");
  }

  /** Adding a host and looking its name up finds the new host. */
  lemma LastNamed(hosts: seq<HostValue>, name: string)
    ensures var e := AddHost(Cluster(hosts, map[]), name).hosts;
      Find(e, name).Some? && e[Find(e, name).value] == NewHost(name)
  {
    match Find(hosts, name) {
      case None => assert (hosts + [NewHost(name)])[|hosts|] == NewHost(name);
      case Some(i) => FoundStays(hosts, name);
    }
  }

  lemma {:induction false} FoundStays(hosts: seq<HostValue>, name: string)
    requires Find(hosts, name).Some?
    ensures Find(hosts[Find(hosts, name).value := NewHost(name)], name) == Find(hosts, name)
  {
    var i, last := Find(hosts, name).value, |hosts| - 1;
    if hosts[last].name != name {
      var init, after := hosts[..last], hosts[i := NewHost(name)];
      FoundStays(init, name);
      assert Find(hosts, name) == Find(init, name) && i < last;
      assert after[..last] == init[i := NewHost(name)] && after[last].name != name;
      assert Find(after, name) == Find(after[..last], name);
    }
  }

  lemma DroppedHostsOk(hosts: seq<HostValue>, i: nat)
    requires HostsOk(hosts) && i < |hosts|
    ensures HostsOk(hosts[..i] + hosts[i + 1..])
    ensures forall k :: 0 <= k < |hosts| && hosts[k].name == hosts[i].name ==> k == i
  {
    var d := hosts[..i] + hosts[i + 1..];
    assert forall k :: 0 <= k < |d| ==> d[k] == hosts[if k < i then k else k + 1];
  }

  lemma RemoveHostAgrees(c: Cluster, name: string)
    requires Agrees(c)
    ensures Agrees(RemoveHost(c, name).0)
  {
    hide Find, HostsOk;
    var (d, ok) := RemoveHost(c, name);
    if ok {
      var i := Find(c.hosts, name).value;
      DroppedHostsOk(c.hosts, i);
      forall k: nat, v | k < |d.hosts| && v in d.hosts[k].vmIds ensures Holds(d, k, v) {
        var m := if k < i then k else k + 1;
        assert d.hosts[k] == c.hosts[m] && Holds(c, m, v);
        assert v in c.hosts[i].vmIds ==> Holds(c, i, v);
      }
      forall v | v in d.vmHosts ensures exists k: nat :: Holds(d, k, v) {
        var m: nat :| Holds(c, m, v);
        var k := if m < i then m else m - 1;
        assert Holds(d, k, v);
      }
    }
  }

  lemma RefreshAgrees(c: Cluster, name: string, status: Status, memory: int, cpus: int, gpus: int)
    requires Agrees(c)
    ensures Agrees(Refresh(c, name, status, memory, cpus, gpus))
  {
    hide Find;
    var d := Refresh(c, name, status, memory, cpus, gpus);
    assert |d.hosts| == |c.hosts|;
    assert forall k :: 0 <= k < |c.hosts| ==>
      d.hosts[k].vmIds == c.hosts[k].vmIds && d.hosts[k].name == c.hosts[k].name;
    forall k: nat, v | k < |d.hosts| && v in d.hosts[k].vmIds ensures Holds(d, k, v) { assert Holds(c, k, v); }
    forall v | v in d.vmHosts ensures exists k: nat :: Holds(d, k, v) {
      var k: nat :| Holds(c, k, v);
      assert Holds(d, k, v);
    }
  }

  lemma UnregisterShape(c: Cluster, vm: string, i: nat)
    requires Agrees(c) && Holds(c, i, vm)
    ensures Unregister(c, vm) ==
      (Cluster(c.hosts[i := WithVms(c.hosts[i], RemoveFirst(c.hosts[i].vmIds, vm))], c.vmHosts - {vm}), true)
  {
    assert Find(c.hosts, c.hosts[i].name) == Some(i);
  }

  /** Taking one VM off its host and out of the map keeps the agreement. */
  lemma ShrinkAgrees(c: Cluster, i: nat, vm: string, rest: seq<string>)
    requires Agrees(c) && Holds(c, i, vm) && Distinct(rest)
    requires forall y :: y in rest <==> y in c.hosts[i].vmIds && y != vm
    ensures Agrees(Cluster(c.hosts[i := WithVms(c.hosts[i], rest)], c.vmHosts - {vm}))
  {
    var d := Cluster(c.hosts[i := WithVms(c.hosts[i], rest)], c.vmHosts - {vm});
    forall k: nat, v | k < |d.hosts| && v in d.hosts[k].vmIds ensures Holds(d, k, v) {
      assert Holds(c, k, v);
    }
    forall v | v in d.vmHosts ensures exists k: nat :: Holds(d, k, v) {
      var k: nat :| Holds(c, k, v);
      assert Holds(d, k, v);
    }
  }

  /** Under agreement, unregistering a mapped VM takes it off its host and out of the map, and touches nothing else. */
  lemma UnregisterAgrees(c: Cluster, vm: string, i: nat)
    requires Agrees(c) && Holds(c, i, vm)
    ensures var (d, ok) := Unregister(c, vm);
      && ok && Agrees(d) && d.vmHosts == c.vmHosts - {vm}
      && d.hosts == c.hosts[i := WithVms(c.hosts[i], RemoveFirst(c.hosts[i].vmIds, vm))]
      && forall v :: v in d.hosts[i].vmIds <==> v in c.hosts[i].vmIds && v != vm
  {
    UnregisterShape(c, vm, i);
    assert HostOk(c.hosts[i]);
    hide Unregister, RemoveFirst, Agrees;
    RemoveFirstFacts(c.hosts[i].vmIds, vm);
    ShrinkAgrees(c, i, vm, RemoveFirst(c.hosts[i].vmIds, vm));
  }

  // ---- eviction ----

  ghost predicate SameButVms(h: HostValue, g: HostValue) { g == h.(vmIds := g.vmIds, vmCount := g.vmCount) }

  lemma EmptiedHost(h: HostValue, g: HostValue)
    requires SameButVms(h, g) && HostOk(g) && g.vmIds == []
    ensures g == WithVms(h, [])
  {
  }

  /** `d` is `c` with `gone`, VMs of host `i`, taken off that host and out of the map, and the index agrees. */
  ghost predicate TakenOff(c: Cluster, i: nat, gone: seq<string>, d: Cluster)
    requires i < |c.hosts|
  {
    && Agrees(d) && d.vmHosts == c.vmHosts - SetOf(gone)
    && |d.hosts| == |c.hosts| && d.hosts == c.hosts[i := d.hosts[i]] && SameButVms(c.hosts[i], d.hosts[i])
    && forall v :: v in d.hosts[i].vmIds <==> v in c.hosts[i].vmIds && v !in gone
  }

  lemma ListedIsHeld(c: Cluster, i: nat, vm: string)
    requires Agrees(c) && i < |c.hosts| && vm in c.hosts[i].vmIds
    ensures Holds(c, i, vm)
  {
  }

  lemma UpdatedTwice(hosts: seq<HostValue>, i: nat, g: HostValue, h: HostValue)
    requires i < |hosts|
    ensures hosts[i := g][i := h] == hosts[i := h]
  {
  }

  lemma TakeOffOneMore(c: Cluster, i: nat, gone: seq<string>, d: Cluster, vm: string)
    requires i < |c.hosts| && TakenOff(c, i, gone, d) && vm in c.hosts[i].vmIds && vm !in gone
    ensures TakenOff(c, i, gone + [vm], Unregister(d, vm).0)
  {
    hide Agrees, Holds, Unregister, RemoveFirst;
    ListedIsHeld(d, i, vm);
    UnregisterAgrees(d, vm, i);
    assert SetOf(gone + [vm]) == SetOf(gone) + {vm};
    UpdatedTwice(c.hosts, i, d.hosts[i], Unregister(d, vm).0.hosts[i]);
  }

  /** Unregistering the first VMs of one host takes exactly them off that host. */
  lemma {:induction false} UnregisterPrefix(c: Cluster, i: nat, n: nat)
    requires Agrees(c) && i < |c.hosts| && n <= |c.hosts[i].vmIds|
    ensures TakenOff(c, i, c.hosts[i].vmIds[..n], UnregisterAll(c, c.hosts[i].vmIds[..n]))
  {
    hide Agrees, Unregister;
    if n > 0 {
      var s := c.hosts[i].vmIds;
      AgreedHostOk(c, i);
      UnregisterPrefix(c, i, n - 1);
      hide TakenOff;
      PrefixStep(s, n);
      TakeOffOneMore(c, i, s[..n - 1], UnregisterAll(c, s[..n - 1]), s[n - 1]);
    }
  }

  lemma PrefixStep(s: seq<string>, n: nat)
    requires Distinct(s) && 0 < n <= |s|
    ensures s[..n] == s[..n - 1] + [s[n - 1]] && s[..n][..n - 1] == s[..n - 1] && s[..n][n - 1] == s[n - 1]
    ensures s[n - 1] in s && s[n - 1] !in s[..n - 1]
  {
  }

  lemma EvictOne(d: Cluster, i: nat)
    requires Agrees(d) && i < |d.hosts|
    ensures var h := d.hosts[i];
      var e := UnregisterAll(d, h.vmIds);
      && Agrees(e) && e.vmHosts == d.vmHosts - SetOf(h.vmIds)
      && e.hosts == d.hosts[i := WithVms(h, [])]
      && e.hosts[i := WithVms(e.hosts[i], [])] == e.hosts
  {
    hide UnregisterAll, HostsOk, Holds, HostOk, SameButVms;
    var h := d.hosts[i];
    UnregisterPrefix(d, i, |h.vmIds|);
    assert h.vmIds[..|h.vmIds|] == h.vmIds;
    var e := UnregisterAll(d, h.vmIds);
    AgreedHostOk(e, i);
    FirstIsMember(e.hosts[i].vmIds);
    EmptiedHost(h, e.hosts[i]);
  }

  lemma FirstIsMember(s: seq<string>)
    ensures s != [] ==> s[0] in s
  {
  }

  lemma AgreedHostOk(c: Cluster, i: nat)
    requires Agrees(c) && i < |c.hosts|
    ensures HostOk(c.hosts[i]) && Distinct(c.hosts[i].vmIds)
  {
  }

  /** The VMs of the OFFLINE hosts among the first `k`, host by host. */
  function OfflineVms(hosts: seq<HostValue>, k: nat): seq<string>
    requires k <= |hosts|
  {
    if k == 0 then []
    else OfflineVms(hosts, k - 1) + if hosts[k - 1].status.Offline? then hosts[k - 1].vmIds else []
  }

  /** The hosts with the OFFLINE ones among the first `k` emptied. */
  function Emptied(hosts: seq<HostValue>, k: nat): (r: seq<HostValue>)
    requires k <= |hosts|
    ensures |r| == |hosts| && forall i :: k <= i < |hosts| ==> r[i] == hosts[i]
  {
    if k == 0 then hosts
    else
      var before := Emptied(hosts, k - 1);
      if hosts[k - 1].status.Offline? && hosts[k - 1].vmIds != [] then before[k - 1 := WithVms(hosts[k - 1], [])] else before
  }

  /** Eviction returns exactly the VMs of the OFFLINE hosts, unmaps them, and empties those hosts; all else stays. */
  lemma {:induction false} EvictionIsExact(c: Cluster, k: nat)
    requires Agrees(c) && k <= |c.hosts|
    ensures var (d, evicted) := EvictFirst(c, k);
      && Agrees(d)
      && evicted == OfflineVms(c.hosts, k)
      && d.hosts == Emptied(c.hosts, k)
      && d.vmHosts == c.vmHosts - SetOf(evicted)
  {
    hide UnregisterAll, Agrees;
    if k > 0 {
      EvictionIsExact(c, k - 1);
      var (d, evicted) := EvictFirst(c, k - 1);
      var h := d.hosts[k - 1];
      if h.status.Offline? && h.vmIds != [] {
        EvictOne(d, k - 1);
        assert SetOf(evicted + h.vmIds) == SetOf(evicted) + SetOf(h.vmIds);
      }
    }
  }

  // ---- counts ----

  function VmSet(hosts: seq<HostValue>): set<string> {
    set i, v | 0 <= i < |hosts| && v in hosts[i].vmIds :: v
  }

  function CountSum(hosts: seq<HostValue>): int {
    if hosts == [] then 0 else CountSum(hosts[..|hosts| - 1]) + hosts[|hosts| - 1].vmCount
  }

  lemma {:induction false} DistinctCardinality(s: seq<string>)
    requires Distinct(s)
    ensures |SetOf(s)| == |s|
  {
    if s != [] {
      var init, last := s[..|s| - 1], s[|s| - 1];
      DistinctCardinality(init);
      assert s == init + [last];
      assert SetOf(s) == SetOf(init) + {last};
    }
  }

  lemma VmSetSnoc(hosts: seq<HostValue>)
    requires hosts != []
    ensures VmSet(hosts) == VmSet(hosts[..|hosts| - 1]) + SetOf(hosts[|hosts| - 1].vmIds)
  {
    var init, last := hosts[..|hosts| - 1], |hosts| - 1;
    forall v | v in VmSet(hosts) ensures v in VmSet(init) || v in hosts[last].vmIds {
      var i :| 0 <= i < |hosts| && v in hosts[i].vmIds;
      assert i < last ==> init[i] == hosts[i];
    }
    forall v | v in VmSet(init) ensures v in VmSet(hosts) {
      var i :| 0 <= i < |init| && v in init[i].vmIds;
      assert v in hosts[i].vmIds;
    }
  }

  lemma {:induction false} CountsAreCardinal(hosts: seq<HostValue>)
    requires forall i :: 0 <= i < |hosts| ==> HostOk(hosts[i])
    requires forall i, j, v :: 0 <= i < j < |hosts| && v in hosts[i].vmIds ==> v !in hosts[j].vmIds
    ensures CountSum(hosts) == |VmSet(hosts)|
  {
    if hosts != [] {
      var init, last := hosts[..|hosts| - 1], hosts[|hosts| - 1];
      CountsAreCardinal(init);
      assert HostOk(last);
      DistinctCardinality(last.vmIds);
      VmSetSnoc(hosts);
      assert VmSet(init) !! SetOf(last.vmIds);
    }
  }

  /** Under agreement the hosts' VM counts add up to the number of mapped VMs. */
  lemma CountsMatchMap(c: Cluster)
    requires Agrees(c)
    ensures CountSum(c.hosts) == |c.vmHosts|
  {
    forall i: nat, j: nat, v | i < j < |c.hosts| && v in c.hosts[i].vmIds ensures v !in c.hosts[j].vmIds {
      assert Holds(c, i, v);
    }
    CountsAreCardinal(c.hosts);
    assert VmSet(c.hosts) == c.vmHosts.Keys by {
      forall v | v in VmSet(c.hosts) ensures v in c.vmHosts {
        var i: nat :| i < |c.hosts| && v in c.hosts[i].vmIds;
        assert Holds(c, i, v);
      }
      forall v | v in c.vmHosts ensures v in VmSet(c.hosts) {
        var i: nat :| Holds(c, i, v);
      }
    }
  }

  // ---- runs ----

  datatype Op =
    | DoAdd(name: string)
    | DoRemove(name: string)
    | DoRefresh(name: string, status: Status, memory: int, cpus: int, gpus: int)
    | DoRegister(vm: string, name: string)
    | DoUnregister(vm: string)
    | DoEvict

  function Apply(c: Cluster, op: Op): Cluster {
    match op
    case DoAdd(name) => AddHost(c, name)
    case DoRemove(name) => RemoveHost(c, name).0
    case DoRefresh(name, status, memory, cpus, gpus) => Refresh(c, name, status, memory, cpus, gpus)
    case DoRegister(vm, name) => Register(c, vm, name).0
    case DoUnregister(vm) => Unregister(c, vm).0
    case DoEvict => Evict(c).0
  }

  function Run(c: Cluster, ops: seq<Op>): Cluster {
    if ops == [] then c else Apply(Run(c, ops[..|ops| - 1]), ops[|ops| - 1])
  }

  /** Host names are fresh, and a VM is registered only when it is not on another host. */
  predicate Permitted(c: Cluster, op: Op) {
    match op
    case DoAdd(name) => name != "" && Find(c.hosts, name).None?
    case DoRegister(vm, name) => vm !in c.vmHosts || c.vmHosts[vm] == name
    case _ => true
  }

  ghost predicate PermittedRun(c: Cluster, ops: seq<Op>) {
    ops == [] || (PermittedRun(c, ops[..|ops| - 1]) && Permitted(Run(c, ops[..|ops| - 1]), ops[|ops| - 1]))
  }

  lemma StepAgrees(c: Cluster, op: Op)
    requires Agrees(c) && Permitted(c, op)
    ensures Agrees(Apply(c, op))
  {
    hide Agrees, AddHost, RemoveHost, Refresh, Register, EvictFirst;
    match op {
      case DoAdd(name) => AddHostAgreesIff(c, name);
      case DoRemove(name) => RemoveHostAgrees(c, name);
      case DoRefresh(name, status, memory, cpus, gpus) => RefreshAgrees(c, name, status, memory, cpus, gpus);
      case DoRegister(vm, name) => RegisterAgrees(c, vm, name);
      case DoUnregister(vm) => MaybeUnregisterAgrees(c, vm);
      case DoEvict => EvictionIsExact(c, |c.hosts|);
    }
  }

  lemma MaybeUnregisterAgrees(c: Cluster, vm: string)
    requires Agrees(c)
    ensures Agrees(Unregister(c, vm).0)
    ensures Unregister(c, vm).1 <==> vm in c.vmHosts
  {
    if vm in c.vmHosts {
      var i: nat :| Holds(c, i, vm);
      UnregisterAgrees(c, vm, i);
    }
  }

  /** In every permitted run the index agrees and the counts add up. */
  lemma {:induction false} RunAgrees(ops: seq<Op>)
    requires PermittedRun(Cluster([], map[]), ops)
    ensures var c := Run(Cluster([], map[]), ops);
      Agrees(c) && CountSum(c.hosts) == |c.vmHosts|
  {
    var c := Run(Cluster([], map[]), ops);
    if ops != [] {
      RunAgrees(ops[..|ops| - 1]);
      StepAgrees(Run(Cluster([], map[]), ops[..|ops| - 1]), ops[|ops| - 1]);
    }
    CountsMatchMap(c);
  }
}
