// The cluster, updated in place: host objects whose VM lists and counters change,
// and the manager's two-way index. Every method is proved against ClusterIndex.
module MultiHost {
  import opened Basics
  import opened Placement
  import opened ClusterIndex

  class HostNode {
    const name: string
    var status: Status
    var memory: int
    var cpus: int
    var gpus: int
    var vmCount: int
    var vmIds: seq<string>

    constructor (name: string)
      ensures View() == NewHost(name) && this.name == name
    {
      this.name, status := name, Online;
      memory, cpus, gpus, vmCount, vmIds := 0, 0, 0, 0, [];
    }

    function View(): HostValue
      reads this
    {
      HostValue(name, status, memory, cpus, gpus, vmCount, vmIds)
    }
  }

  function Values(hosts: seq<HostNode>): (r: seq<HostValue>)
    reads hosts
    ensures |r| == |hosts| && forall i :: 0 <= i < |hosts| ==> r[i] == hosts[i].View()
  {
    seq(|hosts|, i requires 0 <= i < |hosts| reads hosts => hosts[i].View())
  }

  class MultiHostManager {
    const maxVms: int
    /** The hosts by name, in insertion order. */
    var hosts: seq<HostNode>
    var vmHosts: map<string, string>

    /** A name keys one host. */
    ghost predicate Valid()
      reads this
    {
      forall i, j :: 0 <= i < j < |hosts| ==> hosts[i].name != hosts[j].name
    }

    ghost function View(): Cluster
      reads this, hosts
    {
      Cluster(Values(hosts), vmHosts)
    }

    constructor (maxVms: int)
      ensures Valid() && View() == Cluster([], map[]) && this.maxVms == maxVms
    {
      this.maxVms, hosts, vmHosts := maxVms, [], map[];
    }

    method Lookup(name: string) returns (found: Option<nat>)
      requires Valid()
      ensures found == Find(Values(hosts), name)
    {
      for i := 0 to |hosts|
        invariant forall k :: 0 <= k < i ==> hosts[k].name != name
      {
        if hosts[i].name == name { return Some(i); }
      }
      return None;
    }

    method AddHost(name: string) returns (host: HostNode)
      requires Valid()
      modifies this
      ensures Valid() && fresh(host)
      ensures View() == ClusterIndex.AddHost(old(View()), name)
    {
      hide Find;
      var found := Lookup(name);
      host := new HostNode(name);
      match found {
        case None => hosts := hosts + [host];
        case Some(i) => hosts := hosts[i := host];
      }
    }

    method RemoveHost(name: string) returns (ok: bool)
      requires Valid()
      modifies this
      ensures Valid()
      ensures (View(), ok) == ClusterIndex.RemoveHost(old(View()), name)
    {
      hide Find;
      var found := Lookup(name);
      if found.None? { return false; }
      var host := hosts[found.value];
      for k := 0 to |host.vmIds|
        invariant hosts == old(hosts)
        invariant vmHosts == old(vmHosts) - SetOf(host.vmIds[..k])
      {
        assert SetOf(host.vmIds[..k + 1]) == SetOf(host.vmIds[..k]) + {host.vmIds[k]};
        if host.vmIds[k] in vmHosts { vmHosts := vmHosts - {host.vmIds[k]}; }
      }
      assert host.vmIds[..|host.vmIds|] == host.vmIds;
      hosts := hosts[..found.value] + hosts[found.value + 1..];
      assert Values(hosts) == old(Values(hosts))[..found.value] + old(Values(hosts))[found.value + 1..];
      return true;
    }

    /** A heartbeat, or any other update of one host's status and resources. */
    method Refresh(name: string, status: Status, memory: int, cpus: int, gpus: int)
      requires Valid()
      modifies hosts
      ensures Valid()
      ensures View() == ClusterIndex.Refresh(old(View()), name, status, memory, cpus, gpus)
    {
      hide Find;
      var found := Lookup(name);
      if found.Some? {
        var host := hosts[found.value];
        host.status, host.memory, host.cpus, host.gpus := status, memory, cpus, gpus;
        assert Values(hosts) == old(Values(hosts))[found.value := old(hosts[found.value].View()).(
          status := status, memory := memory, cpus := cpus, gpus := gpus)];
      }
    }

    /** Gives host `i` this VM list and keeps its counter in step. */
    method SetVms(i: nat, vms: seq<string>)
      requires Valid() && i < |hosts|
      modifies hosts
      ensures Valid()
      ensures View() == old(View()).(hosts := old(View()).hosts[i := WithVms(old(View()).hosts[i], vms)])
    {
      hosts[i].vmIds, hosts[i].vmCount := vms, |vms|;
      assert Values(hosts) == old(Values(hosts))[i := WithVms(old(hosts[i].View()), vms)];
    }

    method RegisterVm(vm: string, name: string) returns (ok: bool)
      requires Valid()
      modifies `vmHosts, hosts
      ensures Valid()
      ensures (View(), ok) == Register(old(View()), vm, name)
    {
      hide Find;
      var found := Lookup(name);
      if found.None? { return false; }
      var host := hosts[found.value];
      if !host.status.Online? { return false; }
      if vm !in host.vmIds {
        SetVms(found.value, host.vmIds + [vm]);
      }
      vmHosts := vmHosts[vm := name];
      return true;
    }

    method UnregisterVm(vm: string) returns (ok: bool)
      requires Valid()
      modifies `vmHosts, hosts
      ensures Valid()
      ensures (View(), ok) == Unregister(old(View()), vm)
    {
      hide Find, RemoveFirst;
      if vm !in vmHosts || vmHosts[vm] == "" { return false; }
      var found := Lookup(vmHosts[vm]);
      if found.Some? {
        var host := hosts[found.value];
        if vm in host.vmIds {
          SetVms(found.value, RemoveFirst(host.vmIds, vm));
        }
      }
      vmHosts := vmHosts - {vm};
      return true;
    }

    method EvictOfflineVms() returns (evicted: seq<string>)
      requires Valid()
      modifies `vmHosts, hosts
      ensures Valid()
      ensures (View(), evicted) == Evict(old(View()))
    {
      evicted := [];
      for k := 0 to |hosts|
        invariant Valid()
        invariant (View(), evicted) == EvictFirst(old(View()), k)
      {
        var host := hosts[k];
        if host.status.Offline? && host.vmIds != [] {
          evicted := EvictHost(host, k, evicted);
        }
      }
    }

    /** The body of the eviction loop: unregister each VM of a copy of the list, then clear the list. */
    method EvictHost(host: HostNode, k: nat, before: seq<string>) returns (evicted: seq<string>)
      requires Valid() && k < |hosts| && host == hosts[k]
      modifies `vmHosts, hosts
      ensures Valid() && hosts == old(hosts)
      ensures evicted == before + old(host.vmIds)
      ensures var e := UnregisterAll(old(View()), old(host.vmIds));
        View() == e.(hosts := e.hosts[k := WithVms(e.hosts[k], [])])
    {
      hide Unregister;
      evicted := before;
      var vms := host.vmIds;
      for j := 0 to |vms|
        invariant Valid() && hosts == old(hosts)
        invariant evicted == before + vms[..j]
        invariant View() == UnregisterAll(old(View()), vms[..j])
      {
        assert vms[..j + 1][..j] == vms[..j];
        var _ := UnregisterVm(vms[j]);
        evicted := evicted + [vms[j]];
      }
      assert vms[..|vms|] == vms;
      SetVms(k, []);
    }

    method OnlineHosts() returns (online: seq<HostNode>)
      ensures Values(online) == OnlineOf(Values(hosts))
      ensures forall h :: h in online ==> h in hosts
    {
      online := [];
      for i := 0 to |hosts|
        invariant forall h :: h in online ==> h in hosts
        invariant Values(online) == OnlineOf(Values(hosts)[..i])
      {
        assert Values(hosts)[..i + 1][..i] == Values(hosts)[..i];
        if hosts[i].status.Online? { online := online + [hosts[i]]; }
      }
      assert Values(hosts)[..|hosts|] == Values(hosts);
    }

    /** The first online host of maximal score, or null when no score is positive. */
    method FindBestHost(need: Need) returns (best: HostNode?)
      ensures best == null <==> forall h :: h in OnlineOf(Values(hosts)) ==> Score(h, need, maxVms) <= 0
      ensures best != null ==> best in hosts && exists i: nat ::
        IsBest(Some(i), OnlineOf(Values(hosts)), need, maxVms) && OnlineOf(Values(hosts))[i] == best.View()
    {
      hide Score;
      var online := OnlineHosts();
      var found := FindBest(Values(online), need, maxVms);
      if found.None? { return null; }
      best := online[found.value];
      assert Values(online)[found.value] in OnlineOf(Values(hosts));
    }

    method BalanceVms() returns (plan: map<string, seq<string>>)
      requires Valid()
      ensures var online := OnlineOf(Values(hosts));
        if |online| < 2 then plan == map[] else IsPlan(plan, online)
    {
      var online := OnlineHosts();
      OnlineKeepsNames(Values(hosts));
      plan := Balance(Values(online));
    }
  }

  lemma {:induction false} OnlineKeepsNames(hosts: seq<HostValue>)
    requires UniqueNames(hosts)
    ensures UniqueNames(OnlineOf(hosts))
  {
    if hosts != [] {
      var init, last := hosts[..|hosts| - 1], hosts[|hosts| - 1];
      OnlineKeepsNames(init);
      OnlineOfMembers(init);
      forall i | 0 <= i < |OnlineOf(init)| ensures OnlineOf(init)[i].name != last.name {
        var j :| 0 <= j < |init| && init[j] == OnlineOf(init)[i];
      }
    }
  }
}
