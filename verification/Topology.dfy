/** The service map of the status server: which hosts, services and host-components a cluster has.
    Keys of `Component` and `HostService` are "host.component" texts. */
module Topology {
  import opened Common
  import opened Keys

  datatype ClusterService = ClusterService(cluster: int, service: int)

  datatype ServiceMaps = ServiceMaps(
    host: map<int, seq<int>>,                       // cluster -> [host]
    hostCluster: map<int, int>,                     // host -> cluster, computed
    service: map<int, seq<int>>,                    // cluster -> [service]
    component: map<int, map<int, seq<string>>>,     // cluster -> service -> ["host.component"]
    hostService: map<string, ClusterService>)       // "host.component" -> (cluster, service)
  {
    // A missing entry of a Go map reads as the empty list.
    function Hosts(cluster: int): seq<int> {
      if cluster in host then host[cluster] else []
    }

    function Services(cluster: int): seq<int> {
      if cluster in service then service[cluster] else []
    }

    function ServiceHC(cluster: int, srv: int): seq<string> {
      if cluster in component && srv in component[cluster] then component[cluster][srv] else []
    }

    ghost predicate ComponentOnHost(comp: int, hostId: int)
      requires KeysSplit()
    {
      exists key :: key in hostService && ComponentOf(key) == comp && HostOf(key) == hostId
    }

    /** Reading part 1 of a split key demands that the key has a dot. */
    ghost predicate KeysSplit() {
      && (forall key :: key in hostService ==> '.' in key)
      && (forall cl, sv, key :: key in ServiceHC(cl, sv) ==> '.' in key)
    }

    /** Every host listed under a cluster is that cluster's alone, and `hostCluster` says so. */
    ghost predicate HostsConsistent() {
      forall cl, h :: h in Hosts(cl) ==> h in hostCluster && hostCluster[h] == cl
    }

    /** Every listed host-component is a printed key and belongs to the service that lists it. */
    ghost predicate ListedConsistent() {
      forall cl, sv, key :: key in ServiceHC(cl, sv) ==>
        && '.' in key
        && key == PairKey(HostOf(key), ComponentOf(key))
        && key in hostService && hostService[key] == ClusterService(cl, sv)
    }

    ghost predicate WellFormed() {
      KeysSplit() && HostsConsistent() && ListedConsistent()
    }

    /** What a map posted by the application satisfies beyond that: the two host-component tables
        hold the same pairs, and a component belongs to one service. */
    ghost predicate Consistent() {
      && WellFormed()
      && (forall key :: key in hostService ==> key in ServiceHC(hostService[key].cluster, hostService[key].service))
      && (forall k1, k2 :: k1 in hostService && k2 in hostService && ComponentOf(k1) == ComponentOf(k2) ==>
           hostService[k1] == hostService[k2])
    }

    /** A service lists either all keys of a component or none. */
    lemma ComponentKeysTogether(cluster: int, srv: int, listed: string, key: string)
      requires Consistent()
      requires listed in ServiceHC(cluster, srv) && key in hostService && ComponentOf(listed) == ComponentOf(key)
      ensures key in ServiceHC(cluster, srv)
    {
      assert hostService[listed] == ClusterService(cluster, srv);
      assert hostService[key] == hostService[listed];
    }
  }

  ghost predicate HostsDisjoint(host: map<int, seq<int>>) {
    forall c1, c2, h :: c1 in host && c2 in host && h in host[c1] && h in host[c2] ==> c1 == c2
  }

  /** Fills `hostCluster` by walking the cluster lists; clusters are visited in any order. */
  method InitServiceMap(posted: ServiceMaps) returns (smap: ServiceMaps)
    ensures smap == posted.(hostCluster := smap.hostCluster)
    ensures forall h :: h in smap.hostCluster <==> exists cl :: cl in posted.host && h in posted.host[cl]
    ensures forall h :: h in smap.hostCluster ==>
              smap.hostCluster[h] in posted.host && h in posted.host[smap.hostCluster[h]]
    ensures HostsDisjoint(posted.host) ==> smap.HostsConsistent()
  {
    var hostCluster: map<int, int> := map[];
    var host := posted.host;
    var left: set<int> := host.Keys;
    while left != {}
      invariant left <= host.Keys
      invariant forall h :: h in hostCluster <==> exists cl :: cl in host && cl !in left && h in host[cl]
      invariant forall h :: h in hostCluster ==> hostCluster[h] in host && h in host[hostCluster[h]]
    {
      var clusterId := PickOne(left);
      hostCluster := FillHosts(hostCluster, clusterId, host[clusterId]);
      left := left - {clusterId};
    }
    smap := posted.(hostCluster := hostCluster);
  }

  method FillHosts(before: map<int, int>, clusterId: int, hosts: seq<int>) returns (after: map<int, int>)
    ensures forall h :: h in after <==> h in before || h in hosts
    ensures forall h :: h in hosts ==> after[h] == clusterId
    ensures forall h :: h in before && h !in hosts ==> after[h] == before[h]
  {
    after := before;
    for i := 0 to |hosts|
      invariant forall h :: h in after <==> h in before || h in hosts[..i]
      invariant forall h :: h in hosts[..i] ==> after[h] == clusterId
      invariant forall h :: h in before && h !in hosts[..i] ==> after[h] == before[h]
    {
      after := after[hosts[i] := clusterId];
    }
  }

  /** The hosts a component is placed on, in whatever order the table is walked. */
  method GetComponentHosts(smap: ServiceMaps, componentId: int) returns (hosts: seq<int>)
    requires smap.KeysSplit()
    ensures forall h :: h in hosts <==> smap.ComponentOnHost(componentId, h)
  {
    hosts := [];
    var left := smap.hostService.Keys;
    while left != {}
      invariant left <= smap.hostService.Keys
      invariant forall h :: h in hosts <==>
                  exists key :: key in smap.hostService.Keys - left && ComponentOf(key) == componentId
                    && HostOf(key) == h
    {
      var key :| key in left;
      if ComponentOf(key) == componentId {
        hosts := hosts + [HostOf(key)];
      }
      left := left - {key};
    }
  }
}
