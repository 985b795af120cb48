/** What the four status aggregations of the server mean, as functions of the stored statuses. */
module Aggregation {
  import opened Keys
  import opened Topology
  import opened StatusStorage

  const ALL := 100001       // first key of the host storage
  const NOTHING_TO_SHOW := 32

  datatype MMObjectsData = MMObjectsData(services: seq<int>, components: seq<int>, hosts: seq<int>)

  datatype HostCompStatus = HostCompStatus(host: int, component: int, status: int)

  /** Everything an aggregation reads. */
  datatype World = World(smap: ServiceMaps, mm: MMObjectsData, hosts: Store, hcs: Store)

  function HostStatus(w: World, hostId: int): int {
    StatusOf(w.hosts.db, ALL, hostId)
  }

  function HcStatus(w: World, hostId: int, compId: int): int {
    StatusOf(w.hcs.db, hostId, compId)
  }

  function LastNonZero(values: seq<int>): int {
    if values == [] then 0
    else if values[|values| - 1] != 0 then values[|values| - 1]
    else LastNonZero(values[..|values| - 1])
  }

  lemma {:induction false} LastNonZeroMeaning(values: seq<int>)
    ensures LastNonZero(values) == 0 <==> forall v :: v in values ==> v == 0
    ensures LastNonZero(values) != 0 ==> LastNonZero(values) in values
  {
    if values != [] {
      var init, last := values[..|values| - 1], values[|values| - 1];
      LastNonZeroMeaning(init);
      assert values == init + [last];
      if last == 0 {
        assert forall v :: v in values <==> v in init || v == 0;
      } else {
        assert last in values;
      }
    }
  }

  // ---------- a service ----------

  predicate Skipped(w: World, key: string)
    requires '.' in key
  {
    HostOf(key) in w.mm.hosts || ComponentOf(key) in w.mm.components
  }

  predicate AllSplit(keys: seq<string>) {
    forall key :: key in keys ==> '.' in key
  }

  function Details(w: World, keys: seq<string>): seq<HostCompStatus>
    requires AllSplit(keys)
  {
    if keys == [] then []
    else
      var key := keys[|keys| - 1];
      var init := Details(w, keys[..|keys| - 1]);
      if Skipped(w, key) then init
      else init + [HostCompStatus(HostOf(key), ComponentOf(key), HcStatus(w, HostOf(key), ComponentOf(key)))]
  }

  function StatusesOf(details: seq<HostCompStatus>): (r: seq<int>)
    ensures |r| == |details|
    ensures forall i :: 0 <= i < |r| ==> r[i] == details[i].status
  {
    seq(|details|, i requires 0 <= i < |details| => details[i].status)
  }

  function ServiceStatus(w: World, cluster: int, service: int): int
    requires w.smap.KeysSplit()
  {
    LastNonZero(StatusesOf(Details(w, w.smap.ServiceHC(cluster, service))))
  }

  lemma {:induction false} DetailsMeaning(w: World, keys: seq<string>)
    requires AllSplit(keys)
    ensures forall d :: d in Details(w, keys) <==>
              exists key :: key in keys && HostOf(key) !in w.mm.hosts && ComponentOf(key) !in w.mm.components &&
                            d == HostCompStatus(HostOf(key), ComponentOf(key),
                              HcStatus(w, HostOf(key), ComponentOf(key)))
  {
    hide HostOf, ComponentOf;
    if keys != [] {
      DetailsMeaning(w, keys[..|keys| - 1]);
      assert keys == keys[..|keys| - 1] + [keys[|keys| - 1]];
    }
  }

  ghost predicate ServiceAllUp(w: World, cluster: int, service: int)
    requires w.smap.KeysSplit()
  {
    forall key ::
      key in w.smap.ServiceHC(cluster, service)
      && HostOf(key) !in w.mm.hosts && ComponentOf(key) !in w.mm.components ==>
        HcStatus(w, HostOf(key), ComponentOf(key)) == 0
  }

  /** A service is up exactly when every host-component outside maintenance mode is stored as up. */
  lemma ServiceStatusMeaning(w: World, cluster: int, service: int)
    requires w.smap.KeysSplit()
    ensures ServiceStatus(w, cluster, service) == 0 <==> ServiceAllUp(w, cluster, service)
  {
    hide HostOf, ComponentOf;
    var keys := w.smap.ServiceHC(cluster, service);
    var details := Details(w, keys);
    DetailsMeaning(w, keys);
    LastNonZeroMeaning(StatusesOf(details));
    if ServiceStatus(w, cluster, service) == 0 {
      forall key | key in keys && !Skipped(w, key)
        ensures HcStatus(w, HostOf(key), ComponentOf(key)) == 0
      {
        var d := HostCompStatus(HostOf(key), ComponentOf(key), HcStatus(w, HostOf(key), ComponentOf(key)));
        assert d in details;
        var i :| 0 <= i < |details| && details[i] == d;
        assert StatusesOf(details)[i] in StatusesOf(details);
      }
    } else {
      var v :| v in StatusesOf(details) && v != 0;
      var i :| 0 <= i < |details| && StatusesOf(details)[i] == v;
      assert details[i] in details;
    }
  }

  // ---------- a component ----------

  ghost predicate ActiveOn(w: World, comp: int, hostId: int)
    requires w.smap.KeysSplit()
  {
    w.smap.ComponentOnHost(comp, hostId) && hostId !in w.mm.hosts
  }

  ghost predicate Placed(w: World, comp: int)
    requires w.smap.KeysSplit()
  {
    exists h :: w.smap.ComponentOnHost(comp, h)
  }

  ghost predicate ComponentAllUp(w: World, comp: int)
    requires w.smap.KeysSplit()
  {
    forall h :: ActiveOn(w, comp, h) ==> HcStatus(w, h, comp) == 0
  }

  /** The answers `getComponentStatus` may give: hosts are collected from a Go map, in any order,
      and the last bad host decides the number. */
  ghost predicate ComponentAnswer(w: World, comp: int, status: int)
    requires w.smap.KeysSplit()
  {
    if !Placed(w, comp) then status == NOTHING_TO_SHOW
    else if comp in w.mm.components then status == 0
    else if ComponentAllUp(w, comp) then status == 0
    else status != 0 && exists h :: ActiveOn(w, comp, h) && HcStatus(w, h, comp) == status
  }

  // ---------- the per-component map of a service ----------

  function ComponentMap(details: seq<HostCompStatus>): map<int, int> {
    if details == [] then map[]
    else
      var d := details[|details| - 1];
      var m := ComponentMap(details[..|details| - 1]);
      if d.component in m && m[d.component] != 0 then m else m[d.component := d.status]
  }

  lemma {:induction false} ComponentMapMeaning(details: seq<HostCompStatus>, comp: int)
    ensures comp in ComponentMap(details) <==> exists d :: d in details && d.component == comp
    ensures comp in ComponentMap(details) ==>
              (ComponentMap(details)[comp] == 0 <==> forall d :: d in details && d.component == comp ==> d.status == 0)
  {
    if details != [] {
      var init := details[..|details| - 1];
      ComponentMapMeaning(init, comp);
      assert details == init + [details[|details| - 1]];
    }
  }

  function Entry(w: World, hostId: int, comp: int): HostCompStatus {
    HostCompStatus(hostId, comp, HcStatus(w, hostId, comp))
  }

  lemma DetailOfKey(w: World, keys: seq<string>, d: HostCompStatus) returns (key: string)
    requires AllSplit(keys) && d in Details(w, keys)
    ensures key in keys && '.' in key && !Skipped(w, key)
    ensures d == Entry(w, HostOf(key), ComponentOf(key))
  {
    hide HostOf, ComponentOf;
    DetailsMeaning(w, keys);
    key :| key in keys && !Skipped(w, key) &&
           d == HostCompStatus(HostOf(key), ComponentOf(key), HcStatus(w, HostOf(key), ComponentOf(key)));
  }

  lemma KeyOfDetail(w: World, keys: seq<string>, key: string)
    requires AllSplit(keys) && key in keys && !Skipped(w, key)
    ensures Entry(w, HostOf(key), ComponentOf(key)) in Details(w, keys)
  {
    hide HostOf, ComponentOf;
    DetailsMeaning(w, keys);
  }

  lemma DetailIsActive(w: World, cluster: int, service: int, d: HostCompStatus)
    requires w.smap.Consistent() && d in Details(w, w.smap.ServiceHC(cluster, service))
    ensures ActiveOn(w, d.component, d.host) && d.component !in w.mm.components && d == Entry(w, d.host, d.component)
  {
    hide HostOf, ComponentOf;
    var key := DetailOfKey(w, w.smap.ServiceHC(cluster, service), d);
    assert w.smap.ComponentOnHost(d.component, HostOf(key));
  }

  /** In a consistent map, a service that shows a component shows all of its active hosts. */
  lemma ActiveHostsAreShown(w: World, cluster: int, service: int, d: HostCompStatus, h: int)
    requires w.smap.Consistent() && d in Details(w, w.smap.ServiceHC(cluster, service))
    requires ActiveOn(w, d.component, h)
    ensures Entry(w, h, d.component) in Details(w, w.smap.ServiceHC(cluster, service))
  {
    hide HostOf, ComponentOf;
    var key0 := DetailOfKey(w, w.smap.ServiceHC(cluster, service), d);
    var key :| key in w.smap.hostService && ComponentOf(key) == d.component && HostOf(key) == h;
    w.smap.ComponentKeysTogether(cluster, service, key0, key);
    KeyOfDetail(w, w.smap.ServiceHC(cluster, service), key);
  }

  /** The bulk view of a service and the single-component query agree on who is up. */
  lemma BulkAgreesWithSingle(w: World, cluster: int, service: int, comp: int, answer: int)
    requires w.smap.Consistent() && ComponentAnswer(w, comp, answer)
    ensures var m := ComponentMap(Details(w, w.smap.ServiceHC(cluster, service)));
            comp in m ==> (m[comp] == 0 <==> answer == 0)
  {
    var details := Details(w, w.smap.ServiceHC(cluster, service));
    ComponentMapMeaning(details, comp);
    if comp in ComponentMap(details) {
      var d0 :| d0 in details && d0.component == comp;
      DetailIsActive(w, cluster, service, d0);
      if ComponentAllUp(w, comp) {
        forall d | d in details && d.component == comp ensures d.status == 0 {
          DetailIsActive(w, cluster, service, d);
        }
      } else {
        var h :| ActiveOn(w, comp, h) && HcStatus(w, h, comp) != 0;
        ActiveHostsAreShown(w, cluster, service, d0, h);
      }
    }
  }

  // ---------- a cluster ----------

  function ServiceStatuses(w: World, cluster: int, services: seq<int>): (r: seq<int>)
    requires w.smap.KeysSplit()
    ensures |r| == |services|
    ensures forall i :: 0 <= i < |r| ==> r[i] == ServiceStatus(w, cluster, services[i])
  {
    seq(|services|, i requires 0 <= i < |services| => ServiceStatus(w, cluster, services[i]))
  }

  function ClusterServiceStatus(w: World, cluster: int): int
    requires w.smap.KeysSplit()
  {
    var services := w.smap.Services(cluster);
    if services == [] then NOTHING_TO_SHOW else LastNonZero(ServiceStatuses(w, cluster, services))
  }

  function HostStatuses(w: World, hosts: seq<int>): seq<int> {
    if hosts == [] then []
    else
      var h := hosts[|hosts| - 1];
      var init := HostStatuses(w, hosts[..|hosts| - 1]);
      if h in w.mm.hosts then init else init + [HostStatus(w, h)]
  }

  function ClusterHostStatus(w: World, cluster: int): int {
    var hosts := w.smap.Hosts(cluster);
    if hosts == [] then NOTHING_TO_SHOW else LastNonZero(HostStatuses(w, hosts))
  }

  function CookClusterStatus(serviceStatus: int, hostStatus: int): int {
    if serviceStatus != 0 then serviceStatus
    else if hostStatus != 0 then hostStatus
    else 0
  }

  function ClusterStatus(w: World, cluster: int): int
    requires w.smap.KeysSplit()
  {
    CookClusterStatus(ClusterServiceStatus(w, cluster), ClusterHostStatus(w, cluster))
  }

  lemma {:induction false} HostStatusesMeaning(w: World, hosts: seq<int>)
    ensures forall v :: v in HostStatuses(w, hosts) <==>
            exists h :: h in hosts && h !in w.mm.hosts && HostStatus(w, h) == v
  {
    if hosts != [] {
      HostStatusesMeaning(w, hosts[..|hosts| - 1]);
      assert hosts == hosts[..|hosts| - 1] + [hosts[|hosts| - 1]];
    }
  }

  lemma ClusterServiceStatusMeaning(w: World, cluster: int)
    requires w.smap.KeysSplit()
    ensures ClusterServiceStatus(w, cluster) == 0 <==>
            && w.smap.Services(cluster) != []
            && forall sv :: sv in w.smap.Services(cluster) ==> ServiceAllUp(w, cluster, sv)
  {
    var services := w.smap.Services(cluster);
    var statuses := ServiceStatuses(w, cluster, services);
    LastNonZeroMeaning(statuses);
    forall i | 0 <= i < |services|
      ensures statuses[i] == 0 <==> ServiceAllUp(w, cluster, services[i])
    {
      ServiceStatusMeaning(w, cluster, services[i]);
    }
    if LastNonZero(statuses) == 0 {
      forall sv | sv in services ensures ServiceAllUp(w, cluster, sv) {
        var i :| 0 <= i < |services| && services[i] == sv;
        assert statuses[i] in statuses;
      }
    } else {
      var i :| 0 <= i < |statuses| && statuses[i] != 0;
      assert services[i] in services;
    }
  }

  lemma ClusterHostStatusMeaning(w: World, cluster: int)
    ensures ClusterHostStatus(w, cluster) == 0 <==>
            && w.smap.Hosts(cluster) != []
            && forall h :: h in w.smap.Hosts(cluster) && h !in w.mm.hosts ==> HostStatus(w, h) == 0
  {
    var hosts := w.smap.Hosts(cluster);
    HostStatusesMeaning(w, hosts);
    LastNonZeroMeaning(HostStatuses(w, hosts));
    if forall v :: v in HostStatuses(w, hosts) ==> v == 0 {
      forall h | h in hosts && h !in w.mm.hosts ensures HostStatus(w, h) == 0 {
        assert HostStatus(w, h) in HostStatuses(w, hosts);
      }
    }
  }

  /** A cluster is up exactly when it has services and hosts and everything outside maintenance
      mode is stored as up. */
  lemma ClusterStatusMeaning(w: World, cluster: int)
    requires w.smap.KeysSplit()
    ensures ClusterStatus(w, cluster) == 0 <==>
            && w.smap.Services(cluster) != [] && w.smap.Hosts(cluster) != []
            && (forall sv :: sv in w.smap.Services(cluster) ==> ServiceAllUp(w, cluster, sv))
            && (forall h :: h in w.smap.Hosts(cluster) && h !in w.mm.hosts ==> HostStatus(w, h) == 0)
  {
    ClusterServiceStatusMeaning(w, cluster);
    ClusterHostStatusMeaning(w, cluster);
  }

  // ---------- what an aggregation depends on ----------

  ghost predicate SameTopology(v: World, w: World) {
    v.smap == w.smap && v.mm == w.mm
  }

  ghost predicate SameHostsOf(v: World, w: World, cluster: int) {
    forall h :: h in v.smap.Hosts(cluster) ==> HostStatus(v, h) == HostStatus(w, h)
  }

  ghost predicate SameHcsOf(v: World, w: World, cluster: int, service: int)
    requires v.smap.KeysSplit()
  {
    forall key :: key in v.smap.ServiceHC(cluster, service) ==>
      HcStatus(v, HostOf(key), ComponentOf(key)) == HcStatus(w, HostOf(key), ComponentOf(key))
  }

  lemma {:induction false} DetailsFrame(v: World, w: World, keys: seq<string>)
    requires SameTopology(v, w) && AllSplit(keys)
    requires forall key :: key in keys ==>
               HcStatus(v, HostOf(key), ComponentOf(key)) == HcStatus(w, HostOf(key), ComponentOf(key))
    ensures Details(v, keys) == Details(w, keys)
  {
    hide HostOf, ComponentOf;
    if keys != [] {
      DetailsFrame(v, w, keys[..|keys| - 1]);
    }
  }

  lemma {:induction false} HostStatusesFrame(v: World, w: World, hosts: seq<int>)
    requires SameTopology(v, w)
    requires forall h :: h in hosts ==> HostStatus(v, h) == HostStatus(w, h)
    ensures HostStatuses(v, hosts) == HostStatuses(w, hosts)
  {
    if hosts != [] {
      HostStatusesFrame(v, w, hosts[..|hosts| - 1]);
    }
  }

  lemma ClusterStatusFrame(v: World, w: World, cluster: int)
    requires v.smap.KeysSplit() && SameTopology(v, w) && SameHostsOf(v, w, cluster)
    requires forall sv :: SameHcsOf(v, w, cluster, sv)
    ensures ClusterStatus(v, cluster) == ClusterStatus(w, cluster)
  {
    hide HostOf, ComponentOf;
    HostStatusesFrame(v, w, v.smap.Hosts(cluster));
    var services := v.smap.Services(cluster);
    forall sv ensures ServiceStatus(v, cluster, sv) == ServiceStatus(w, cluster, sv) {
      assert SameHcsOf(v, w, cluster, sv);
      DetailsFrame(v, w, v.smap.ServiceHC(cluster, sv));
    }
    assert ServiceStatuses(v, cluster, services) == ServiceStatuses(w, cluster, services);
  }
}
