/** The objects of the status server: topology, maintenance mode, storages, event table, websocket
    hub, and the request handlers over them.  Each handler is one atomic step; its contract ties the
    state after it to `StatusEvents.Step`. */
module StatusServer {
  import opened Common
  import opened Keys
  import opened Topology
  import opened StatusStorage
  import opened Aggregation
  import opened StatusEvents
  import opened Interleaving
  import StatusNumbers

  // ---------- websocket hub ----------

  class WsClient {
    var received: seq<Message>
    var closed: bool

    constructor ()
      ensures received == [] && !closed
    {
      received := [];
      closed := false;
    }
  }

  class WsHub {
    var clients: set<WsClient>
    ghost var log: seq<Message>               // everything ever broadcast
    ghost var joined: map<WsClient, nat>      // how much of it a client was too late for

    /** Every registered client has received exactly what was broadcast since it joined, in order,
        and its channel is open. */
    ghost predicate Valid()
      reads this, clients
    {
      forall c :: c in clients ==>
        !c.closed && c in joined && joined[c] <= |log| && c.received == log[joined[c]..]
    }

    constructor ()
      ensures Valid() && clients == {} && log == []
    {
      clients := {};
      log := [];
      joined := map[];
    }

    method Register(ws: WsClient)
      requires Valid()
      requires ws !in clients && !ws.closed && ws.received == []
      modifies this
      ensures Valid() && clients == old(clients) + {ws} && log == old(log)
      ensures joined == old(joined)[ws := |log|]
    {
      clients := clients + {ws};
      joined := joined[ws := |log|];
    }

    /** Closes the channel of a client that is still registered; anyone else is left alone. */
    method Unregister(ws: WsClient)
      requires Valid()
      modifies this, ws
      ensures Valid() && clients == old(clients) - {ws} && log == old(log) && joined == old(joined)
      ensures ws.received == old(ws.received)
      ensures ws.closed <==> old(ws.closed) || ws in old(clients)
    {
      if ws in clients {
        assert !ws.closed;
        clients := clients - {ws};
        ws.closed := true;
      }
    }

    method Broadcast(msg: Message)
      requires Valid()
      modifies this, clients
      ensures Valid() && clients == old(clients) && joined == old(joined)
      ensures log == old(log) + [msg]
    {
      log := log + [msg];
      var left := clients;
      while left != {}
        invariant left <= clients && clients == old(clients) && joined == old(joined) && log == old(log) + [msg]
        invariant forall c :: c in old(clients) - left ==> c.received == old(c.received) + [msg]
        invariant forall c :: c in left ==> c.received == old(c.received)
        invariant forall c :: c in old(clients) ==> c.closed == old(c.closed)
      {
        var ws :| ws in left;
        ws.received := ws.received + [msg];
        left := left - {ws};
      }
    }
  }

  // ---------- the other shared objects ----------

  class ServiceServer {
    var smap: ServiceMaps

    constructor (smap: ServiceMaps)
      ensures this.smap == smap
    {
      this.smap := smap;
    }

    method Init(posted: ServiceMaps)
      modifies this
      ensures smap == posted.(hostCluster := smap.hostCluster)
      ensures HostsDisjoint(posted.host) ==> smap.HostsConsistent()
    {
      smap := InitServiceMap(posted);
    }
  }

  class MMObjects {
    var data: MMObjectsData

    constructor ()
      ensures data == MMObjectsData([], [], [])
    {
      data := MMObjectsData([], [], []);
    }
  }

  class StatusEvent {
    var db: SavedStatuses

    constructor ()
      ensures db == map[]
    {
      db := map[];
    }

    method Write(key: string, sh: StatusHolder)
      modifies this
      ensures db == old(db)[key := sh]
    {
      db := db[key := sh];
    }

    method ReadKey(key: string) returns (sh: StatusHolder)
      ensures sh == Read(db, key)
    {
      sh := EMPTY_HOLDER;
      if key in db {
        sh := db[key];
      }
    }
  }

  datatype Reply = Stored(code: int) | HostNotFound | HcNotFound

  datatype ServiceDetails = ServiceDetails(status: int, components: map<int, int>, details: seq<HostCompStatus>)

  datatype ClusterDetails = ClusterDetails(status: int, services: map<int, ServiceDetails>, hosts: map<int, int>)

  function ShownStatuses(clusters: map<int, ClusterDetails>): map<int, int> {
    map cl | cl in clusters :: clusters[cl].status
  }

  function DetailsOfService(w: World, cluster: int, service: int): ServiceDetails
    requires w.smap.KeysSplit()
  {
    var details := Details(w, w.smap.ServiceHC(cluster, service));
    ServiceDetails(ServiceStatus(w, cluster, service), ComponentMap(details), details)
  }

  /** What one walk over some hosts of a component leaves: each host's status, and 0 or the status of
      one of those that are not 0. */
  ghost predicate OfHosts(w: World, comp: int, hostList: seq<int>, status: int, hosts: map<int, int>) {
    && (forall h :: h in hosts <==> h in hostList && h !in w.mm.hosts)
    && (forall h :: h in hosts ==> hosts[h] == HcStatus(w, h, comp))
    && (status == 0 ==> forall h :: h in hosts ==> hosts[h] == 0)
    && (status != 0 ==> exists h :: h in hosts && hosts[h] == status)
  }

  lemma ShownSnapshot(w: World, clusterOut: map<int, ClusterDetails>, hostOut: map<int, int>)
    requires w.smap.KeysSplit()
    requires clusterOut.Keys == w.smap.service.Keys
    requires forall cl :: cl in clusterOut ==> clusterOut[cl].status == ClusterStatus(w, cl)
    requires hostOut.Keys == w.smap.hostCluster.Keys && forall h :: h in hostOut ==> hostOut[h] == HostStatus(w, h)
    ensures Snapshot(w) == ClusterTexts(ShownStatuses(clusterOut)) + HostTexts(hostOut)
  {
    hide ClusterStatus, HostStatus, ClusterTexts, HostTexts, ServiceMaps.KeysSplit;
    assert forall cl :: cl in clusterOut.Keys <==> cl in w.smap.service.Keys;
    assert forall h :: h in hostOut.Keys <==> h in w.smap.hostCluster.Keys;
    assert ShownStatuses(clusterOut) == map cl | cl in w.smap.service :: ClusterStatus(w, cl);
    assert hostOut == map h | h in w.smap.hostCluster :: HostStatus(w, h);
  }

  lemma NotPlaced(w: World, comp: int, hostList: seq<int>)
    requires w.smap.KeysSplit() && hostList == []
    requires forall h :: h in hostList <==> w.smap.ComponentOnHost(comp, h)
    ensures !Placed(w, comp) && ComponentAnswer(w, comp, NOTHING_TO_SHOW)
  {
    hide ServiceMaps.KeysSplit, ServiceMaps.ComponentOnHost;
  }

  /** A walk over all the hosts of a component gives one of the answers the query may give. */
  lemma PlacedAnswer(w: World, comp: int, hostList: seq<int>, status: int, hosts: map<int, int>)
    requires w.smap.KeysSplit() && hostList != []
    requires forall h :: h in hostList <==> w.smap.ComponentOnHost(comp, h)
    ensures Placed(w, comp)
    ensures comp in w.mm.components ==> ComponentAnswer(w, comp, 0)
    ensures comp !in w.mm.components && OfHosts(w, comp, hostList, status, hosts) ==>
              ComponentAnswer(w, comp, status) && forall h :: h in hosts <==> ActiveOn(w, comp, h)
  {
    hide ServiceMaps.KeysSplit, ServiceMaps.ComponentOnHost;
    assert hostList[0] in hostList && w.smap.ComponentOnHost(comp, hostList[0]);
    if comp !in w.mm.components && OfHosts(w, comp, hostList, status, hosts) {
      assert forall h :: h in hosts <==> ActiveOn(w, comp, h);
      if status != 0 {
        var h :| h in hosts && hosts[h] == status;
        assert ActiveOn(w, comp, h) && HcStatus(w, h, comp) == status;
      }
    }
  }

  /** The status of a cluster, the details of exactly its services, and the statuses of exactly its
      hosts outside maintenance mode. */
  ghost predicate IsClusterDetails(w: World, cluster: int, d: ClusterDetails)
    requires w.smap.KeysSplit()
  {
    && d.status == ClusterStatus(w, cluster)
    && (forall sv :: sv in d.services <==> sv in w.smap.Services(cluster))
    && (forall sv :: sv in d.services ==> d.services[sv] == DetailsOfService(w, cluster, sv))
    && (forall h :: h in d.hosts <==> h in w.smap.Hosts(cluster) && h !in w.mm.hosts)
    && (forall h :: h in d.hosts ==> d.hosts[h] == HostStatus(w, h))
  }

  // ---------- the hub ----------

  class Hub {
    const hostStatusStorage: Storage
    const hostComponentStorage: Storage
    const serviceMap: ServiceServer
    const eventWS: WsHub
    const statusEvent: StatusEvent
    const mmObjects: MMObjects

    ghost predicate Valid()
      reads this, eventWS, eventWS.clients, hostStatusStorage, hostComponentStorage
    {
      && eventWS.Valid()
      && hostStatusStorage != hostComponentStorage
      && hostStatusStorage.dbMap != hostComponentStorage.dbMap
    }

    function GetWorld(): World
      reads this, serviceMap, mmObjects, hostStatusStorage, hostStatusStorage.dbMap,
            hostComponentStorage, hostComponentStorage.dbMap
    {
      World(serviceMap.smap, mmObjects.data, hostStatusStorage.View(), hostComponentStorage.View())
    }

    ghost function View(): Server
      reads this, serviceMap, mmObjects, statusEvent, eventWS,
            hostStatusStorage, hostStatusStorage.dbMap, hostComponentStorage, hostComponentStorage.dbMap
    {
      Server(GetWorld(), statusEvent.db, eventWS.log)
    }

    constructor (smap: ServiceMaps, timeout: int)
      ensures Valid() && fresh(eventWS) && fresh(statusEvent)
      ensures fresh(hostStatusStorage) && fresh(hostComponentStorage)
      ensures View() == EmptyServer(smap, MMObjectsData([], [], []), timeout, timeout)
    {
      hostStatusStorage := new Storage(timeout);
      hostComponentStorage := new Storage(timeout);
      serviceMap := new ServiceServer(smap);
      eventWS := new WsHub();
      statusEvent := new StatusEvent();
      mmObjects := new MMObjects();
    }

    // ---------- aggregation ----------

    method GetServiceStatus(cluster: int, service: int) returns (servStatus: int, hc: seq<HostCompStatus>)
      requires serviceMap.smap.KeysSplit()
      ensures servStatus == ServiceStatus(GetWorld(), cluster, service)
      ensures hc == Details(GetWorld(), serviceMap.smap.ServiceHC(cluster, service))
    {
      hide HostOf, ComponentOf, Split, Atoi;
      var hostComp := serviceMap.smap.ServiceHC(cluster, service);
      hc := [];
      servStatus := 0;
      for i := 0 to |hostComp|
        invariant AllSplit(hostComp[..i]) && hc == Details(GetWorld(), hostComp[..i])
        invariant servStatus == LastNonZero(StatusesOf(hc))
      {
        assert hostComp[i] in hostComp;
        SplitKey(hostComp[i]);
        var spl := Split(hostComp[i], '.');
        var hostId, compId := Atoi(spl[0]), Atoi(spl[1]);
        assert hostComp[..i + 1][..i] == hostComp[..i];
        if hostId in mmObjects.data.hosts || compId in mmObjects.data.components {
          continue;
        }
        var status, ok := hostComponentStorage.Get(hostId, compId);
        if !ok {
          status := status.(status := NO_STATUS);
        }
        ghost var before := hc;
        hc := hc + [HostCompStatus(hostId, compId, status.status)];
        assert StatusesOf(hc)[..|before|] == StatusesOf(before);
        if status.status != 0 {
          servStatus := status.status;
        }
      }
      assert hostComp[..|hostComp|] == hostComp;
    }

    method GetComponentStatus(compId: int) returns (status: int, hosts: map<int, int>)
      requires serviceMap.smap.KeysSplit()
      ensures ComponentAnswer(GetWorld(), compId, status)
      ensures hosts.Keys == {} || compId !in mmObjects.data.components
      ensures Placed(GetWorld(), compId) && compId !in mmObjects.data.components ==>
                forall h :: h in hosts <==> ActiveOn(GetWorld(), compId, h)
      ensures forall h :: h in hosts ==> hosts[h] == HcStatus(GetWorld(), h, compId)
    {
      hide HostOf, ComponentOf, ServiceMaps.KeysSplit, ServiceMaps.ComponentOnHost, ComponentAnswer;
      hosts := map[];
      var hostList := GetComponentHosts(serviceMap.smap, compId);
      if |hostList| == 0 {
        NotPlaced(GetWorld(), compId, hostList);
        return NOTHING_TO_SHOW, hosts;
      }
      assert hostList[0] in hostList;
      PlacedAnswer(GetWorld(), compId, hostList, 0, map[]);
      if compId in mmObjects.data.components {
        return 0, hosts;
      }
      status, hosts := ListedHostStatuses(compId, hostList);
      PlacedAnswer(GetWorld(), compId, hostList, status, hosts);
    }

    /** The statuses of the listed hosts outside maintenance mode; the last bad one decides. */
    method ListedHostStatuses(compId: int, hostList: seq<int>) returns (status: int, hosts: map<int, int>)
      ensures OfHosts(GetWorld(), compId, hostList, status, hosts)
    {
      hosts := map[];
      status := 0;
      for i := 0 to |hostList|
        invariant OfHosts(GetWorld(), compId, hostList[..i], status, hosts)
      {
        var hostId := hostList[i];
        assert hostList[..i + 1] == hostList[..i] + [hostId];
        if hostId in mmObjects.data.hosts {
          continue;
        }
        var hostStatus, ok := hostComponentStorage.Get(hostId, compId);
        if !ok {
          hostStatus := Status(NO_STATUS, 0);
        }
        if hostStatus.status != 0 {
          status := hostStatus.status;
        }
        hosts := hosts[hostId := hostStatus.status];
      }
      assert hostList[..|hostList|] == hostList;
    }

    method GetClusterHostStatus(clusterId: int) returns (result: int, hosts: map<int, int>)
      ensures result == ClusterHostStatus(GetWorld(), clusterId)
      ensures forall h :: h in hosts <==> h in serviceMap.smap.Hosts(clusterId) && h !in mmObjects.data.hosts
      ensures forall h :: h in hosts ==> hosts[h] == HostStatus(GetWorld(), h)
    {
      hosts := map[];
      var hostList := serviceMap.smap.Hosts(clusterId);
      if |hostList| < 1 {
        return NOTHING_TO_SHOW, map[];
      }
      result := 0;
      for i := 0 to |hostList|
        invariant result == LastNonZero(HostStatuses(GetWorld(), hostList[..i]))
        invariant forall h :: h in hosts <==> h in hostList[..i] && h !in mmObjects.data.hosts
        invariant forall h :: h in hosts ==> hosts[h] == HostStatus(GetWorld(), h)
      {
        var hostId := hostList[i];
        assert hostList[..i + 1][..i] == hostList[..i];
        if hostId in mmObjects.data.hosts {
          continue;
        }
        var status, ok := hostStatusStorage.Get(ALL, hostId);
        if !ok {
          status := Status(NO_STATUS, 0);
        }
        ghost var before := HostStatuses(GetWorld(), hostList[..i]);
        assert (before + [status.status])[..|before|] == before;
        if status.status != 0 {
          result := status.status;
        }
        hosts := hosts[hostId := status.status];
      }
      assert hostList[..|hostList|] == hostList;
    }

    /** The per-component map of a service, from its list of host-components. */
    method CookComponents(hcStatus: seq<HostCompStatus>) returns (components: map<int, int>)
      requires forall d :: d in hcStatus ==>
               d.host !in mmObjects.data.hosts && d.component !in mmObjects.data.components
      ensures components == ComponentMap(hcStatus)
    {
      components := map[];
      for i := 0 to |hcStatus|
        invariant components == ComponentMap(hcStatus[..i])
      {
        var entry := hcStatus[i];
        assert entry in hcStatus;
        assert hcStatus[..i + 1][..i] == hcStatus[..i];
        var hostOrComponentInMM := entry.component in mmObjects.data.components || entry.host in mmObjects.data.hosts;
        if entry.component !in components {
          components := components[entry.component := if hostOrComponentInMM then 0 else entry.status];
          continue;
        }
        if hostOrComponentInMM || components[entry.component] != 0 {
          continue;
        }
        components := components[entry.component := entry.status];
      }
      assert hcStatus[..|hcStatus|] == hcStatus;
    }

    method GetServiceDetails(clusterId: int, serviceId: int) returns (details: ServiceDetails)
      requires serviceMap.smap.KeysSplit()
      ensures details == DetailsOfService(GetWorld(), clusterId, serviceId)
    {
      var srvStatus, hcStatus := GetServiceStatus(clusterId, serviceId);
      DetailsMeaning(GetWorld(), serviceMap.smap.ServiceHC(clusterId, serviceId));
      var components := CookComponents(hcStatus);
      details := ServiceDetails(srvStatus, components, hcStatus);
    }

    method GetClusterServiceStatus(clusterId: int) returns (result: int, services: map<int, ServiceDetails>)
      requires serviceMap.smap.KeysSplit()
      ensures result == ClusterServiceStatus(GetWorld(), clusterId)
      ensures forall sv :: sv in services <==> sv in serviceMap.smap.Services(clusterId)
      ensures forall sv :: sv in services ==> services[sv] == DetailsOfService(GetWorld(), clusterId, sv)
    {
      hide Details, ComponentMap, ServiceStatus, ServiceMaps.KeysSplit;
      services := map[];
      var servList := serviceMap.smap.Services(clusterId);
      if |servList| < 1 {
        return NOTHING_TO_SHOW, map[];
      }
      ghost var statuses := ServiceStatuses(GetWorld(), clusterId, servList);
      result := 0;
      for i := 0 to |servList|
        invariant result == LastNonZero(statuses[..i])
        invariant forall sv :: sv in services <==> sv in servList[..i]
        invariant forall sv :: sv in services ==> services[sv] == DetailsOfService(GetWorld(), clusterId, sv)
      {
        var details := GetServiceDetails(clusterId, servList[i]);
        services := services[servList[i] := details];
        assert statuses[..i + 1][..i] == statuses[..i];
        if details.status != 0 {
          result := details.status;
        }
      }
      assert servList[..|servList|] == servList && statuses[..|servList|] == statuses;
    }

    method GetClusterStatus(clusterId: int) returns (status: int)
      requires serviceMap.smap.KeysSplit()
      ensures status == ClusterStatus(GetWorld(), clusterId)
    {
      var serviceStatus, _ := GetClusterServiceStatus(clusterId);
      var hostStatus, _ := GetClusterHostStatus(clusterId);
      status := CookClusterStatus(serviceStatus, hostStatus);
    }

    method ShowClusters() returns (clusterOut: map<int, ClusterDetails>)
      requires serviceMap.smap.KeysSplit()
      ensures clusterOut.Keys == GetWorld().smap.service.Keys
      ensures forall cl :: cl in clusterOut ==>
                clusterOut[cl].status == ClusterStatus(GetWorld(), cl)
                  && IsClusterDetails(GetWorld(), cl, clusterOut[cl])
    {
      hide ClusterServiceStatus, ClusterHostStatus, HostStatus, DetailsOfService, ServiceMaps.KeysSplit;
      clusterOut := map[];
      var clusters := serviceMap.smap.service.Keys;
      while clusters != {}
        invariant clusters <= serviceMap.smap.service.Keys
        invariant clusterOut.Keys == serviceMap.smap.service.Keys - clusters
        invariant forall cl :: cl in clusterOut ==> IsClusterDetails(GetWorld(), cl, clusterOut[cl])
      {
        var clusterId := PickOne(clusters);
        var servStatus, services := GetClusterServiceStatus(clusterId);
        var hostStatus, hosts := GetClusterHostStatus(clusterId);
        var clusterStatus := CookClusterStatus(servStatus, hostStatus);
        clusterOut := clusterOut[clusterId := ClusterDetails(clusterStatus, services, hosts)];
        clusters := clusters - {clusterId};
      }
    }

    method ShowHosts() returns (hostOut: map<int, int>)
      ensures hostOut.Keys == GetWorld().smap.hostCluster.Keys
      ensures forall h :: h in hostOut ==> hostOut[h] == HostStatus(GetWorld(), h)
    {
      hostOut := map[];
      var hosts := serviceMap.smap.hostCluster.Keys;
      while hosts != {}
        invariant hosts <= serviceMap.smap.hostCluster.Keys
        invariant hostOut.Keys == serviceMap.smap.hostCluster.Keys - hosts
        invariant forall h :: h in hostOut ==> hostOut[h] == HostStatus(GetWorld(), h)
      {
        var hostId := PickOne(hosts);
        var val, _ := hostStatusStorage.Get(ALL, hostId);
        hostOut := hostOut[hostId := val.status];
        hosts := hosts - {hostId};
      }
    }

    /** The picture a client starts from: every cluster that has a service list, every host that is in
        some cluster. */
    method ShowAll() returns (clusterOut: map<int, ClusterDetails>, hostOut: map<int, int>)
      requires serviceMap.smap.KeysSplit()
      ensures Snapshot(GetWorld()) == ClusterTexts(ShownStatuses(clusterOut)) + HostTexts(hostOut)
      ensures forall cl :: cl in clusterOut ==> IsClusterDetails(GetWorld(), cl, clusterOut[cl])
      ensures forall h :: h in hostOut ==> hostOut[h] == HostStatus(GetWorld(), h)
    {
      hide ClusterStatus, HostStatus, IsClusterDetails, Snapshot, ClusterTexts, HostTexts, ServiceMaps.KeysSplit;
      clusterOut := ShowClusters();
      hostOut := ShowHosts();
      ShownSnapshot(GetWorld(), clusterOut, hostOut);
    }

    // ---------- event table ----------

    method FillHcStatus(hostId: int, compId: int, hc: ClusterService) returns (sh: StatusHolder)
      requires serviceMap.smap.KeysSplit()
      ensures ComponentAnswer(GetWorld(), compId, sh.component)
      ensures sh == HcHolder(GetWorld(), hostId, compId, hc, sh.component)
    {
      var component, _ := GetComponentStatus(compId);
      var service, _ := GetServiceStatus(hc.cluster, hc.service);
      var cluster := GetClusterStatus(hc.cluster);
      var hostComp, _ := hostComponentStorage.Get(hostId, compId);
      sh := StatusHolder(cluster, service, component, 0, hostComp.status);
    }

    method FillHostStatus(hostId: int, clusterId: int) returns (sh: StatusHolder)
      requires serviceMap.smap.KeysSplit()
      ensures sh == HostHolder(GetWorld(), hostId, clusterId)
    {
      var cluster := GetClusterStatus(clusterId);
      var host, _ := hostStatusStorage.Get(ALL, hostId);
      sh := StatusHolder(cluster, 0, 0, host.status, 0);
    }

    method SaveHcStatus(hostId: int, compId: int, hc: ClusterService) returns (ghost seen: int)
      requires Valid() && serviceMap.smap.KeysSplit()
      modifies statusEvent
      ensures Valid() && View() == SaveHc(old(View()), hostId, compId, hc, seen)
      ensures ComponentAnswer(GetWorld(), compId, seen)
    {
      var sh := FillHcStatus(hostId, compId, hc);
      seen := sh.component;
      statusEvent.Write(HcEventKey(hostId, compId), sh);
      statusEvent.Write(ClusterEventKey(hc.cluster), sh);
    }

    method SaveHostStatus(hostId: int, clusterId: int)
      requires Valid() && serviceMap.smap.KeysSplit()
      modifies statusEvent
      ensures Valid() && View() == SaveHost(old(View()), hostId, clusterId)
    {
      var sh := FillHostStatus(hostId, clusterId);
      statusEvent.Write(HostEventKey(hostId), sh);
      statusEvent.Write(ClusterEventKey(clusterId), sh);
    }

    method AnnounceChange(objectType: string, id: int, oldStatus: int, newStatus: int)
      requires Valid()
      modifies eventWS, eventWS.clients
      ensures Valid() && eventWS.clients == old(eventWS.clients) && eventWS.joined == old(eventWS.joined)
      ensures eventWS.log == old(eventWS.log) + Announce(objectType, id, oldStatus, newStatus)
    {
      if oldStatus != newStatus {
        eventWS.Broadcast(ChangeStatusMessage(objectType, id, newStatus));
      } else {
        assert eventWS.log + [] == eventWS.log;
      }
    }

    method AnnounceHcChanges(hostId: int, compId: int, hc: ClusterService, new_: StatusHolder)
      requires Valid() && serviceMap.smap.KeysSplit()
      requires new_ == HcHolder(GetWorld(), hostId, compId, hc, new_.component)
      modifies eventWS, eventWS.clients
      ensures Valid() && eventWS.clients == old(eventWS.clients) && eventWS.joined == old(eventWS.joined)
      ensures eventWS.log == old(eventWS.log) + HcEvents(old(View()), hostId, compId, hc, new_.component)
    {
      hide HcEventKey, ClusterEventKey, ClusterStatus, ServiceStatus, WsHub.Valid, Announce;
      var old_ := statusEvent.ReadKey(HcEventKey(hostId, compId));
      AnnounceChange("component", compId, old_.component, new_.component);
      AnnounceChange("service", hc.service, old_.service, new_.service);
      old_ := statusEvent.ReadKey(ClusterEventKey(hc.cluster));
      AnnounceChange("cluster", hc.cluster, old_.cluster, new_.cluster);
    }

    method CheckHcStatus(hostId: int, compId: int, hc: ClusterService) returns (ghost seen: int)
      requires Valid() && serviceMap.smap.KeysSplit()
      modifies statusEvent, eventWS, eventWS.clients
      ensures Valid() && eventWS.clients == old(eventWS.clients) && eventWS.joined == old(eventWS.joined)
      ensures View() == CheckHcStep(old(View()), hostId, compId, hc, seen)
      ensures ComponentAnswer(GetWorld(), compId, seen)
    {
      hide HcEventKey, ClusterEventKey, ClusterStatus, ServiceStatus, WsHub.Valid, HcEvents, ComponentAnswer;
      var new_ := FillHcStatus(hostId, compId, hc);
      seen := new_.component;
      AnnounceHcChanges(hostId, compId, hc, new_);
      statusEvent.Write(HcEventKey(hostId, compId), new_);
      statusEvent.Write(ClusterEventKey(hc.cluster), new_);
    }

    method CheckHostStatus(hostId: int, clusterId: int)
      requires Valid() && serviceMap.smap.KeysSplit()
      modifies statusEvent, eventWS, eventWS.clients
      ensures Valid() && eventWS.clients == old(eventWS.clients) && eventWS.joined == old(eventWS.joined)
      ensures View() == CheckHostStep(old(View()), hostId, clusterId)
    {
      hide HostEventKey, ClusterEventKey, ClusterStatus, ServiceStatus, WsHub.Valid, Announce;
      var old_ := statusEvent.ReadKey(HostEventKey(hostId));
      var new_ := FillHostStatus(hostId, clusterId);
      AnnounceChange("host", hostId, old_.host, new_.host);
      old_ := statusEvent.ReadKey(ClusterEventKey(clusterId));
      AnnounceChange("cluster", clusterId, old_.cluster, new_.cluster);
      statusEvent.Write(HostEventKey(hostId), new_);
      statusEvent.Write(ClusterEventKey(clusterId), new_);
      assert eventWS.log == old(eventWS.log) + HostEvents(old(View()), hostId, clusterId);
    }

    // ---------- requests and timers ----------

    method SetHostStatus(hostId: int, status: int) returns (reply: Reply)
      requires Valid() && serviceMap.smap.KeysSplit()
      modifies statusEvent, eventWS, eventWS.clients, hostStatusStorage, hostStatusStorage.dbMap
      ensures Valid() && eventWS.clients == old(eventWS.clients) && eventWS.joined == old(eventWS.joined)
      ensures View() == Step(old(View()), SetHost(hostId, status))
      ensures hostId in serviceMap.smap.hostCluster ==> HostStatus(GetWorld(), hostId) == status
      ensures reply == if hostId !in serviceMap.smap.hostCluster then HostNotFound
                       else if Lookup(old(hostStatusStorage.dbMap.m), ALL, hostId).Some? then Stored(200)
                       else Stored(201)
    {
      if hostId !in serviceMap.smap.hostCluster {
        return HostNotFound;
      }
      StatusNumbers.HostReportStores(View(), hostId, status);
      var clusterId := serviceMap.smap.hostCluster[hostId];
      SaveHostStatus(hostId, clusterId);
      var res := hostStatusStorage.Set(ALL, hostId, status, CheckHost(hostId, clusterId));
      CheckHostStatus(hostId, clusterId);
      reply := Stored(res);
    }

    method SetHostComponent(hostId: int, compId: int, status: int) returns (reply: Reply, ghost input: Input)
      requires Valid() && serviceMap.smap.KeysSplit()
      modifies statusEvent, eventWS, eventWS.clients, hostComponentStorage, hostComponentStorage.dbMap
      ensures Valid() && eventWS.clients == old(eventWS.clients) && eventWS.joined == old(eventWS.joined)
      ensures input.SetHostComp? && input == SetHostComp(hostId, compId, status, input.seenBefore, input.seenAfter)
      ensures View() == Step(old(View()), input)
      ensures PairKey(hostId, compId) in serviceMap.smap.hostService ==> HcStatus(GetWorld(), hostId, compId) == status
      ensures reply == if PairKey(hostId, compId) !in serviceMap.smap.hostService then HcNotFound
                       else if Lookup(old(hostComponentStorage.dbMap.m), hostId, compId).Some? then Stored(200)
                       else Stored(201)
    {
      var key := PairKey(hostId, compId);
      if key !in serviceMap.smap.hostService {
        return HcNotFound, SetHostComp(hostId, compId, status, 0, 0);
      }
      var hc := serviceMap.smap.hostService[key];
      ghost var seenBefore := SaveHcStatus(hostId, compId, hc);
      var res := hostComponentStorage.Set(hostId, compId, status, CheckHc(hostId, compId, hc));
      ghost var seenAfter := CheckHcStatus(hostId, compId, hc);
      reply := Stored(res);
      input := SetHostComp(hostId, compId, status, seenBefore, seenAfter);
      StatusNumbers.HcReportStores(old(View()), hostId, compId, status, seenBefore, seenAfter);
    }

    /** The closure of a timer, on its own goroutine some time after the clear. */
    method RunClearFunc(f: ClearFunc) returns (ghost seen: int)
      requires Valid() && serviceMap.smap.KeysSplit()
      modifies statusEvent, eventWS, eventWS.clients
      ensures Valid() && eventWS.clients == old(eventWS.clients) && eventWS.joined == old(eventWS.joined)
      ensures View() == Play(old(View()), Check(f, seen)) && (f.CheckHost? ==> seen == 0)
      ensures f.CheckHc? ==> ComponentAnswer(GetWorld(), f.hcComp, seen)
    {
      hide CheckHcStep, CheckHostStep, ComponentAnswer, ServiceMaps.KeysSplit;
      seen := 0;
      match f
      case CheckHost(h, cl) => CheckHostStatus(h, cl);
      case CheckHc(h, c, hc) => seen := CheckHcStatus(h, c, hc);
    }

    /** A clear request of a host timer is served; what is to be run after it is handed back. */
    method HostTimerClears(start: nat) returns (clearFunc: ClearFunc)
      requires Valid() && serviceMap.smap.KeysSplit() && start in hostStatusStorage.pending
      modifies hostStatusStorage, hostStatusStorage.dbMap
      ensures Valid() && View() == Play(old(View()), HostExpires(start))
      ensures clearFunc == old(hostStatusStorage.pending)[start].clearFunc
    {
      clearFunc := hostStatusStorage.Expire(start);
    }

    method HcTimerClears(start: nat) returns (clearFunc: ClearFunc)
      requires Valid() && serviceMap.smap.KeysSplit() && start in hostComponentStorage.pending
      modifies hostComponentStorage, hostComponentStorage.dbMap
      ensures Valid() && View() == Play(old(View()), HcExpires(start))
      ensures clearFunc == old(hostComponentStorage.pending)[start].clearFunc
    {
      clearFunc := hostComponentStorage.Expire(start);
    }

    /** Clear and closure with nothing in between: the timer step. */
    method HostTimerFires(start: nat) returns (ghost seen: int)
      requires Valid() && serviceMap.smap.KeysSplit() && start in hostStatusStorage.pending
      modifies statusEvent, eventWS, eventWS.clients, hostStatusStorage, hostStatusStorage.dbMap
      ensures Valid() && eventWS.clients == old(eventWS.clients) && eventWS.joined == old(eventWS.joined)
      ensures old(hostStatusStorage.pending[start].clearFunc).CheckHost? ==>
              View() == Step(old(View()), HostTimer(start))
      ensures old(Coherent(View())) ==> Coherent(View()) && View() == Step(old(View()), HostTimer(start))
    {
      hide PairKey, IntText, ClusterStatus, ServiceStatus, SavedFresh, CheckHcStep, CheckHostStep, ComponentAnswer;
      ghost var s := View();
      if Coherent(s) {
        EveryStepGood(s, HostTimer(start));
        assert HostTimerOk(s.world.smap, s.saved, s.world.hosts.pending[start]);
      }
      var f := HostTimerClears(start);
      seen := RunClearFunc(f);
    }

    method HcTimerFires(start: nat) returns (ghost seen: int)
      requires Valid() && serviceMap.smap.KeysSplit() && start in hostComponentStorage.pending
      modifies statusEvent, eventWS, eventWS.clients, hostComponentStorage, hostComponentStorage.dbMap
      ensures Valid() && eventWS.clients == old(eventWS.clients) && eventWS.joined == old(eventWS.joined)
      ensures View() == Step(old(View()), HcTimer(start, seen))
    {
      hide CheckHcStep, CheckHostStep, ComponentAnswer;
      var f := HcTimerClears(start);
      seen := RunClearFunc(f);
    }
  }
}
