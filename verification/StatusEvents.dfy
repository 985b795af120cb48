/** The request and timer steps of the status server as functions on its whole state, and what a
    client that replays the delivered events knows after any run of such steps. */
module StatusEvents {
  import opened Common
  import opened Keys
  import opened Topology
  import opened StatusStorage
  import opened Aggregation

  datatype StatusHolder = StatusHolder(cluster: int, service: int, component: int, host: int, hostComp: int)

  // what a Go map read of an absent key returns
  const EMPTY_HOLDER := StatusHolder(0, 0, 0, 0, 0)

  datatype Message = Message(event: string, id: int, status: string)

  function StatusText(status: int): string {
    if status == 0 then "up" else "down"
  }

  function ChangeStatusMessage(objectType: string, id: int, status: int): Message {
    Message("update_" + objectType, id, StatusText(status))
  }

  type SavedStatuses = map<string, StatusHolder>

  function Read(saved: SavedStatuses, key: string): StatusHolder {
    if key in saved then saved[key] else EMPTY_HOLDER
  }

  datatype Server = Server(world: World, saved: SavedStatuses, log: seq<Message>)

  // ---------- the pieces of a step ----------

  /** `seen` is the number `getComponentStatus` happened to return. */
  function HcHolder(w: World, hostId: int, compId: int, hc: ClusterService, seen: int): StatusHolder
    requires w.smap.KeysSplit()
  {
    StatusHolder(ClusterStatus(w, hc.cluster), ServiceStatus(w, hc.cluster, hc.service), seen, 0,
                 HcStatus(w, hostId, compId))
  }

  function HostHolder(w: World, hostId: int, clusterId: int): StatusHolder
    requires w.smap.KeysSplit()
  {
    StatusHolder(ClusterStatus(w, clusterId), 0, 0, HostStatus(w, hostId), 0)
  }

  function Announce(objectType: string, id: int, oldStatus: int, newStatus: int): seq<Message> {
    if oldStatus != newStatus then [ChangeStatusMessage(objectType, id, newStatus)] else []
  }

  function SaveHc(s: Server, hostId: int, compId: int, hc: ClusterService, seen: int): Server
    requires s.world.smap.KeysSplit()
  {
    var sh := HcHolder(s.world, hostId, compId, hc, seen);
    s.(saved := s.saved[HcEventKey(hostId, compId) := sh][ClusterEventKey(hc.cluster) := sh])
  }

  function SaveHost(s: Server, hostId: int, clusterId: int): Server
    requires s.world.smap.KeysSplit()
  {
    var sh := HostHolder(s.world, hostId, clusterId);
    s.(saved := s.saved[HostEventKey(hostId) := sh][ClusterEventKey(clusterId) := sh])
  }

  function HcEvents(s: Server, hostId: int, compId: int, hc: ClusterService, seen: int): seq<Message>
    requires s.world.smap.KeysSplit()
  {
    var old_ := Read(s.saved, HcEventKey(hostId, compId));
    var new_ := HcHolder(s.world, hostId, compId, hc, seen);
    Announce("component", compId, old_.component, new_.component)
    + Announce("service", hc.service, old_.service, new_.service)
    + Announce("cluster", hc.cluster, Read(s.saved, ClusterEventKey(hc.cluster)).cluster, new_.cluster)
  }

  function HostEvents(s: Server, hostId: int, clusterId: int): seq<Message>
    requires s.world.smap.KeysSplit()
  {
    var new_ := HostHolder(s.world, hostId, clusterId);
    Announce("host", hostId, Read(s.saved, HostEventKey(hostId)).host, new_.host)
    + Announce("cluster", clusterId, Read(s.saved, ClusterEventKey(clusterId)).cluster, new_.cluster)
  }

  /** Compare with what was saved, announce, and save what is true now. */
  function CheckHcStep(s: Server, hostId: int, compId: int, hc: ClusterService, seen: int): Server
    requires s.world.smap.KeysSplit()
  {
    SaveHc(s, hostId, compId, hc, seen).(log := s.log + HcEvents(s, hostId, compId, hc, seen))
  }

  function CheckHostStep(s: Server, hostId: int, clusterId: int): Server
    requires s.world.smap.KeysSplit()
  {
    SaveHost(s, hostId, clusterId).(log := s.log + HostEvents(s, hostId, clusterId))
  }

  // ---------- the steps ----------

  /** Inputs of the server.  `seen` numbers are the answers of the order-dependent component query. */
  datatype Input =
    | SetHost(hostId: int, status: int)
    | SetHostComp(hcHost: int, compId: int, status: int, seenBefore: int, seenAfter: int)
    | HostTimer(start: nat)
    | HcTimer(start: nat, seen: int)

  function Step(s: Server, input: Input): Server
    requires s.world.smap.KeysSplit()
  {
    match input
    case SetHost(h, v) =>
      if h !in s.world.smap.hostCluster then s
      else
        var cl := s.world.smap.hostCluster[h];
        var s1 := SaveHost(s, h, cl);
        var s2 := s1.(world := s1.world.(hosts := PutStore(s1.world.hosts, ALL, h, v, CheckHost(h, cl))));
        CheckHostStep(s2, h, cl)
    case SetHostComp(h, c, v, seenBefore, seenAfter) =>
      if PairKey(h, c) !in s.world.smap.hostService then s
      else
        var hc := s.world.smap.hostService[PairKey(h, c)];
        var s1 := SaveHc(s, h, c, hc, seenBefore);
        var s2 := s1.(world := s1.world.(hcs := PutStore(s1.world.hcs, h, c, v, CheckHc(h, c, hc))));
        CheckHcStep(s2, h, c, hc, seenAfter)
    case HostTimer(start) =>
      if start !in s.world.hosts.pending then s
      else RunClear(s.(world := s.world.(hosts := ExpireStore(s.world.hosts, start))),
                    s.world.hosts.pending[start].clearFunc, 0)
    case HcTimer(start, seen) =>
      if start !in s.world.hcs.pending then s
      else RunClear(s.(world := s.world.(hcs := ExpireStore(s.world.hcs, start))),
                    s.world.hcs.pending[start].clearFunc, seen)
  }

  function RunClear(s: Server, f: ClearFunc, seen: int): Server
    requires s.world.smap.KeysSplit()
  {
    match f
    case CheckHost(h, cl) => CheckHostStep(s, h, cl)
    case CheckHc(h, c, hc) => CheckHcStep(s, h, c, hc, seen)
  }

  // ---------- the invariant ----------

  ghost predicate HostTimerOk(smap: ServiceMaps, saved: SavedStatuses, r: ClearRequest) {
    && r.key1 == ALL
    && r.key2 in smap.hostCluster
    && r.clearFunc == CheckHost(r.key2, smap.hostCluster[r.key2])
    && HostEventKey(r.key2) in saved
    && ClusterEventKey(smap.hostCluster[r.key2]) in saved
  }

  ghost predicate HcTimerOk(smap: ServiceMaps, saved: SavedStatuses, r: ClearRequest) {
    && PairKey(r.key1, r.key2) in smap.hostService
    && r.clearFunc == CheckHc(r.key1, r.key2, smap.hostService[PairKey(r.key1, r.key2)])
    && HcEventKey(r.key1, r.key2) in saved
    && ClusterEventKey(smap.hostService[PairKey(r.key1, r.key2)].cluster) in saved
  }

  ghost predicate TimersOk(w: World, saved: SavedStatuses) {
    && (forall i :: i in w.hosts.pending ==> HostTimerOk(w.smap, saved, w.hosts.pending[i]))
    && (forall i :: i in w.hcs.pending ==> HcTimerOk(w.smap, saved, w.hcs.pending[i]))
  }

  /** Whatever is saved for a cluster or a host is its status right now. */
  ghost predicate SavedFresh(w: World, saved: SavedStatuses)
    requires w.smap.KeysSplit()
  {
    && (forall cl :: ClusterEventKey(cl) in saved ==> saved[ClusterEventKey(cl)].cluster == ClusterStatus(w, cl))
    && (forall h :: HostEventKey(h) in saved ==> saved[HostEventKey(h)].host == HostStatus(w, h))
  }

  ghost predicate Coherent(s: Server) {
    && s.world.smap.WellFormed()
    && SavedFresh(s.world, s.saved)
    && TimersOk(s.world, s.saved)
  }

  // ---------- which statuses one write can reach ----------

  lemma HostWriteReach(v: World, w: World, hostId: int)
    requires v.smap.WellFormed() && SameTopology(v, w) && v.hcs.db == w.hcs.db
    requires hostId in v.smap.hostCluster
    requires forall k1, k2 :: k1 != ALL || k2 != hostId ==> Lookup(v.hosts.db, k1, k2) == Lookup(w.hosts.db, k1, k2)
    ensures forall h :: h != hostId ==> HostStatus(v, h) == HostStatus(w, h)
    ensures forall cl :: cl != v.smap.hostCluster[hostId] ==> ClusterStatus(v, cl) == ClusterStatus(w, cl)
  {
    forall cl | cl != v.smap.hostCluster[hostId]
      ensures ClusterStatus(v, cl) == ClusterStatus(w, cl)
    {
      assert hostId !in v.smap.Hosts(cl);
      ClusterStatusFrame(v, w, cl);
    }
  }

  lemma HcWriteReach(v: World, w: World, hostId: int, compId: int)
    requires v.smap.WellFormed() && SameTopology(v, w) && v.hosts.db == w.hosts.db
    requires PairKey(hostId, compId) in v.smap.hostService
    requires forall k1, k2 :: k1 != hostId || k2 != compId ==> Lookup(v.hcs.db, k1, k2) == Lookup(w.hcs.db, k1, k2)
    ensures forall h :: HostStatus(v, h) == HostStatus(w, h)
    ensures forall cl :: cl != v.smap.hostService[PairKey(hostId, compId)].cluster ==>
              ClusterStatus(v, cl) == ClusterStatus(w, cl)
  {
    var hc := v.smap.hostService[PairKey(hostId, compId)];
    forall cl | cl != hc.cluster
      ensures ClusterStatus(v, cl) == ClusterStatus(w, cl)
    {
      forall sv ensures SameHcsOf(v, w, cl, sv) {
        forall key | key in v.smap.ServiceHC(cl, sv)
          ensures HcStatus(v, HostOf(key), ComponentOf(key)) == HcStatus(w, HostOf(key), ComponentOf(key))
        {
          assert v.smap.hostService[key] == ClusterService(cl, sv);
        }
      }
      ClusterStatusFrame(v, w, cl);
    }
  }

  // ---------- one step keeps the invariant and announces every change ----------

  datatype Subject = ClusterOf(cluster: int) | HostOfId(hostId: int)

  function CurrentStatus(w: World, o: Subject): int
    requires w.smap.KeysSplit()
  {
    match o
    case ClusterOf(cl) => ClusterStatus(w, cl)
    case HostOfId(h) => HostStatus(w, h)
  }

  /** What the last message of one kind about one object said. */
  function LastAbout(messages: seq<Message>, event: string, id: int): Option<string> {
    if messages == [] then None
    else
      var m := messages[|messages| - 1];
      if m.event == event && m.id == id then Some(m.status) else LastAbout(messages[..|messages| - 1], event, id)
  }

  lemma {:induction false} LastAboutAppend(a: seq<Message>, b: seq<Message>, event: string, id: int)
    ensures LastAbout(a + b, event, id) ==
            if LastAbout(b, event, id).Some? then LastAbout(b, event, id) else LastAbout(a, event, id)
  {
    if b == [] {
      assert a + b == a;
    } else {
      assert (a + b)[..|a + b| - 1] == a + b[..|b| - 1];
      LastAboutAppend(a, b[..|b| - 1], event, id);
    }
  }

  lemma AnnounceNews(objectType: string, id: int, oldStatus: int, newStatus: int, aboutType: string, aboutId: int)
    ensures LastAbout(Announce(objectType, id, oldStatus, newStatus), "update_" + aboutType, aboutId) ==
            if oldStatus != newStatus && objectType == aboutType && id == aboutId
            then Some(StatusText(newStatus)) else None
  {
    var m := ChangeStatusMessage(objectType, id, newStatus);
    assert m.event[7..] == objectType && ("update_" + aboutType)[7..] == aboutType;
    if oldStatus != newStatus {
      assert [m][..0] == [];
      assert LastAbout([], "update_" + aboutType, aboutId) == None;
    }
  }

  function TypeName(o: Subject): string {
    if o.ClusterOf? then "cluster" else "host"
  }

  function IdOf(o: Subject): int {
    match o
    case ClusterOf(cl) => cl
    case HostOfId(h) => h
  }

  function LastNews(messages: seq<Message>, o: Subject): Option<string> {
    LastAbout(messages, "update_" + TypeName(o), IdOf(o))
  }

  /** The news of a step: an object is mentioned exactly when its status moved, with its new status. */
  ghost predicate Announced(v: World, w: World, news: seq<Message>, o: Subject)
    requires v.smap.KeysSplit() && w.smap.KeysSplit()
  {
    LastNews(news, o) ==
      if CurrentStatus(v, o) != CurrentStatus(w, o) then Some(StatusText(CurrentStatus(w, o))) else None
  }

  /** The news of a run: either an object is not mentioned and reads as before, or the last message
      about it tells its present status. */
  ghost predicate NewsExact(v: World, w: World, news: seq<Message>, o: Subject)
    requires v.smap.KeysSplit() && w.smap.KeysSplit()
  {
    match LastNews(news, o)
    case None => StatusText(CurrentStatus(v, o)) == StatusText(CurrentStatus(w, o))
    case Some(text) => text == StatusText(CurrentStatus(w, o))
  }

  lemma HostEventsExact(s: Server, v: World, hostId: int, clusterId: int, o: Subject)
    requires s.world.smap.WellFormed() && SameTopology(v, s.world)
    requires HostEventKey(hostId) in s.saved && s.saved[HostEventKey(hostId)].host == HostStatus(v, hostId)
    requires ClusterEventKey(clusterId) in s.saved
             && s.saved[ClusterEventKey(clusterId)].cluster == ClusterStatus(v, clusterId)
    requires forall h :: h != hostId ==> HostStatus(v, h) == HostStatus(s.world, h)
    requires forall cl :: cl != clusterId ==> ClusterStatus(v, cl) == ClusterStatus(s.world, cl)
    ensures Announced(v, s.world, HostEvents(s, hostId, clusterId), o)
  {
    hide PairKey, HostOf, ComponentOf, HcEventKey, HostEventKey, ClusterEventKey, ClusterStatus, ServiceStatus, Details;
    var w := s.world;
    var first := Announce("host", hostId, HostStatus(v, hostId), HostStatus(w, hostId));
    var second := Announce("cluster", clusterId, ClusterStatus(v, clusterId), ClusterStatus(w, clusterId));
    assert HostEvents(s, hostId, clusterId) == first + second;
    LastAboutAppend(first, second, "update_" + TypeName(o), IdOf(o));
    AnnounceNews("host", hostId, HostStatus(v, hostId), HostStatus(w, hostId), TypeName(o), IdOf(o));
    AnnounceNews("cluster", clusterId, ClusterStatus(v, clusterId), ClusterStatus(w, clusterId), TypeName(o), IdOf(o));
  }

  lemma HcEventsExact(s: Server, v: World, hostId: int, compId: int, hc: ClusterService, seen: int, o: Subject)
    requires s.world.smap.WellFormed() && SameTopology(v, s.world)
    requires ClusterEventKey(hc.cluster) in s.saved
             && s.saved[ClusterEventKey(hc.cluster)].cluster == ClusterStatus(v, hc.cluster)
    requires forall h :: HostStatus(v, h) == HostStatus(s.world, h)
    requires forall cl :: cl != hc.cluster ==> ClusterStatus(v, cl) == ClusterStatus(s.world, cl)
    ensures Announced(v, s.world, HcEvents(s, hostId, compId, hc, seen), o)
  {
    hide PairKey, HostOf, ComponentOf, HcEventKey, HostEventKey, ClusterEventKey, ClusterStatus, ServiceStatus, Details;
    var w := s.world;
    var old_ := Read(s.saved, HcEventKey(hostId, compId));
    var new_ := HcHolder(w, hostId, compId, hc, seen);
    var a := Announce("component", compId, old_.component, new_.component);
    var b := Announce("service", hc.service, old_.service, new_.service);
    var c := Announce("cluster", hc.cluster, ClusterStatus(v, hc.cluster), ClusterStatus(w, hc.cluster));
    assert HcEvents(s, hostId, compId, hc, seen) == a + b + c;
    LastAboutAppend(a + b, c, "update_" + TypeName(o), IdOf(o));
    LastAboutAppend(a, b, "update_" + TypeName(o), IdOf(o));
    AnnounceNews("component", compId, old_.component, new_.component, TypeName(o), IdOf(o));
    AnnounceNews("service", hc.service, old_.service, new_.service, TypeName(o), IdOf(o));
    AnnounceNews("cluster", hc.cluster, ClusterStatus(v, hc.cluster), ClusterStatus(w, hc.cluster), TypeName(o),
      IdOf(o));
  }

  /** Saving writes the present, so it never spoils what was fresh about other objects. */
  lemma SaveHostFresh(s: Server, v: World, hostId: int, clusterId: int)
    requires s.world.smap.WellFormed() && SameTopology(v, s.world)
    requires SavedFresh(v, s.saved)
    requires forall h :: h != hostId ==> HostStatus(v, h) == HostStatus(s.world, h)
    requires forall cl :: cl != clusterId ==> ClusterStatus(v, cl) == ClusterStatus(s.world, cl)
    ensures SavedFresh(s.world, SaveHost(s, hostId, clusterId).saved)
  {
    hide PairKey, HostOf, ComponentOf, HcEventKey, HostEventKey, ClusterEventKey, ClusterStatus, ServiceStatus, Details;
    forall cl, h
      ensures ClusterEventKey(cl) == ClusterEventKey(clusterId) <==> cl == clusterId
      ensures HostEventKey(h) == HostEventKey(hostId) <==> h == hostId
      ensures ClusterEventKey(cl) != HostEventKey(h)
    {
      EventKeysDistinct(cl, 0, clusterId, 0);
      EventKeysDistinct(h, 0, hostId, 0);
      EventKeysDistinct(h, 0, cl, 0);
    }
  }

  lemma SaveHcFresh(s: Server, v: World, hostId: int, compId: int, hc: ClusterService, seen: int)
    requires s.world.smap.WellFormed() && SameTopology(v, s.world)
    requires SavedFresh(v, s.saved)
    requires forall h :: HostStatus(v, h) == HostStatus(s.world, h)
    requires forall cl :: cl != hc.cluster ==> ClusterStatus(v, cl) == ClusterStatus(s.world, cl)
    ensures SavedFresh(s.world, SaveHc(s, hostId, compId, hc, seen).saved)
  {
    hide PairKey, HostOf, ComponentOf, HcEventKey, HostEventKey, ClusterEventKey, ClusterStatus, ServiceStatus, Details;
    forall cl, h
      ensures ClusterEventKey(cl) == ClusterEventKey(hc.cluster) <==> cl == hc.cluster
      ensures HcEventKey(hostId, compId) != ClusterEventKey(cl)
      ensures HcEventKey(hostId, compId) != HostEventKey(h)
      ensures ClusterEventKey(cl) != HostEventKey(h)
    {
      EventKeysDistinct(cl, 0, hc.cluster, 0);
      EventKeysDistinct(hostId, compId, cl, 0);
      EventKeysDistinct(hostId, compId, h, 0);
      EventKeysDistinct(h, 0, cl, 0);
    }
  }

  // ---------- the four inputs ----------

  ghost predicate StepGood(s: Server, t: Server)
    requires s.world.smap.KeysSplit()
  {
    && Coherent(t)
    && SameTopology(s.world, t.world)
    && s.log <= t.log
    && forall o :: Announced(s.world, t.world, t.log[|s.log|..], o)
  }

  lemma NothingHappened(s: Server)
    requires Coherent(s)
    ensures StepGood(s, s)
  {
    hide PairKey, HostOf, ComponentOf, HcEventKey, HostEventKey, ClusterEventKey, ClusterStatus, ServiceStatus, Details;
    assert s.log[|s.log|..] == [];
  }

  /** A check right after the one write it may report: `v` is the world before that write. */
  lemma CheckHostGood(s: Server, v: World, hostId: int, clusterId: int)
    requires s.world.smap.WellFormed() && SameTopology(v, s.world)
    requires SavedFresh(v, s.saved) && TimersOk(s.world, s.saved)
    requires HostEventKey(hostId) in s.saved && ClusterEventKey(clusterId) in s.saved
    requires forall h :: h != hostId ==> HostStatus(v, h) == HostStatus(s.world, h)
    requires forall cl :: cl != clusterId ==> ClusterStatus(v, cl) == ClusterStatus(s.world, cl)
    ensures Coherent(CheckHostStep(s, hostId, clusterId))
    ensures forall o :: Announced(v, s.world, HostEvents(s, hostId, clusterId), o)
  {
    hide PairKey, HostOf, ComponentOf, HcEventKey, HostEventKey, ClusterEventKey, ClusterStatus, ServiceStatus, Details;
    SaveHostFresh(s, v, hostId, clusterId);
    forall o ensures Announced(v, s.world, HostEvents(s, hostId, clusterId), o) {
      HostEventsExact(s, v, hostId, clusterId, o);
    }
  }

  lemma CheckHcGood(s: Server, v: World, hostId: int, compId: int, hc: ClusterService, seen: int)
    requires s.world.smap.WellFormed() && SameTopology(v, s.world)
    requires SavedFresh(v, s.saved) && TimersOk(s.world, s.saved)
    requires ClusterEventKey(hc.cluster) in s.saved
    requires forall h :: HostStatus(v, h) == HostStatus(s.world, h)
    requires forall cl :: cl != hc.cluster ==> ClusterStatus(v, cl) == ClusterStatus(s.world, cl)
    ensures Coherent(CheckHcStep(s, hostId, compId, hc, seen))
    ensures forall o :: Announced(v, s.world, HcEvents(s, hostId, compId, hc, seen), o)
  {
    hide PairKey, HostOf, ComponentOf, HcEventKey, HostEventKey, ClusterEventKey, ClusterStatus, ServiceStatus, Details;
    SaveHcFresh(s, v, hostId, compId, hc, seen);
    forall o ensures Announced(v, s.world, HcEvents(s, hostId, compId, hc, seen), o) {
      HcEventsExact(s, v, hostId, compId, hc, seen, o);
    }
  }

  lemma SetHostGood(s: Server, hostId: int, status: int)
    requires Coherent(s)
    ensures StepGood(s, Step(s, SetHost(hostId, status)))
  {
    hide PairKey, HostOf, ComponentOf, HcEventKey, HostEventKey, ClusterEventKey, ClusterStatus, ServiceStatus, Details;
    if hostId !in s.world.smap.hostCluster {
      NothingHappened(s);
    } else {
      var cl := s.world.smap.hostCluster[hostId];
      var s1 := SaveHost(s, hostId, cl);
      SaveHostFresh(s, s.world, hostId, cl);
      var hosts := PutStore(s1.world.hosts, ALL, hostId, status, CheckHost(hostId, cl));
      var s2 := s1.(world := s1.world.(hosts := hosts));
      HostWriteReach(s.world, s2.world, hostId);
      CheckHostGood(s2, s.world, hostId, cl);
      assert Step(s, SetHost(hostId, status)).log[|s.log|..] == HostEvents(s2, hostId, cl);
    }
  }

  lemma SetHostCompGood(s: Server, hostId: int, compId: int, status: int, seenBefore: int, seenAfter: int)
    requires Coherent(s)
    ensures StepGood(s, Step(s, SetHostComp(hostId, compId, status, seenBefore, seenAfter)))
  {
    hide PairKey, HostOf, ComponentOf, HcEventKey, HostEventKey, ClusterEventKey, ClusterStatus, ServiceStatus, Details;
    if PairKey(hostId, compId) !in s.world.smap.hostService {
      NothingHappened(s);
    } else {
      var hc := s.world.smap.hostService[PairKey(hostId, compId)];
      var s1 := SaveHc(s, hostId, compId, hc, seenBefore);
      SaveHcFresh(s, s.world, hostId, compId, hc, seenBefore);
      var hcs := PutStore(s1.world.hcs, hostId, compId, status, CheckHc(hostId, compId, hc));
      var s2 := s1.(world := s1.world.(hcs := hcs));
      HcWriteReach(s.world, s2.world, hostId, compId);
      CheckHcGood(s2, s.world, hostId, compId, hc, seenAfter);
      assert Step(s, SetHostComp(hostId, compId, status, seenBefore, seenAfter)).log[|s.log|..]
          == HcEvents(s2, hostId, compId, hc, seenAfter);
    }
  }

  lemma HostTimerGood(s: Server, start: nat)
    requires Coherent(s)
    ensures StepGood(s, Step(s, HostTimer(start)))
  {
    hide PairKey, HostOf, ComponentOf, HcEventKey, HostEventKey, ClusterEventKey, ClusterStatus, ServiceStatus, Details;
    if start !in s.world.hosts.pending {
      NothingHappened(s);
    } else {
      var r := s.world.hosts.pending[start];
      assert HostTimerOk(s.world.smap, s.saved, r);
      var cl := s.world.smap.hostCluster[r.key2];
      var s1 := s.(world := s.world.(hosts := ExpireStore(s.world.hosts, start)));
      HostWriteReach(s.world, s1.world, r.key2);
      CheckHostGood(s1, s.world, r.key2, cl);
      assert Step(s, HostTimer(start)).log[|s.log|..] == HostEvents(s1, r.key2, cl);
    }
  }

  /** A fired timer is gone; the others stay as they were. */
  lemma HcTimerLeaves(s: Server, start: nat)
    requires Coherent(s) && start in s.world.hcs.pending
    ensures var w := s.world.(hcs := ExpireStore(s.world.hcs, start)); TimersOk(w, s.saved)
    ensures HcTimerOk(s.world.smap, s.saved, s.world.hcs.pending[start])
  {
    hide PairKey, HostOf, ComponentOf, HcEventKey, HostEventKey, ClusterEventKey, ClusterStatus, ServiceStatus, Details;
    var w := s.world.(hcs := ExpireStore(s.world.hcs, start));
    forall i | i in w.hcs.pending ensures HcTimerOk(w.smap, s.saved, w.hcs.pending[i]) {
      assert HcTimerOk(s.world.smap, s.saved, s.world.hcs.pending[i]);
    }
  }

  lemma HcTimerGood(s: Server, start: nat, seen: int)
    requires Coherent(s)
    ensures StepGood(s, Step(s, HcTimer(start, seen)))
  {
    hide PairKey, HostOf, ComponentOf, HcEventKey, HostEventKey, ClusterEventKey, ClusterStatus, ServiceStatus, Details;
    if start !in s.world.hcs.pending {
      NothingHappened(s);
    } else {
      var r := s.world.hcs.pending[start];
      HcTimerLeaves(s, start);
      var hc := s.world.smap.hostService[PairKey(r.key1, r.key2)];
      var s1 := s.(world := s.world.(hcs := ExpireStore(s.world.hcs, start)));
      HcWriteReach(s.world, s1.world, r.key1, r.key2);
      CheckHcGood(s1, s.world, r.key1, r.key2, hc, seen);
      assert Step(s, HcTimer(start, seen)).log[|s.log|..] == HcEvents(s1, r.key1, r.key2, hc, seen);
    }
  }

  /** Every step keeps the saved statuses fresh and announces exactly the clusters and hosts whose
      status changed. */
  lemma EveryStepGood(s: Server, input: Input)
    requires Coherent(s)
    ensures StepGood(s, Step(s, input))
  {
    match input
    case SetHost(h, v) => SetHostGood(s, h, v);
    case SetHostComp(h, c, v, seenBefore, seenAfter) => SetHostCompGood(s, h, c, v, seenBefore, seenAfter);
    case HostTimer(start) => HostTimerGood(s, start);
    case HcTimer(start, seen) => HcTimerGood(s, start, seen);
  }

  // ---------- whole runs ----------

  ghost function Exec(s: Server, inputs: seq<Input>): (t: Server)
    requires Coherent(s)
    ensures Coherent(t) && SameTopology(s.world, t.world) && s.log <= t.log
    decreases |inputs|
  {
    if inputs == [] then s
    else
      var m := Exec(s, inputs[..|inputs| - 1]);
      EveryStepGood(m, inputs[|inputs| - 1]);
      Step(m, inputs[|inputs| - 1])
  }

  function EmptyServer(smap: ServiceMaps, mm: MMObjectsData, hostTimeout: int, hcTimeout: int): Server {
    Server(World(smap, mm, Store(map[], hostTimeout, map[], 0), Store(map[], hcTimeout, map[], 0)), map[], [])
  }

  lemma EmptyServerCoherent(smap: ServiceMaps, mm: MMObjectsData, hostTimeout: int, hcTimeout: int)
    requires smap.WellFormed()
    ensures Coherent(EmptyServer(smap, mm, hostTimeout, hcTimeout))
  {
  }

  lemma NewsCompose(u: World, v: World, w: World, a: seq<Message>, b: seq<Message>, o: Subject)
    requires u.smap.KeysSplit() && v.smap.KeysSplit() && w.smap.KeysSplit()
    requires NewsExact(u, v, a, o) && NewsExact(v, w, b, o)
    ensures NewsExact(u, w, a + b, o)
  {
    LastAboutAppend(a, b, "update_" + TypeName(o), IdOf(o));
  }

  lemma {:induction false} RunNewsExact(s: Server, inputs: seq<Input>, o: Subject)
    requires Coherent(s)
    ensures NewsExact(s.world, Exec(s, inputs).world, Exec(s, inputs).log[|s.log|..], o)
    decreases |inputs|
  {
    hide ClusterStatus, ServiceStatus, Details, LastAbout, SavedFresh, TimersOk;
    if inputs == [] {
      NothingHappened(s);
      assert Announced(s.world, s.world, s.log[|s.log|..], o);
    } else {
      var m := Exec(s, inputs[..|inputs| - 1]);
      var t := Exec(s, inputs);
      RunNewsExact(s, inputs[..|inputs| - 1], o);
      EveryStepGood(m, inputs[|inputs| - 1]);
      assert Announced(m.world, t.world, t.log[|m.log|..], o);
      NewsCompose(s.world, m.world, t.world, m.log[|s.log|..], t.log[|m.log|..], o);
      assert t.log[|s.log|..] == m.log[|s.log|..] + t.log[|m.log|..];
    }
  }

  // ---------- the client ----------

  type Picture = map<Subject, string>

  /** What `showAll` tells a client: every cluster with services, every host of some cluster. */
  function Snapshot(w: World): Picture
    requires w.smap.KeysSplit()
  {
    ClusterTexts(map cl | cl in w.smap.service :: ClusterStatus(w, cl))
    + HostTexts(map h | h in w.smap.hostCluster :: HostStatus(w, h))
  }

  function ClusterTexts(statuses: map<int, int>): Picture {
    map cl | cl in statuses :: ClusterOf(cl) := StatusText(statuses[cl])
  }

  function HostTexts(statuses: map<int, int>): Picture {
    map h | h in statuses :: HostOfId(h) := StatusText(statuses[h])
  }

  function ApplyMessage(p: Picture, m: Message): Picture {
    if m.event == "update_cluster" then p[ClusterOf(m.id) := m.status]
    else if m.event == "update_host" then p[HostOfId(m.id) := m.status]
    else p
  }

  function Replay(p: Picture, messages: seq<Message>): Picture {
    if messages == [] then p
    else ApplyMessage(Replay(p, messages[..|messages| - 1]), messages[|messages| - 1])
  }

  lemma {:induction false} ReplayReadsLastNews(p: Picture, messages: seq<Message>, o: Subject)
    requires o in p
    ensures o in Replay(p, messages)
    ensures Replay(p, messages)[o] == match LastNews(messages, o) case Some(text) => text case None => p[o]
  {
    if messages != [] {
      ReplayReadsLastNews(p, messages[..|messages| - 1], o);
      assert "update_" + "cluster" == "update_cluster" && "update_" + "host" == "update_host";
    }
  }

  lemma SnapshotIsCurrent(w: World, o: Subject)
    requires w.smap.KeysSplit()
    requires o in Snapshot(w)
    ensures Snapshot(w)[o] == StatusText(CurrentStatus(w, o))
  {
    hide ClusterStatus, HostStatus, StatusText, ServiceMaps.KeysSplit;
    var hosts := map h | h in w.smap.hostCluster :: HostStatus(w, h);
    if o.HostOfId? {
      assert o in HostTexts(hosts) && HostTexts(hosts)[o] == StatusText(hosts[o.hostId]);
    } else {
      assert o !in HostTexts(hosts);
    }
  }

  /** News split at a snapshot: whatever came before it, the whole of it brings the picture up to
      date. */
  lemma ReplayOverSnapshot(u: World, v: World, w: World, before: seq<Message>, after: seq<Message>, p: Picture,
      o: Subject)
    requires u.smap.KeysSplit() && v.smap.KeysSplit() && w.smap.KeysSplit()
    requires NewsExact(u, v, before, o) && NewsExact(v, w, after, o)
    requires o in p && p[o] == StatusText(CurrentStatus(v, o))
    ensures o in Replay(p, before + after)
    ensures Replay(p, before + after)[o] == StatusText(CurrentStatus(w, o))
  {
    LastAboutAppend(before, after, "update_" + TypeName(o), IdOf(o));
    ReplayReadsLastNews(p, before + after, o);
  }

  /** A client joins, some steps later it takes a snapshot, some steps later it has applied every
      message delivered since it joined, even those older than the snapshot: it then holds the
      current status of every cluster and host it was shown. */
  lemma ClientInSync(joined: Server, untilSnapshot: seq<Input>, sinceSnapshot: seq<Input>, o: Subject)
    requires Coherent(joined)
    ensures var shown := Exec(joined, untilSnapshot);
            var now := Exec(shown, sinceSnapshot);
            o in Snapshot(shown.world) ==>
              var picture := Replay(Snapshot(shown.world), now.log[|joined.log|..]);
              o in picture && picture[o] == StatusText(CurrentStatus(now.world, o))
  {
    hide ClusterStatus, Replay, LastAbout, NewsExact, Snapshot, Step, SavedFresh, TimersOk;
    var shown := Exec(joined, untilSnapshot);
    var now := Exec(shown, sinceSnapshot);
    if o in Snapshot(shown.world) {
      RunNewsExact(joined, untilSnapshot, o);
      RunNewsExact(shown, sinceSnapshot, o);
      SnapshotIsCurrent(shown.world, o);
      var before, after := shown.log[|joined.log|..], now.log[|shown.log|..];
      assert now.log[|joined.log|..] == before + after;
      ReplayOverSnapshot(joined.world, shown.world, now.world, before, after, Snapshot(shown.world), o);
    }
  }
}
