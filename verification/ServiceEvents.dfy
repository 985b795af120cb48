/** Events about services.  The status a service is compared with is kept per host-component, so a
    timer may compare with a number that other host-components have made stale.  This module says
    exactly when a client can rely on service events. */
module ServiceEvents {
  import opened Common
  import opened Keys
  import opened Topology
  import opened StatusStorage
  import opened Aggregation
  import opened StatusEvents

  /** At most one host-component of the service is outside maintenance mode. */
  ghost predicate SoleActive(w: World, cluster: int, service: int)
    requires w.smap.KeysSplit()
  {
    forall k1, k2 ::
      k1 in w.smap.ServiceHC(cluster, service) && k2 in w.smap.ServiceHC(cluster, service) ==>
        Skipped(w, k1) || Skipped(w, k2) || k1 == k2
  }

  /** Service ids are not shared between clusters. */
  ghost predicate OwnsServiceId(smap: ServiceMaps, cluster: int, service: int) {
    forall key :: key in smap.hostService && smap.hostService[key].service == service ==>
      smap.hostService[key].cluster == cluster
  }

  /** The counterpart of `NewsExact` for a service. */
  ghost predicate ServiceNewsExact(v: World, w: World, news: seq<Message>, cluster: int, service: int)
    requires v.smap.KeysSplit() && w.smap.KeysSplit()
  {
    match LastAbout(news, "update_service", service)
    case None => StatusText(ServiceStatus(v, cluster, service)) == StatusText(ServiceStatus(w, cluster, service))
    case Some(text) => text == StatusText(ServiceStatus(w, cluster, service))
  }

  ghost predicate ServiceFresh(w: World, saved: SavedStatuses, cluster: int, service: int)
    requires w.smap.KeysSplit()
  {
    forall key :: key in w.smap.ServiceHC(cluster, service) && !Skipped(w, key)
                  && HcEventKey(HostOf(key), ComponentOf(key)) in saved ==>
      saved[HcEventKey(HostOf(key), ComponentOf(key))].service == ServiceStatus(w, cluster, service)
  }

  // ---------- what moves a service's status ----------

  lemma {:induction false} DetailsIgnoreSkipped(v: World, w: World, keys: seq<string>)
    requires SameTopology(v, w) && AllSplit(keys)
    requires forall key :: key in keys && !Skipped(v, key) ==>
               HcStatus(v, HostOf(key), ComponentOf(key)) == HcStatus(w, HostOf(key), ComponentOf(key))
    ensures Details(v, keys) == Details(w, keys)
  {
    if keys != [] {
      DetailsIgnoreSkipped(v, w, keys[..|keys| - 1]);
      assert keys[|keys| - 1] in keys;
    }
  }

  /** Only a write to a listed host-component outside maintenance mode can move a service. */
  lemma ServiceUnmoved(v: World, w: World, hostId: int, compId: int, cluster: int, service: int)
    requires v.smap.WellFormed() && SameTopology(v, w)
    requires forall k1, k2 :: k1 != hostId || k2 != compId ==> Lookup(v.hcs.db, k1, k2) == Lookup(w.hcs.db, k1, k2)
    requires PairKey(hostId, compId) in v.smap.ServiceHC(cluster, service) ==>
               v.hcs.db == w.hcs.db || hostId in v.mm.hosts || compId in v.mm.components
    ensures ServiceStatus(v, cluster, service) == ServiceStatus(w, cluster, service)
  {
    hide PairKey, HostOf, ComponentOf, Details, ServiceMaps.HostsConsistent;
    var keys := v.smap.ServiceHC(cluster, service);
    forall key | key in keys && !Skipped(v, key)
      ensures HcStatus(v, HostOf(key), ComponentOf(key)) == HcStatus(w, HostOf(key), ComponentOf(key))
    {
      OtherOrSameStored(v, w, hostId, compId, cluster, service, key);
    }
    DetailsIgnoreSkipped(v, w, keys);
  }

  lemma OtherOrSameStored(v: World, w: World, hostId: int, compId: int, cluster: int, service: int, key: string)
    requires v.smap.WellFormed() && key in v.smap.ServiceHC(cluster, service) && !Skipped(v, key)
    requires forall k1, k2 :: k1 != hostId || k2 != compId ==> Lookup(v.hcs.db, k1, k2) == Lookup(w.hcs.db, k1, k2)
    requires PairKey(hostId, compId) in v.smap.ServiceHC(cluster, service) ==>
               v.hcs.db == w.hcs.db || hostId in v.mm.hosts || compId in v.mm.components
    ensures HcStatus(v, HostOf(key), ComponentOf(key)) == HcStatus(w, HostOf(key), ComponentOf(key))
  {
    hide PairKey, HostOf, ComponentOf, ServiceMaps.HostsConsistent, ServiceMaps.ServiceHC;
    assert key == PairKey(HostOf(key), ComponentOf(key));
  }

  // ---------- the events of a check ----------

  lemma HostEventsSilent(s: Server, hostId: int, clusterId: int, service: int)
    requires s.world.smap.KeysSplit()
    ensures LastAbout(HostEvents(s, hostId, clusterId), "update_service", service) == None
  {
    hide ClusterStatus, HostEventKey, ClusterEventKey;
    var new_ := HostHolder(s.world, hostId, clusterId);
    var a := Announce("host", hostId, Read(s.saved, HostEventKey(hostId)).host, new_.host);
    var b := Announce("cluster", clusterId, Read(s.saved, ClusterEventKey(clusterId)).cluster, new_.cluster);
    LastAboutAppend(a, b, "update_" + "service", service);
    AnnounceNews("host", hostId, Read(s.saved, HostEventKey(hostId)).host, new_.host, "service", service);
    AnnounceNews("cluster", clusterId, Read(s.saved, ClusterEventKey(clusterId)).cluster, new_.cluster, "service",
      service);
    assert "update_" + "service" == "update_service";
  }

  lemma HcEventsAboutService(s: Server, hostId: int, compId: int, hc: ClusterService, seen: int, service: int)
    requires s.world.smap.KeysSplit()
    ensures LastAbout(HcEvents(s, hostId, compId, hc, seen), "update_service", service) ==
            if hc.service == service &&
               Read(s.saved, HcEventKey(hostId, compId)).service != ServiceStatus(s.world, hc.cluster, hc.service)
            then Some(StatusText(ServiceStatus(s.world, hc.cluster, hc.service))) else None
  {
    hide ServiceStatus, ClusterStatus, HcEventKey, ClusterEventKey, HcStatus;
    var old_ := Read(s.saved, HcEventKey(hostId, compId));
    var new_ := HcHolder(s.world, hostId, compId, hc, seen);
    var oldCluster := Read(s.saved, ClusterEventKey(hc.cluster)).cluster;
    var a := Announce("component", compId, old_.component, new_.component);
    var b := Announce("service", hc.service, old_.service, new_.service);
    var c := Announce("cluster", hc.cluster, oldCluster, new_.cluster);
    assert "update_" + "service" == "update_service";
    LastAboutAppend(a + b, c, "update_service", service);
    LastAboutAppend(a, b, "update_service", service);
    AnnounceNews("component", compId, old_.component, new_.component, "service", service);
    AnnounceNews("service", hc.service, old_.service, new_.service, "service", service);
    AnnounceNews("cluster", hc.cluster, oldCluster, new_.cluster, "service", service);
  }

  /** One expiring timer misleads a service's client exactly when the number saved for its
      host-component happens to be the new status while up has become down or down up. */
  lemma ExpiryMisleadsIff(s: Server, start: nat, seen: int)
    requires Coherent(s) && start in s.world.hcs.pending
    ensures HcTimerOk(s.world.smap, s.saved, s.world.hcs.pending[start])
    ensures StepGood(s, Step(s, HcTimer(start, seen)))
    ensures var r := s.world.hcs.pending[start];
            var hc := s.world.smap.hostService[PairKey(r.key1, r.key2)];
            ExpiryExact(s, Step(s, HcTimer(start, seen)), hc, s.saved[HcEventKey(r.key1, r.key2)].service)
  {
    hide PairKey, HostOf, ComponentOf, HcEventKey, HostEventKey, ClusterEventKey, ClusterStatus, ServiceStatus, Details;
    HcTimerGood(s, start, seen);
    var r := s.world.hcs.pending[start];
    assert HcTimerOk(s.world.smap, s.saved, r);
    var hc := s.world.smap.hostService[PairKey(r.key1, r.key2)];
    var s1 := s.(world := s.world.(hcs := ExpireStore(s.world.hcs, start)));
    HcEventsAboutService(s1, r.key1, r.key2, hc, seen, hc.service);
    assert Step(s, HcTimer(start, seen)).log[|s.log|..] == HcEvents(s1, r.key1, r.key2, hc, seen);
  }

  ghost predicate ExpiryExact(s: Server, t: Server, hc: ClusterService, savedStatus: int)
    requires s.world.smap.KeysSplit() && t.world.smap.KeysSplit() && s.log <= t.log
  {
    var before, after := ServiceStatus(s.world, hc.cluster, hc.service), ServiceStatus(t.world, hc.cluster, hc.service);
    ServiceNewsExact(s.world, t.world, t.log[|s.log|..], hc.cluster, hc.service) <==>
    savedStatus != after || (before == 0 <==> after == 0)
  }

  // ---------- one step ----------

  ghost predicate ServiceStepExact(s: Server, t: Server, cluster: int, service: int)
    requires s.world.smap.KeysSplit() && t.world.smap.KeysSplit() && s.log <= t.log
  {
    ServiceNewsExact(s.world, t.world, t.log[|s.log|..], cluster, service)
  }

  lemma HostInputsKeepService(s: Server, input: Input, cluster: int, service: int)
    requires Coherent(s) && (input.SetHost? || input.HostTimer?)
    ensures StepGood(s, Step(s, input)) && Step(s, input).world.hcs == s.world.hcs
    ensures ServiceStepExact(s, Step(s, input), cluster, service)
    ensures ServiceFresh(s.world, s.saved, cluster, service) ==>
              ServiceFresh(Step(s, input).world, Step(s, input).saved, cluster, service)
  {
    hide PairKey, HostOf, ComponentOf, HcEventKey, HostEventKey, ClusterEventKey, ClusterStatus, ServiceStatus, Details;
    EveryStepGood(s, input);
    var t := Step(s, input);
    ServiceUnmoved(s.world, t.world, 0, 0, cluster, service);
    if t == s {
      assert t.log[|s.log|..] == [];
    } else {
      var h, cl :=
        if input.SetHost? then input.hostId else s.world.hosts.pending[input.start].key2,
        if input.SetHost? then s.world.smap.hostCluster[input.hostId]
        else s.world.smap.hostCluster[s.world.hosts.pending[input.start].key2];
      var s2 := (if input.SetHost? then SaveHost(s, h, cl) else s).(world := t.world);
      assert t == CheckHostStep(s2, h, cl);
      HostEventsSilent(s2, h, cl, service);
      assert t.log[|s.log|..] == HostEvents(s2, h, cl);
      forall h2, c2
        ensures HcEventKey(h2, c2) != HostEventKey(h) && HcEventKey(h2, c2) != ClusterEventKey(cl)
      {
        EventKeysDistinct(h2, c2, h, 0);
        EventKeysDistinct(h2, c2, cl, 0);
      }
    }
  }

  /** A `set` saves the present right before it writes, so its own service event is always right. */
  lemma SetHostCompServiceExact(s: Server, input: Input, cluster: int, service: int)
    requires Coherent(s) && input.SetHostComp? && OwnsServiceId(s.world.smap, cluster, service)
    ensures StepGood(s, Step(s, input))
    ensures ServiceStepExact(s, Step(s, input), cluster, service)
  {
    hide HcEvents, TimersOk, SavedFresh, Announced, PairKey, HostOf, ComponentOf, HcEventKey, HostEventKey,
         ClusterEventKey, ClusterStatus, ServiceStatus, Details;
    EveryStepGood(s, input);
    var t := Step(s, input);
    var h, c := input.hcHost, input.compId;
    if PairKey(h, c) !in s.world.smap.hostService {
      assert t.log[|s.log|..] == [];
    } else {
      var hc := s.world.smap.hostService[PairKey(h, c)];
      var s2 := SaveHc(s, h, c, hc, input.seenBefore).(world := t.world);
      assert t == CheckHcStep(s2, h, c, hc, input.seenAfter);
      assert t.log[|s.log|..] == HcEvents(s2, h, c, hc, input.seenAfter);
      HcEventsAboutService(s2, h, c, hc, input.seenAfter, service);
      EventKeysDistinct(h, c, hc.cluster, 0);
      if hc.service == service {
        assert s2.saved[HcEventKey(h, c)].service == ServiceStatus(s.world, cluster, service);
      } else {
        ServiceUnmoved(s.world, t.world, h, c, cluster, service);
      }
    }
  }

  lemma SaveHcKeepsServiceFresh(s: Server, v: World, hostId: int, compId: int, hc: ClusterService, seen: int,
                                cluster: int, service: int)
    requires s.world.smap.WellFormed() && SameTopology(v, s.world)
    requires SoleActive(v, cluster, service) && ServiceFresh(v, s.saved, cluster, service)
    requires PairKey(hostId, compId) in v.smap.hostService && hc == v.smap.hostService[PairKey(hostId, compId)]
    requires forall k1, k2 :: k1 != hostId || k2 != compId ==>
             Lookup(v.hcs.db, k1, k2) == Lookup(s.world.hcs.db, k1, k2)
    ensures ServiceFresh(s.world, SaveHc(s, hostId, compId, hc, seen).saved, cluster, service)
  {
    hide PairKey, HostOf, ComponentOf, HcEventKey, HostEventKey, ClusterEventKey, ClusterStatus, ServiceStatus, Details;
    var w := s.world;
    var saved := SaveHc(s, hostId, compId, hc, seen).saved;
    forall key | key in w.smap.ServiceHC(cluster, service) && !Skipped(w, key)
                 && HcEventKey(HostOf(key), ComponentOf(key)) in saved
      ensures saved[HcEventKey(HostOf(key), ComponentOf(key))].service == ServiceStatus(w, cluster, service)
    {
      EventKeysDistinct(HostOf(key), ComponentOf(key), hostId, compId);
      EventKeysDistinct(HostOf(key), ComponentOf(key), hc.cluster, 0);
      EventKeysDistinct(hostId, compId, hc.cluster, 0);
      assert key == PairKey(HostOf(key), ComponentOf(key))
             && w.smap.hostService[key] == ClusterService(cluster, service);
      if HostOf(key) != hostId || ComponentOf(key) != compId {
        OtherActiveKey(v, hostId, compId, cluster, service, key);
        ServiceUnmoved(v, w, hostId, compId, cluster, service);
      }
    }
  }

  lemma OtherActiveKey(v: World, hostId: int, compId: int, cluster: int, service: int, key: string)
    requires v.smap.WellFormed() && SoleActive(v, cluster, service)
    requires key in v.smap.ServiceHC(cluster, service) && !Skipped(v, key)
    requires HostOf(key) != hostId || ComponentOf(key) != compId
    ensures PairKey(hostId, compId) in v.smap.ServiceHC(cluster, service) ==>
              hostId in v.mm.hosts || compId in v.mm.components
  {
    hide HostOf, ComponentOf, PairKey, Details;
    var other := PairKey(hostId, compId);
    if other in v.smap.ServiceHC(cluster, service) {
      assert other == PairKey(HostOf(other), ComponentOf(other));
      PairKeyInjective(hostId, compId, HostOf(other), ComponentOf(other));
    }
  }

  lemma SetHostCompKeepsServiceFresh(s: Server, input: Input, cluster: int, service: int)
    requires Coherent(s) && input.SetHostComp? && SoleActive(s.world, cluster, service)
    requires ServiceFresh(s.world, s.saved, cluster, service)
    ensures ServiceFresh(Step(s, input).world, Step(s, input).saved, cluster, service)
  {
    hide PairKey, HostOf, ComponentOf, HcEventKey, HostEventKey, ClusterEventKey, ClusterStatus, ServiceStatus, Details;
    var h, c := input.hcHost, input.compId;
    if PairKey(h, c) in s.world.smap.hostService {
      var t := Step(s, input);
      var hc := s.world.smap.hostService[PairKey(h, c)];
      var s1 := SaveHc(s, h, c, hc, input.seenBefore);
      SaveHcKeepsServiceFresh(s, s.world, h, c, hc, input.seenBefore, cluster, service);
      var s2 := s1.(world := t.world);
      SaveHcKeepsServiceFresh(s2, s.world, h, c, hc, input.seenAfter, cluster, service);
      assert t == CheckHcStep(s2, h, c, hc, input.seenAfter);
    }
  }

  lemma HcTimerServiceExact(s: Server, input: Input, cluster: int, service: int)
    requires Coherent(s) && input.HcTimer? && SoleActive(s.world, cluster, service)
    requires OwnsServiceId(s.world.smap, cluster, service)
    requires ServiceFresh(s.world, s.saved, cluster, service)
    ensures StepGood(s, Step(s, input))
    ensures ServiceStepExact(s, Step(s, input), cluster, service)
    ensures ServiceFresh(Step(s, input).world, Step(s, input).saved, cluster, service)
  {
    hide PairKey, HostOf, ComponentOf, HcEventKey, HostEventKey, ClusterEventKey, ClusterStatus, ServiceStatus, Details;
    EveryStepGood(s, input);
    var t := Step(s, input);
    if input.start !in s.world.hcs.pending {
      assert t.log[|s.log|..] == [];
    } else {
      var r := s.world.hcs.pending[input.start];
      assert HcTimerOk(s.world.smap, s.saved, r);
      var hc := s.world.smap.hostService[PairKey(r.key1, r.key2)];
      var s1 := s.(world := t.world);
      assert t == CheckHcStep(s1, r.key1, r.key2, hc, input.seen);
      assert t.log[|s.log|..] == HcEvents(s1, r.key1, r.key2, hc, input.seen);
      HcEventsAboutService(s1, r.key1, r.key2, hc, input.seen, service);
      SaveHcKeepsServiceFresh(s1, s.world, r.key1, r.key2, hc, input.seen, cluster, service);
      ExpirySavedOrUnmoved(s, t.world, r, hc, cluster, service);
    }
  }

  /** The timer's host-component either has the fresh number saved, or cannot move the service. */
  lemma ExpirySavedOrUnmoved(s: Server, w: World, r: ClearRequest, hc: ClusterService, cluster: int, service: int)
    requires Coherent(s) && SameTopology(s.world, w) && ServiceFresh(s.world, s.saved, cluster, service)
    requires HcTimerOk(s.world.smap, s.saved, r) && hc == s.world.smap.hostService[PairKey(r.key1, r.key2)]
    requires forall k1, k2 :: k1 != r.key1 || k2 != r.key2 ==>
               Lookup(s.world.hcs.db, k1, k2) == Lookup(w.hcs.db, k1, k2)
    ensures || s.saved[HcEventKey(r.key1, r.key2)].service == ServiceStatus(s.world, cluster, service)
            || ServiceStatus(s.world, cluster, service) == ServiceStatus(w, cluster, service)
    ensures hc != ClusterService(cluster, service) ==>
              ServiceStatus(s.world, cluster, service) == ServiceStatus(w, cluster, service)
  {
    hide PairKey, HostOf, ComponentOf, HcEventKey, HostEventKey, ClusterEventKey, ClusterStatus, ServiceStatus, Details;
    var key := PairKey(r.key1, r.key2);
    if key in s.world.smap.ServiceHC(cluster, service) && r.key1 !in s.world.mm.hosts
      && r.key2 !in s.world.mm.components {
      assert key == PairKey(HostOf(key), ComponentOf(key));
      PairKeyInjective(r.key1, r.key2, HostOf(key), ComponentOf(key));
      assert s.world.smap.hostService[key] == ClusterService(cluster, service);
    } else {
      ServiceUnmoved(s.world, w, r.key1, r.key2, cluster, service);
    }
  }
}
