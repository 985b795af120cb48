/** Which number a status shows when it is not 0, and what an answer says about the keys and tables it
    comes from. */
module StatusNumbers {
  import opened Common
  import opened Keys
  import opened Topology
  import opened StatusStorage
  import opened Aggregation
  import opened StatusEvents

  /** The first bad value from the end decides. */
  lemma {:induction false} LastBadDecides(values: seq<int>, i: nat)
    requires i < |values| && values[i] != 0 && forall j :: i < j < |values| ==> values[j] == 0
    ensures LastNonZero(values) == values[i]
    decreases |values|
  {
    if i < |values| - 1 {
      LastBadDecides(values[..|values| - 1], i);
    }
  }

  ghost predicate Active(w: World, key: string)
    requires '.' in key
  {
    HostOf(key) !in w.mm.hosts && ComponentOf(key) !in w.mm.components
  }

  /** The listed host-component at `i` is bad, and those after it are up or in maintenance mode. */
  ghost predicate LastBadHc(w: World, keys: seq<string>, i: nat)
    requires AllSplit(keys) && i < |keys|
  {
    && Active(w, keys[i]) && HcStatus(w, HostOf(keys[i]), ComponentOf(keys[i])) != 0
    && forall j :: i < j < |keys| && Active(w, keys[j]) ==> HcStatus(w, HostOf(keys[j]), ComponentOf(keys[j])) == 0
  }

  lemma {:induction false} LastBadDetail(w: World, keys: seq<string>, i: nat)
    requires AllSplit(keys) && i < |keys| && LastBadHc(w, keys, i)
    ensures LastNonZero(StatusesOf(Details(w, keys))) == HcStatus(w, HostOf(keys[i]), ComponentOf(keys[i]))
    decreases |keys|
  {
    hide HostOf, ComponentOf;
    var init, last := keys[..|keys| - 1], keys[|keys| - 1];
    if i < |init| {
      assert LastBadHc(w, init, i);
      LastBadDetail(w, init, i);
    }
    if Active(w, last) {
      var before, after := StatusesOf(Details(w, init)), StatusesOf(Details(w, keys));
      assert after[..|before|] == before;
    }
  }

  /** A service that is not up shows the number of its last bad host-component. */
  lemma ServiceNumber(w: World, cluster: int, service: int, i: nat)
    requires w.smap.KeysSplit()
    requires i < |w.smap.ServiceHC(cluster, service)| && LastBadHc(w, w.smap.ServiceHC(cluster, service), i)
    ensures var key := w.smap.ServiceHC(cluster, service)[i];
            ServiceStatus(w, cluster, service) == HcStatus(w, HostOf(key), ComponentOf(key))
  {
    LastBadDetail(w, w.smap.ServiceHC(cluster, service), i);
  }

  ghost predicate LastBadHost(w: World, hosts: seq<int>, i: nat)
    requires i < |hosts|
  {
    && hosts[i] !in w.mm.hosts && HostStatus(w, hosts[i]) != 0
    && forall j :: i < j < |hosts| && hosts[j] !in w.mm.hosts ==> HostStatus(w, hosts[j]) == 0
  }

  lemma {:induction false} LastBadHostDecides(w: World, hosts: seq<int>, i: nat)
    requires i < |hosts| && LastBadHost(w, hosts, i)
    ensures LastNonZero(HostStatuses(w, hosts)) == HostStatus(w, hosts[i])
    decreases |hosts|
  {
    var init, last := hosts[..|hosts| - 1], hosts[|hosts| - 1];
    if i < |init| {
      assert LastBadHost(w, init, i);
      LastBadHostDecides(w, init, i);
    }
    if last !in w.mm.hosts {
      var before, after := HostStatuses(w, init), HostStatuses(w, hosts);
      assert after[..|before|] == before;
    }
  }

  /** A cluster that is not up shows the number of its last bad service; if its services are up, that of
      its last bad host; and 32 without services or, after that, without hosts. */
  lemma ClusterNumber(w: World, cluster: int, i: nat)
    requires w.smap.KeysSplit()
    ensures var services, hosts, status :=
              w.smap.Services(cluster), w.smap.Hosts(cluster), ClusterStatus(w, cluster);
            && (services == [] ==> status == 32)
            && (i < |services| && ServiceStatus(w, cluster, services[i]) != 0
                && (forall j :: i < j < |services| ==> ServiceStatus(w, cluster, services[j]) == 0) ==>
                  status == ServiceStatus(w, cluster, services[i]))
            && (services != [] && (forall sv :: sv in services ==> ServiceStatus(w, cluster, sv) == 0) ==>
                  && (hosts == [] ==> status == 32)
                  && (i < |hosts| && LastBadHost(w, hosts, i) ==> status == HostStatus(w, hosts[i])))
  {
    hide ServiceStatus, ServiceMaps.KeysSplit;
    var services, hosts := w.smap.Services(cluster), w.smap.Hosts(cluster);
    var statuses := ServiceStatuses(w, cluster, services);
    LastNonZeroMeaning(statuses);
    if i < |services| && ServiceStatus(w, cluster, services[i]) != 0
       && forall j :: i < j < |services| ==> ServiceStatus(w, cluster, services[j]) == 0 {
      LastBadDecides(statuses, i);
    }
    if i < |hosts| && LastBadHost(w, hosts, i) {
      LastBadHostDecides(w, hosts, i);
    }
  }

  /** In the per-component map a component shows its first bad detail. */
  lemma {:induction false} ComponentMapNumber(details: seq<HostCompStatus>, i: nat)
    requires i < |details| && details[i].status != 0
    requires forall j :: 0 <= j < i && details[j].component == details[i].component ==> details[j].status == 0
    ensures var m := ComponentMap(details);
            details[i].component in m && m[details[i].component] == details[i].status
    decreases |details|
  {
    var init := details[..|details| - 1];
    if i < |init| {
      ComponentMapNumber(init, i);
    } else {
      ComponentMapMeaning(init, details[i].component);
    }
  }

  /** What any answer of the component query says about the table of host-components. */
  lemma ComponentAnswerSays(w: World, comp: int, answer: int)
    requires w.smap.KeysSplit() && ComponentAnswer(w, comp, answer)
    ensures (forall key :: key in w.smap.hostService ==> ComponentOf(key) != comp) ==> answer == 32
    ensures (exists key :: key in w.smap.hostService && ComponentOf(key) == comp) ==>
              (answer == 0 <==>
               || comp in w.mm.components
               || forall key :: key in w.smap.hostService && ComponentOf(key) == comp && HostOf(key) !in w.mm.hosts ==>
                    StatusOf(w.hcs.db, HostOf(key), comp) == 0)
    ensures answer != 0 && answer != 32 ==>
              exists key :: key in w.smap.hostService && ComponentOf(key) == comp && HostOf(key) !in w.mm.hosts
                            && StatusOf(w.hcs.db, HostOf(key), comp) == answer
  {
    hide HostOf, ComponentOf;
    if key :| key in w.smap.hostService && ComponentOf(key) == comp {
      assert w.smap.ComponentOnHost(comp, HostOf(key));
      assert Placed(w, comp);
      forall k | k in w.smap.hostService && ComponentOf(k) == comp && HostOf(k) !in w.mm.hosts
        ensures ActiveOn(w, comp, HostOf(k))
      {
        assert w.smap.ComponentOnHost(comp, HostOf(k));
      }
      if comp !in w.mm.components && answer == 0 {
        assert ComponentAllUp(w, comp);
      }
    }
  }

  // ---------- what is shown ----------

  /** The details of a service come in the order of its keys, one for each active one. */
  lemma {:induction false} DetailAt(w: World, keys: seq<string>, i: nat)
    requires AllSplit(keys) && i < |keys| && Active(w, keys[i])
    ensures AllSplit(keys[..i])
    ensures var before, all := Details(w, keys[..i]), Details(w, keys);
            |before| < |all| && all[|before|] ==
              HostCompStatus(HostOf(keys[i]), ComponentOf(keys[i]), HcStatus(w, HostOf(keys[i]), ComponentOf(keys[i])))
    decreases |keys|
  {
    hide HostOf, ComponentOf;
    var n := |keys| - 1;
    if i < n {
      assert keys[..n][..i] == keys[..i];
      DetailAt(w, keys[..n], i);
    }
  }

  lemma {:induction false} DetailCount(w: World, keys: seq<string>)
    requires AllSplit(keys)
    ensures |Details(w, keys)| == |set i | 0 <= i < |keys| && Active(w, keys[i])|
  {
    hide HostOf, ComponentOf;
    var active := set i | 0 <= i < |keys| && Active(w, keys[i]);
    if keys == [] {
      assert active == {};
    } else {
      var n := |keys| - 1;
      DetailCount(w, keys[..n]);
      var init := set i | 0 <= i < n && Active(w, keys[..n][i]);
      assert active == init + if Active(w, keys[n]) then {n} else {};
    }
  }

  /** A client is shown every cluster with a service entry and every host of a cluster. */
  lemma SnapshotHasAll(w: World, id: int)
    requires w.smap.KeysSplit()
    ensures ClusterOf(id) in Snapshot(w) <==> id in w.smap.service
    ensures HostOfId(id) in Snapshot(w) <==> id in w.smap.hostCluster
  {
    hide ClusterStatus, HostStatus, ServiceMaps.KeysSplit;
    var clusters := map cl | cl in w.smap.service :: ClusterStatus(w, cl);
    var hosts := map h | h in w.smap.hostCluster :: HostStatus(w, h);
    assert Snapshot(w) == ClusterTexts(clusters) + HostTexts(hosts);
    assert ClusterOf(id) in ClusterTexts(clusters) <==> id in clusters;
    assert HostOfId(id) in HostTexts(hosts) <==> id in hosts;
  }

  // ---------- what a request stores ----------

  /** A host report stores its status for that host and nothing else; nothing is stored for a host in no
      cluster. */
  lemma HostReportStores(s: Server, h: int, v: int)
    requires s.world.smap.KeysSplit()
    ensures var t := Step(s, SetHost(h, v)).world;
            && SameTopology(s.world, t)
            && (h in s.world.smap.hostCluster ==> HostStatus(t, h) == v)
            && (h !in s.world.smap.hostCluster ==> t == s.world)
            && (forall g :: g != h ==> HostStatus(t, g) == HostStatus(s.world, g))
            && (forall g, c :: HcStatus(t, g, c) == HcStatus(s.world, g, c))
  {
    hide ClusterStatus, ServiceMaps.KeysSplit;
  }

  /** A host-component report likewise; "1.2" is host 1 and component 2. */
  lemma HcReportStores(s: Server, h: int, c: int, v: int, a: int, b: int)
    requires s.world.smap.KeysSplit()
    ensures var t := Step(s, SetHostComp(h, c, v, a, b)).world;
            && SameTopology(s.world, t)
            && (PairKey(h, c) in s.world.smap.hostService ==> HcStatus(t, h, c) == v)
            && (PairKey(h, c) !in s.world.smap.hostService ==> t == s.world)
            && (forall g, d :: g != h || d != c ==> HcStatus(t, g, d) == HcStatus(s.world, g, d))
            && (forall g :: HostStatus(t, g) == HostStatus(s.world, g))
  {
    hide ClusterStatus, ServiceStatus, PairKey, ServiceMaps.KeysSplit;
  }

  /** A status nobody reported reads as 16. */
  lemma NothingReported(smap: ServiceMaps, mm: MMObjectsData, hostTimeout: int, hcTimeout: int)
    ensures var w := EmptyServer(smap, mm, hostTimeout, hcTimeout).world;
            && (forall h :: HostStatus(w, h) == 16)
            && (forall h, c :: HcStatus(w, h, c) == 16)
  {
  }

  /** The component message of a report: sent exactly when the number differs from the one that was saved
      with this host-component, and never about another component. */
  lemma ComponentNews(s: Server, h: int, c: int, hc: ClusterService, seen: int, other: int)
    requires s.world.smap.KeysSplit()
    ensures LastAbout(CheckHcStep(s, h, c, hc, seen).log[|s.log|..], "update_component", other) ==
            if other == c && seen != Read(s.saved, HcEventKey(h, c)).component
            then Some(if seen == 0 then "up" else "down") else None
  {
    hide ClusterStatus, ServiceStatus, HcEventKey, ClusterEventKey, ServiceMaps.KeysSplit, LastAbout, Announce;
    var old_, new_ := Read(s.saved, HcEventKey(h, c)), HcHolder(s.world, h, c, hc, seen);
    var oldCluster := Read(s.saved, ClusterEventKey(hc.cluster)).cluster;
    var x := Announce("component", c, old_.component, new_.component);
    var y := Announce("service", hc.service, old_.service, new_.service);
    var z := Announce("cluster", hc.cluster, oldCluster, new_.cluster);
    assert CheckHcStep(s, h, c, hc, seen).log[|s.log|..] == x + y + z;
    assert "update_component" == "update_" + "component";
    LastAboutAppend(x + y, z, "update_component", other);
    LastAboutAppend(x, y, "update_component", other);
    AnnounceNews("component", c, old_.component, new_.component, "component", other);
    AnnounceNews("service", hc.service, old_.service, new_.service, "component", other);
    AnnounceNews("cluster", hc.cluster, oldCluster, new_.cluster, "component", other);
    assert "service"[0] != "component"[0] && "cluster"[1] != "component"[1];
  }
}
