/** When service events can be trusted over whole runs: exactly when timers are off or the service
    has at most one host-component outside maintenance mode. */
module ServiceRuns {
  import opened Common
  import opened Keys
  import opened Topology
  import opened StatusStorage
  import opened Aggregation
  import opened StatusEvents
  import opened ServiceEvents

  lemma ExecStep(s: Server, inputs: seq<Input>, input: Input)
    requires Coherent(s)
    ensures Exec(s, inputs + [input]) == Step(Exec(s, inputs), input)
  {
    assert (inputs + [input])[..|inputs|] == inputs;
  }

  lemma {:induction false} ExecAppend(s: Server, a: seq<Input>, b: seq<Input>)
    requires Coherent(s)
    ensures Exec(s, a + b) == Exec(Exec(s, a), b)
    decreases |b|
  {
    if b == [] {
      assert a + b == a;
    } else {
      ExecAppend(s, a, b[..|b| - 1]);
      assert (a + b)[..|a + b| - 1] == a + b[..|b| - 1];
    }
  }

  lemma ExecOne(s: Server, input: Input)
    requires Coherent(s)
    ensures Exec(s, [input]) == Step(s, input)
  {
    ExecStep(s, [], input);
    assert [] + [input] == [input] && Exec(s, []) == s;
  }

  lemma ServiceNewsCompose(s: Server, m: Server, t: Server, cluster: int, service: int)
    requires s.world.smap.KeysSplit() && m.world.smap.KeysSplit() && t.world.smap.KeysSplit()
    requires s.log <= m.log <= t.log
    requires ServiceStepExact(s, m, cluster, service) && ServiceStepExact(m, t, cluster, service)
    ensures ServiceStepExact(s, t, cluster, service)
  {
    hide ServiceStatus;
    LastAboutAppend(m.log[|s.log|..], t.log[|m.log|..], "update_service", service);
    assert t.log[|s.log|..] == m.log[|s.log|..] + t.log[|m.log|..];
  }

  // ---------- runs the server can really take ----------

  lemma AnswerExists(w: World, comp: int)
    requires w.smap.KeysSplit()
    ensures exists status :: ComponentAnswer(w, comp, status)
  {
    if Placed(w, comp) && comp !in w.mm.components && !ComponentAllUp(w, comp) {
      var h :| ActiveOn(w, comp, h) && HcStatus(w, h, comp) != 0;
      assert ComponentAnswer(w, comp, HcStatus(w, h, comp));
    } else {
      assert ComponentAnswer(w, comp, if Placed(w, comp) then 0 else NOTHING_TO_SHOW);
    }
  }

  ghost function SomeAnswer(w: World, comp: int): (status: int)
    requires w.smap.KeysSplit()
    ensures ComponentAnswer(w, comp, status)
  {
    AnswerExists(w, comp);
    var status :| ComponentAnswer(w, comp, status);
    status
  }

  /** The component numbers in an input are answers the query may give in the worlds it is asked. */
  ghost predicate Admissible(s: Server, input: Input)
    requires s.world.smap.KeysSplit()
  {
    match input
    case SetHostComp(h, c, v, a, b) =>
      PairKey(h, c) in s.world.smap.hostService ==>
        ComponentAnswer(s.world, c, a) && ComponentAnswer(AfterReport(s.world, h, c, v), c, b)
    case HcTimer(start, seen) =>
      start in s.world.hcs.pending ==>
        ComponentAnswer(s.world.(hcs := ExpireStore(s.world.hcs, start)), s.world.hcs.pending[start].key2, seen)
    case _ => true
  }

  function AfterReport(w: World, h: int, c: int, v: int): World
    requires PairKey(h, c) in w.smap.hostService
  {
    w.(hcs := PutStore(w.hcs, h, c, v, CheckHc(h, c, w.smap.hostService[PairKey(h, c)])))
  }

  ghost predicate AdmissibleRun(s: Server, inputs: seq<Input>)
    requires Coherent(s)
    decreases |inputs|
  {
    inputs != [] ==>
      && AdmissibleRun(s, inputs[..|inputs| - 1])
      && Admissible(Exec(s, inputs[..|inputs| - 1]), inputs[|inputs| - 1])
  }

  lemma AdmissibleAppend(s: Server, inputs: seq<Input>, input: Input)
    requires Coherent(s) && AdmissibleRun(s, inputs) && Admissible(Exec(s, inputs), input)
    ensures AdmissibleRun(s, inputs + [input])
  {
    assert (inputs + [input])[..|inputs|] == inputs;
  }

  lemma {:induction false} AdmissibleConcat(s: Server, a: seq<Input>, b: seq<Input>)
    requires Coherent(s) && AdmissibleRun(s, a) && AdmissibleRun(Exec(s, a), b)
    ensures AdmissibleRun(s, a + b)
    decreases |b|
  {
    hide Step, Admissible, SavedFresh, TimersOk, ServiceMaps.WellFormed;
    if b == [] {
      assert a + b == a;
    } else {
      var init := b[..|b| - 1];
      AdmissibleConcat(s, a, init);
      ExecAppend(s, a, init);
      AdmissibleAppend(s, a + init, b[|b| - 1]);
      assert a + b == a + init + [b[|b| - 1]];
    }
  }

  // ---------- reliable services ----------

  ghost predicate Reliable(s: Server, cluster: int, service: int)
    requires s.world.smap.KeysSplit()
  {
    || (s.world.hcs.timeout == 0 && s.world.hcs.pending == map[])
    || (SoleActive(s.world, cluster, service) && ServiceFresh(s.world, s.saved, cluster, service))
  }

  lemma TimersOffStep(s: Server, input: Input, cluster: int, service: int)
    requires Coherent(s) && OwnsServiceId(s.world.smap, cluster, service)
    requires input.SetHostComp? || input.HcTimer?
    requires s.world.hcs.timeout == 0 && s.world.hcs.pending == map[]
    ensures StepGood(s, Step(s, input))
    ensures Step(s, input).world.hcs.timeout == 0 && Step(s, input).world.hcs.pending == map[]
    ensures ServiceStepExact(s, Step(s, input), cluster, service)
  {
    EveryStepGood(s, input);
    if input.SetHostComp? {
      SetHostCompServiceExact(s, input, cluster, service);
    } else {
      NoServiceNews(s, cluster, service);
    }
  }

  lemma SoleActiveFrame(v: World, w: World, cluster: int, service: int)
    requires v.smap.KeysSplit() && SameTopology(v, w)
    ensures SoleActive(v, cluster, service) <==> SoleActive(w, cluster, service)
  {
    hide HostOf, ComponentOf;
  }

  lemma ReliableStep(s: Server, input: Input, cluster: int, service: int)
    requires Coherent(s) && OwnsServiceId(s.world.smap, cluster, service) && Reliable(s, cluster, service)
    ensures StepGood(s, Step(s, input))
    ensures Reliable(Step(s, input), cluster, service)
    ensures ServiceStepExact(s, Step(s, input), cluster, service)
  {
    hide ServiceFresh, Step, Announced, ServiceNewsExact, SavedFresh, TimersOk, SoleActive;
    hide ServiceMaps.KeysSplit, ServiceMaps.HostsConsistent, ServiceMaps.ListedConsistent, OwnsServiceId;
    EveryStepGood(s, input);
    SoleActiveFrame(s.world, Step(s, input).world, cluster, service);
    if input.SetHost? || input.HostTimer? {
      HostInputsKeepService(s, input, cluster, service);
    } else if s.world.hcs.timeout == 0 && s.world.hcs.pending == map[] {
      TimersOffStep(s, input, cluster, service);
    } else if input.SetHostComp? {
      SetHostCompServiceExact(s, input, cluster, service);
      SetHostCompKeepsServiceFresh(s, input, cluster, service);
    } else {
      HcTimerServiceExact(s, input, cluster, service);
    }
  }

  lemma {:induction false} ReliableRun(s: Server, inputs: seq<Input>, cluster: int, service: int)
    requires Coherent(s) && OwnsServiceId(s.world.smap, cluster, service) && Reliable(s, cluster, service)
    ensures Reliable(Exec(s, inputs), cluster, service)
    ensures ServiceStepExact(s, Exec(s, inputs), cluster, service)
    decreases |inputs|
  {
    hide SavedFresh, TimersOk, ServiceFresh, ServiceStatus, Step, ServiceNewsExact, SoleActive;
    if inputs == [] {
      NoServiceNews(s, cluster, service);
    } else {
      var init := inputs[..|inputs| - 1];
      var m := Exec(s, init);
      ReliableRun(s, init, cluster, service);
      ReliableStep(m, inputs[|inputs| - 1], cluster, service);
      ServiceNewsCompose(s, m, Exec(s, inputs), cluster, service);
    }
  }

  lemma NoServiceNews(s: Server, cluster: int, service: int)
    requires s.world.smap.KeysSplit()
    ensures ServiceStepExact(s, s, cluster, service)
  {
    assert s.log[|s.log|..] == [];
  }

  // ---------- a misleading run ----------

  /** A component reports up on its host; `a` and `b` are the component numbers seen on the way. */
  function ReportUp(key: string, a: int, b: int): Input
    requires '.' in key
  {
    SetHostComp(HostOf(key), ComponentOf(key), 0, a, b)
  }

  /** The same with component numbers that the server could have computed in state `s`. */
  ghost function RealReportUp(s: Server, key: string): (input: Input)
    requires s.world.smap.KeysSplit() && '.' in key
    ensures Admissible(s, input)
    ensures exists a, b :: input == ReportUp(key, a, b)
  {
    var a := SomeAnswer(s.world, ComponentOf(key));
    var b :=
      if PairKey(HostOf(key), ComponentOf(key)) in s.world.smap.hostService
      then SomeAnswer(AfterReport(s.world, HostOf(key), ComponentOf(key), 0), ComponentOf(key))
      else 0;
    ReportUp(key, a, b)
  }

  ghost function ReportAllUp(s: Server, keys: seq<string>, except: string): (inputs: seq<Input>)
    requires Coherent(s) && AllSplit(keys)
    ensures AdmissibleRun(s, inputs)
  {
    if keys == [] then []
    else
      var key := keys[|keys| - 1];
      var init := ReportAllUp(s, keys[..|keys| - 1], except);
      if key == except then init
      else
        var input := RealReportUp(Exec(s, init), key);
        AdmissibleAppend(s, init, input);
        init + [input]
  }

  /** Every report says "up" or is missing. */
  ghost predicate UpOrMissing(w: World) {
    forall h, c :: HcStatus(w, h, c) == 0 || HcStatus(w, h, c) == NO_STATUS
  }

  lemma ServiceUpOrMissing(w: World, cluster: int, service: int)
    requires w.smap.KeysSplit() && UpOrMissing(w)
    ensures ServiceStatus(w, cluster, service) == if ServiceAllUp(w, cluster, service) then 0 else NO_STATUS
  {
    ServiceStatusMeaning(w, cluster, service);
    var details := Details(w, w.smap.ServiceHC(cluster, service));
    DetailsMeaning(w, w.smap.ServiceHC(cluster, service));
    LastNonZeroMeaning(StatusesOf(details));
    if ServiceStatus(w, cluster, service) != 0 {
      var i :| 0 <= i < |details| && StatusesOf(details)[i] == ServiceStatus(w, cluster, service);
      assert details[i] in details;
    }
  }

  /** The first reporter's timer still sleeps, its entry is the one that timer will clear, and the
      service number kept for it is the one from when it was alone. */
  ghost predicate FirstReporterWaits(s: Server, first: string)
    requires '.' in first
  {
    var h, c := HostOf(first), ComponentOf(first);
    && s.world.hcs.timeout != 0
    && UpOrMissing(s.world)
    && Lookup(s.world.hcs.db, h, c) == Some(Status(0, 0))
    && 0 in s.world.hcs.pending
    && s.world.hcs.pending[0].key1 == h && s.world.hcs.pending[0].key2 == c && s.world.hcs.pending[0].counter == 0
    && s.world.hcs.served > 0
    && HcEventKey(h, c) in s.saved && s.saved[HcEventKey(h, c)].service == NO_STATUS
  }

  /** What an "up" report does to the stored statuses. */
  lemma ReportUpEffect(s: Server, key: string, a: int, b: int)
    requires Coherent(s) && '.' in key && key in s.world.smap.hostService
             && key == PairKey(HostOf(key), ComponentOf(key))
    ensures var t := Step(s, ReportUp(key, a, b));
            var hc := s.world.smap.hostService[key];
            && t.world.hcs == PutStore(s.world.hcs, HostOf(key), ComponentOf(key), 0,
                                       CheckHc(HostOf(key), ComponentOf(key), hc))
            && HcStatus(t.world, HostOf(key), ComponentOf(key)) == 0
            && (forall h, c :: HcStatus(t.world, h, c) == HcStatus(s.world, h, c) || HcStatus(t.world, h, c) == 0)
            && (forall h, c :: h != HostOf(key) || c != ComponentOf(key) ==>
                 Lookup(t.world.hcs.db, h, c) == Lookup(s.world.hcs.db, h, c))
            && (forall k :: k in t.saved ==> || k == HcEventKey(HostOf(key), ComponentOf(key))
                                             || k == ClusterEventKey(hc.cluster)
                                             || (k in s.saved && t.saved[k] == s.saved[k]))
            && (forall k :: k in s.saved ==> k in t.saved)
            && HcEventKey(HostOf(key), ComponentOf(key)) in t.saved
            && t.saved[HcEventKey(HostOf(key), ComponentOf(key))].service ==
               ServiceStatus(t.world, hc.cluster, hc.service)
  {
    hide HcEventKey, HostEventKey, ClusterEventKey, ClusterStatus, ServiceStatus, HostOf, ComponentOf, PairKey;
    var hc := s.world.smap.hostService[key];
    EventKeysDistinct(HostOf(key), ComponentOf(key), hc.cluster, 0);
    var t := Step(s, ReportUp(key, a, b));
    assert forall h, c :: h != HostOf(key) || c != ComponentOf(key) ==>
                 Lookup(t.world.hcs.db, h, c) == Lookup(s.world.hcs.db, h, c);
  }

  lemma ReportKeepsWaiting(s: Server, first: string, key: string, a: int, b: int, cluster: int, service: int)
    requires Coherent(s) && '.' in first && FirstReporterWaits(s, first)
    requires key in s.world.smap.ServiceHC(cluster, service) && first in s.world.smap.ServiceHC(cluster, service)
    requires key != first
    ensures FirstReporterWaits(Step(s, ReportUp(key, a, b)), first)
    ensures HcStatus(Step(s, ReportUp(key, a, b)).world, HostOf(key), ComponentOf(key)) == 0
    ensures forall h, c :: HcStatus(s.world, h, c) == 0 ==> HcStatus(Step(s, ReportUp(key, a, b)).world, h, c) == 0
  {
    hide HcEventKey, HostEventKey, ClusterEventKey, ServiceStatus, HostOf, ComponentOf, PairKey, Step, HcStatus;
    assert key == PairKey(HostOf(key), ComponentOf(key)) && first == PairKey(HostOf(first), ComponentOf(first));
    ReportUpEffect(s, key, a, b);
    EventKeysDistinct(HostOf(first), ComponentOf(first), HostOf(key), ComponentOf(key));
    EventKeysDistinct(HostOf(first), ComponentOf(first), s.world.smap.hostService[key].cluster, 0);
  }

  lemma WaitingIsUp(s: Server, first: string)
    requires '.' in first && FirstReporterWaits(s, first)
    ensures UpOrMissing(s.world) && HcStatus(s.world, HostOf(first), ComponentOf(first)) == 0
  {
  }

  lemma {:induction false} ReportsKeepWaiting(s: Server, first: string, keys: seq<string>, cluster: int, service: int)
    requires Coherent(s) && '.' in first && FirstReporterWaits(s, first)
    requires AllSplit(keys) && forall key :: key in keys ==> key in s.world.smap.ServiceHC(cluster, service)
    requires first in s.world.smap.ServiceHC(cluster, service)
    ensures FirstReporterWaits(Exec(s, ReportAllUp(s, keys, first)), first)
    ensures forall key :: key in keys ==>
            HcStatus(Exec(s, ReportAllUp(s, keys, first)).world, HostOf(key), ComponentOf(key)) == 0
  {
    hide Step, HostOf, ComponentOf, HcEventKey, FirstReporterWaits, SavedFresh, TimersOk, HcStatus;
    hide ServiceMaps.KeysSplit, ServiceMaps.HostsConsistent, ServiceMaps.ListedConsistent, ServiceMaps.ServiceHC;
    if keys == [] {
    } else {
      var init, key := keys[..|keys| - 1], keys[|keys| - 1];
      assert keys == init + [key];
      assert forall k :: k in keys <==> k in init || k == key;
      ReportsKeepWaiting(s, first, init, cluster, service);
      var m := Exec(s, ReportAllUp(s, init, first));
      if key != first {
        var input := RealReportUp(m, key);
        var a, b :| input == ReportUp(key, a, b);
        ReportKeepsWaiting(m, first, key, a, b, cluster, service);
        ExecStep(s, ReportAllUp(s, init, first), input);
      } else {
        WaitingIsUp(m, first);
      }
    }
  }

  lemma {:induction false} ReportsAreSets(s: Server, keys: seq<string>, first: string)
    requires Coherent(s) && AllSplit(keys)
    ensures forall i :: 0 <= i < |ReportAllUp(s, keys, first)| ==> ReportAllUp(s, keys, first)[i].SetHostComp?
  {
    if keys != [] {
      ReportsAreSets(s, keys[..|keys| - 1], first);
    }
  }

  lemma {:induction false} SetsServiceExact(s: Server, inputs: seq<Input>, cluster: int, service: int)
    requires Coherent(s) && OwnsServiceId(s.world.smap, cluster, service)
    requires forall i :: 0 <= i < |inputs| ==> inputs[i].SetHostComp?
    ensures ServiceStepExact(s, Exec(s, inputs), cluster, service)
    decreases |inputs|
  {
    hide SavedFresh, TimersOk, ServiceStatus, Step, ServiceNewsExact;
    if inputs == [] {
      NoServiceNews(s, cluster, service);
    } else {
      var init := inputs[..|inputs| - 1];
      SetsServiceExact(s, init, cluster, service);
      SetHostCompServiceExact(Exec(s, init), inputs[|inputs| - 1], cluster, service);
      ServiceNewsCompose(s, Exec(s, init), Exec(s, inputs), cluster, service);
    }
  }

  lemma FirstReport(e: Server, first: string, second: string, a: int, b: int, cluster: int, service: int)
    requires Coherent(e) && e == EmptyServer(e.world.smap, e.world.mm, e.world.hosts.timeout, e.world.hcs.timeout)
    requires e.world.hcs.timeout != 0
    requires first in e.world.smap.ServiceHC(cluster, service) && second in e.world.smap.ServiceHC(cluster, service)
    requires first != second && !Skipped(e.world, second)
    ensures FirstReporterWaits(Step(e, ReportUp(first, a, b)), first)
  {
    hide HcEventKey, HostEventKey, ClusterEventKey, ServiceStatus, HostOf, ComponentOf, PairKey, Step;
    assert first == PairKey(HostOf(first), ComponentOf(first))
           && second == PairKey(HostOf(second), ComponentOf(second));
    assert e.world.smap.hostService[first] == ClusterService(cluster, service);
    var t := Step(e, ReportUp(first, a, b));
    EveryStepGood(e, ReportUp(first, a, b));
    ReportUpEffect(e, first, a, b);
    assert UpOrMissing(t.world) by {
      assert forall h, c :: HcStatus(e.world, h, c) == NO_STATUS;
    }
    assert HcStatus(t.world, HostOf(second), ComponentOf(second)) == NO_STATUS;
    ServiceUpOrMissing(t.world, cluster, service);
  }

  /** The first reporter falls silent: the service is down, and nobody is told. */
  lemma SilentExpiry(m: Server, first: string, seen: int, cluster: int, service: int)
    requires Coherent(m) && '.' in first && FirstReporterWaits(m, first)
    requires first in m.world.smap.ServiceHC(cluster, service) && !Skipped(m.world, first)
    ensures StepGood(m, Step(m, HcTimer(0, seen)))
    ensures LastAbout(Step(m, HcTimer(0, seen)).log[|m.log|..], "update_service", service) == None
    ensures ServiceStatus(Step(m, HcTimer(0, seen)).world, cluster, service) == NO_STATUS
  {
    hide HcEventKey, HostEventKey, ClusterEventKey, ClusterStatus, ServiceStatus, Details, HostOf, ComponentOf, PairKey;
    EveryStepGood(m, HcTimer(0, seen));
    var t := Step(m, HcTimer(0, seen));
    assert first == PairKey(HostOf(first), ComponentOf(first));
    assert HcTimerOk(m.world.smap, m.saved, m.world.hcs.pending[0]);
    var hc := m.world.smap.hostService[first];
    var s1 := m.(world := t.world);
    assert t == CheckHcStep(s1, HostOf(first), ComponentOf(first), hc, seen);
    assert t.log[|m.log|..] == HcEvents(s1, HostOf(first), ComponentOf(first), hc, seen);
    assert HcStatus(t.world, HostOf(first), ComponentOf(first)) == NO_STATUS;
    assert UpOrMissing(t.world) by {
      assert forall h, c :: h != HostOf(first) || c != ComponentOf(first) ==>
             HcStatus(t.world, h, c) == HcStatus(m.world, h, c);
    }
    ServiceUpOrMissing(t.world, cluster, service);
    HcEventsAboutService(s1, HostOf(first), ComponentOf(first), hc, seen, service);
  }

  /** The run: the first component reports up, then every other one does, then the first one's timer
      fires. */
  ghost function FirstInput(e: Server, first: string): (inputs: seq<Input>)
    requires Coherent(e) && '.' in first
    ensures AdmissibleRun(e, inputs) && |inputs| == 1 && exists a, b :: inputs == [ReportUp(first, a, b)]
  {
    var input := RealReportUp(e, first);
    AdmissibleAppend(e, [], input);
    assert [] + [input] == [input] && Exec(e, []) == e;
    [input]
  }

  ghost function UpToExpiry(e: Server, keys: seq<string>, first: string): (inputs: seq<Input>)
    requires Coherent(e) && AllSplit(keys) && '.' in first
    ensures AdmissibleRun(e, inputs)
  {
    var s := Exec(e, FirstInput(e, first));
    AdmissibleConcat(e, FirstInput(e, first), ReportAllUp(s, keys, first));
    FirstInput(e, first) + ReportAllUp(s, keys, first)
  }

  /** Once everyone has reported, the service went from down to up, and said so. */
  lemma EveryoneReported(e: Server, first: string, second: string, cluster: int, service: int) returns (m: Server)
    requires Coherent(e) && e == EmptyServer(e.world.smap, e.world.mm, e.world.hosts.timeout, e.world.hcs.timeout)
    requires e.world.hcs.timeout != 0 && OwnsServiceId(e.world.smap, cluster, service)
    requires first in e.world.smap.ServiceHC(cluster, service) && second in e.world.smap.ServiceHC(cluster, service)
    requires first != second && !Skipped(e.world, first) && !Skipped(e.world, second)
    ensures m == Exec(e, UpToExpiry(e, e.world.smap.ServiceHC(cluster, service), first))
    ensures FirstReporterWaits(m, first)
    ensures ServiceStatus(m.world, cluster, service) == 0
    ensures ServiceStepExact(e, m, cluster, service)
  {
    hide SavedFresh, TimersOk, Step, Exec, HostOf, ComponentOf, ServiceStatus, HcStatus, ServiceNewsExact;
    hide FirstReporterWaits, UpOrMissing, ReportAllUp, RealReportUp, Admissible, AdmissibleRun;
    hide ServiceMaps.HostsConsistent, ServiceMaps.ListedConsistent;
    var keys := e.world.smap.ServiceHC(cluster, service);
    var a, b :| FirstInput(e, first) == [ReportUp(first, a, b)];
    ExecOne(e, ReportUp(first, a, b));
    var s1 := Exec(e, FirstInput(e, first));
    FirstReport(e, first, second, a, b, cluster, service);
    ExecAppend(e, FirstInput(e, first), ReportAllUp(s1, keys, first));
    m := Exec(e, UpToExpiry(e, keys, first));
    ReportsKeepWaiting(s1, first, keys, cluster, service);
    WaitingIsUp(m, first);
    ServiceUpOrMissing(m.world, cluster, service);
    ReportsAreSets(s1, keys, first);
    SetsServiceExact(e, UpToExpiry(e, keys, first), cluster, service);
  }

  lemma EmptyServiceDown(e: Server, key: string, cluster: int, service: int)
    requires Coherent(e) && e == EmptyServer(e.world.smap, e.world.mm, e.world.hosts.timeout, e.world.hcs.timeout)
    requires key in e.world.smap.ServiceHC(cluster, service) && !Skipped(e.world, key)
    ensures ServiceStatus(e.world, cluster, service) == NO_STATUS
  {
    ServiceUpOrMissing(e.world, cluster, service);
  }

  lemma MisleadingRun(e: Server, first: string, second: string, cluster: int, service: int) returns (inputs: seq<Input>)
    requires Coherent(e) && e == EmptyServer(e.world.smap, e.world.mm, e.world.hosts.timeout, e.world.hcs.timeout)
    requires e.world.hcs.timeout != 0 && OwnsServiceId(e.world.smap, cluster, service)
    requires first in e.world.smap.ServiceHC(cluster, service) && second in e.world.smap.ServiceHC(cluster, service)
    requires first != second && !Skipped(e.world, first) && !Skipped(e.world, second)
    ensures AdmissibleRun(e, inputs) && !ServiceStepExact(e, Exec(e, inputs), cluster, service)
  {
    hide SavedFresh, TimersOk, Step, HcEventKey, HostOf, ComponentOf, ServiceStatus, FirstReporterWaits, Exec,
         ComponentAnswer;
    hide ServiceMaps.HostsConsistent, ServiceMaps.ListedConsistent, AdmissibleRun, UpToExpiry;
    var sets := UpToExpiry(e, e.world.smap.ServiceHC(cluster, service), first);
    var m := EveryoneReported(e, first, second, cluster, service);
    EmptyServiceDown(e, first, cluster, service);
    var last := RealTimer(m);
    SilentExpiry(m, first, last.seen, cluster, service);
    AdmissibleAppend(e, sets, last);
    ExecStep(e, sets, last);
    inputs := sets + [last];
    var t := Exec(e, inputs);
    LastAboutAppend(m.log[|e.log|..], t.log[|m.log|..], "update_service", service);
    assert t.log[|e.log|..] == m.log[|e.log|..] + t.log[|m.log|..];
  }

  ghost function RealTimer(m: Server): (input: Input)
    requires m.world.smap.KeysSplit()
    ensures input.HcTimer? && input == HcTimer(0, input.seen) && Admissible(m, input)
  {
    if 0 in m.world.hcs.pending
    then HcTimer(0, SomeAnswer(m.world.(hcs := ExpireStore(m.world.hcs, 0)), m.world.hcs.pending[0].key2))
    else HcTimer(0, 0)
  }

  /** Service events are right in every run from an empty server exactly when host-component timers
      are off or the service has at most one host-component outside maintenance mode. */
  lemma ServiceEventsReliableIff(smap: ServiceMaps, mm: MMObjectsData, hostTimeout: int, hcTimeout: int,
                                 cluster: int, service: int)
    requires smap.WellFormed() && OwnsServiceId(smap, cluster, service)
    ensures var e := EmptyServer(smap, mm, hostTimeout, hcTimeout);
            Coherent(e) &&
            ((forall inputs :: AdmissibleRun(e, inputs) ==> ServiceStepExact(e, Exec(e, inputs), cluster, service)) <==>
             hcTimeout == 0 || SoleActive(e.world, cluster, service))
  {
    hide PairKey, HostOf, ComponentOf, HcEventKey, ServiceStatus, ClusterStatus, Step;
    var e := EmptyServer(smap, mm, hostTimeout, hcTimeout);
    EmptyServerCoherent(smap, mm, hostTimeout, hcTimeout);
    if hcTimeout == 0 || SoleActive(e.world, cluster, service) {
      forall inputs | AdmissibleRun(e, inputs) ensures ServiceStepExact(e, Exec(e, inputs), cluster, service) {
        ReliableRun(e, inputs, cluster, service);
      }
    } else {
      var keys := smap.ServiceHC(cluster, service);
      var k1, k2 :| k1 in keys && k2 in keys && !Skipped(e.world, k1) && !Skipped(e.world, k2) && k1 != k2;
      var inputs := MisleadingRun(e, k1, k2, cluster, service);
    }
  }
}
