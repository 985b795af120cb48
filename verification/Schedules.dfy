/** Orders of interleaved parts that keep a client right, told without reading the final table, and one
    that does not: a save between a change and its check hides the change. */
module Schedules {
  import opened Common
  import opened Keys
  import opened Topology
  import opened StatusStorage
  import opened Aggregation
  import opened StatusEvents
  import opened Interleaving

  // ---------- what a part can reach ----------

  predicate TouchedBy(part: Part, o: Subject) {
    (part.Save? || part.Check?) && Touches(part.who, o)
  }

  predicate HostReaches(smap: ServiceMaps, h: int, o: Subject) {
    o == HostOfId(h) || (o.ClusterOf? && h in smap.Hosts(o.cluster))
  }

  ghost predicate HcReaches(smap: ServiceMaps, h: int, c: int, o: Subject)
    requires smap.KeysSplit()
  {
    o.ClusterOf? && exists sv, key :: key in smap.ServiceHC(o.cluster, sv) && HostOf(key) == h && ComponentOf(key) == c
  }

  /** The part writes or clears a status that the object depends on. */
  ghost predicate Reaches(s: Server, part: Part, o: Subject)
    requires s.world.smap.KeysSplit()
  {
    match part
    case PutHost(h, _, _) => HostReaches(s.world.smap, h, o)
    case PutHc(h, c, _, _) => HcReaches(s.world.smap, h, c, o)
    case HostExpires(start) =>
      start in s.world.hosts.pending && HostReaches(s.world.smap, s.world.hosts.pending[start].key2, o)
    case HcExpires(start) =>
      start in s.world.hcs.pending
      && HcReaches(s.world.smap, s.world.hcs.pending[start].key1, s.world.hcs.pending[start].key2, o)
    case _ => false
  }

  lemma HostFrame(v: World, w: World, h: int, o: Subject)
    requires v.smap.KeysSplit() && SameTopology(v, w) && v.hcs.db == w.hcs.db && !HostReaches(v.smap, h, o)
    requires forall g :: g != h ==> HostStatus(v, g) == HostStatus(w, g)
    ensures CurrentStatus(v, o) == CurrentStatus(w, o)
  {
    if o.ClusterOf? {
      assert SameHostsOf(v, w, o.cluster);
      assert forall sv :: SameHcsOf(v, w, o.cluster, sv);
      ClusterStatusFrame(v, w, o.cluster);
    }
  }

  lemma HcFrame(v: World, w: World, h: int, c: int, o: Subject)
    requires v.smap.KeysSplit() && SameTopology(v, w) && v.hosts.db == w.hosts.db && !HcReaches(v.smap, h, c, o)
    requires forall g, d :: g != h || d != c ==> HcStatus(v, g, d) == HcStatus(w, g, d)
    ensures CurrentStatus(v, o) == CurrentStatus(w, o)
  {
    if o.ClusterOf? {
      hide HostOf, ComponentOf, ClusterStatus;
      assert SameHostsOf(v, w, o.cluster);
      forall sv ensures SameHcsOf(v, w, o.cluster, sv) {
      }
      ClusterStatusFrame(v, w, o.cluster);
    }
  }

  /** What a part does not reach does not move; only saves and checks write the table. */
  lemma PartFrame(s: Server, part: Part, o: Subject)
    requires s.world.smap.KeysSplit()
    ensures !Reaches(s, part, o) ==> CurrentStatus(Play(s, part).world, o) == CurrentStatus(s.world, o)
    ensures !TouchedBy(part, o) ==>
              && Slot(Play(s, part).saved, o) == Slot(s.saved, o)
              && HasSlot(Play(s, part).saved, o) == HasSlot(s.saved, o)
              && LastNews(Play(s, part).log[|s.log|..], o) == None
  {
    hide ClusterStatus, ServiceStatus, LastAbout, HostReaches, HcReaches, CurrentStatus, ServiceMaps.KeysSplit;
    match part
    case PutHost(h, v, f) =>
      NothingNew(s, o);
      if !Reaches(s, part, o) {
        HostFrame(s.world, Play(s, part).world, h, o);
      }
    case PutHc(h, c, v, f) =>
      NothingNew(s, o);
      if !Reaches(s, part, o) {
        HcFrame(s.world, Play(s, part).world, h, c, o);
      }
    case HostExpires(start) =>
      NothingNew(s, o);
      if start in s.world.hosts.pending && !Reaches(s, part, o) {
        HostFrame(s.world, Play(s, part).world, s.world.hosts.pending[start].key2, o);
      }
    case HcExpires(start) =>
      NothingNew(s, o);
      if start in s.world.hcs.pending && !Reaches(s, part, o) {
        var r := s.world.hcs.pending[start];
        HcFrame(s.world, Play(s, part).world, r.key1, r.key2, o);
      }
    case Save(who, seen) =>
      SaveIsSilent(s, who, seen, o);
      SaveLeaves(s, who, seen, o);
    case Check(who, seen) =>
      CheckMentions(s, who, seen, o);
      SaveLeaves(s, who, seen, o);
  }

  /** Something was saved for the object. */
  predicate HasSlot(saved: SavedStatuses, o: Subject) {
    match o
    case ClusterOf(cl) => ClusterEventKey(cl) in saved
    case HostOfId(h) => HostEventKey(h) in saved
  }

  lemma SaveLeaves(s: Server, who: ClearFunc, seen: int, o: Subject)
    requires s.world.smap.KeysSplit()
    ensures SaveFor(s, who, seen).world == s.world
    ensures Slot(SaveFor(s, who, seen).saved, o) ==
            if Touches(who, o) then CurrentStatus(s.world, o) else Slot(s.saved, o)
    ensures HasSlot(SaveFor(s, who, seen).saved, o) <==> HasSlot(s.saved, o) || Touches(who, o)
  {
    SaveWrites(s, who, seen, o);
    hide ClusterStatus, ServiceStatus, HcStatus, ClusterEventKey, HostEventKey, HcEventKey, ServiceMaps.KeysSplit, Slot,
         CurrentStatus;
    match who
    case CheckHost(h, cl) =>
      EventKeysDistinct(IdOf(o), 0, h, 0);
      EventKeysDistinct(IdOf(o), 0, cl, 0);
      EventKeysDistinct(h, 0, IdOf(o), 0);
      EventKeysDistinct(cl, 0, IdOf(o), 0);
    case CheckHc(h, c, hc) =>
      EventKeysDistinct(h, c, IdOf(o), 0);
      EventKeysDistinct(IdOf(o), 0, hc.cluster, 0);
  }

  // ---------- settled moments ----------

  /** Nothing reached the object since it was last saved or checked; at the start, what is saved for it,
      if anything, is its status. */
  ghost predicate Settled(s: Server, parts: seq<Part>, o: Subject)
    requires s.world.smap.KeysSplit()
  {
    if parts == [] then HasSlot(s.saved, o) ==> !Stale(s, o)
    else
      var init, part := parts[..|parts| - 1], parts[|parts| - 1];
      TouchedBy(part, o) || (Settled(s, init, o) && !Reaches(PlayAll(s, init), part, o))
  }

  /** Something was saved for the object at the start, or by one of the parts. */
  ghost predicate Seen(s: Server, parts: seq<Part>, o: Subject) {
    HasSlot(s.saved, o) || exists part :: part in parts && TouchedBy(part, o)
  }

  lemma {:induction false} SeenHasSlot(s: Server, parts: seq<Part>, o: Subject)
    requires s.world.smap.KeysSplit()
    ensures HasSlot(PlayAll(s, parts).saved, o) <==> Seen(s, parts, o)
  {
    hide Play, HasSlot, TouchedBy, ServiceMaps.KeysSplit;
    if parts != [] {
      var init, part := parts[..|parts| - 1], parts[|parts| - 1];
      assert parts == init + [part];
      SeenHasSlot(s, init, o);
      PartSlot(PlayAll(s, init), part, o);
    }
  }

  lemma PartSlot(s: Server, part: Part, o: Subject)
    requires s.world.smap.KeysSplit()
    ensures HasSlot(Play(s, part).saved, o) <==> HasSlot(s.saved, o) || TouchedBy(part, o)
    ensures TouchedBy(part, o) ==>
              Play(s, part).world == s.world && Slot(Play(s, part).saved, o) == CurrentStatus(s.world, o)
  {
    PartFrame(s, part, o);
    hide Slot, HasSlot, CurrentStatus, Touches, Reaches, ServiceMaps.KeysSplit;
    match part
    case Save(who, seen) => SaveLeaves(s, who, seen, o);
    case Check(who, seen) =>
      SaveLeaves(s, who, seen, o);
      CheckMentions(s, who, seen, o);
    case _ =>
  }

  lemma {:induction false} SettledIsCurrent(s: Server, parts: seq<Part>, o: Subject)
    requires s.world.smap.KeysSplit() && Settled(s, parts, o) && Seen(s, parts, o)
    ensures !Stale(PlayAll(s, parts), o)
  {
    hide Play, HasSlot, TouchedBy, Reaches, Slot, CurrentStatus, ServiceMaps.KeysSplit;
    if parts != [] {
      var init, part := parts[..|parts| - 1], parts[|parts| - 1];
      var u := PlayAll(s, init);
      assert parts == init + [part];
      PartSlot(u, part, o);
      PartFrame(u, part, o);
      if !TouchedBy(part, o) {
        SettledIsCurrent(s, init, o);
      }
    }
  }

  /** At a settled moment a client is right exactly when it has not heard of an even number of changes. */
  lemma SettledClientIsRightIff(joined: Server, before: seq<Part>, after: seq<Part>, o: Subject)
    requires joined.world.smap.KeysSplit() && o in Snapshot(PlayAll(joined, before).world)
    requires Settled(joined, before + after, o) && Seen(joined, before + after, o)
    ensures var picture := ClientPicture(joined, before, after);
            && o in picture
            && (picture[o] == StatusText(CurrentStatus(PlayAll(joined, before + after).world, o)) <==>
                Unheard(joined, before, after, o) % 2 == 0)
  {
    hide Settled, Seen, CurrentStatus, Unheard, Stale, PlayAll, ClientPicture, Snapshot, ServiceMaps.KeysSplit;
    PlayAppend(joined, before, after);
    ClientIsRightIff(joined, before, after, o);
    SettledIsCurrent(joined, before + after, o);
  }

  /** So it is right there if no save overwrote a change and its snapshot was not taken between a change
      and its check. */
  lemma NothingOverwrittenIsRight(joined: Server, before: seq<Part>, after: seq<Part>, o: Subject)
    requires joined.world.smap.KeysSplit() && o in Snapshot(PlayAll(joined, before).world)
    requires Settled(joined, before + after, o) && Seen(joined, before + after, o)
    requires NothingOverwritten(joined, before + after, o) && !Stale(PlayAll(joined, before), o)
    ensures var picture := ClientPicture(joined, before, after);
            o in picture && picture[o] == StatusText(CurrentStatus(PlayAll(joined, before + after).world, o))
  {
    hide Settled, Seen, CurrentStatus, Stale, Play, PlayAll, Overwrites, ClientPicture, Snapshot, Missed, LastAbout,
         ServiceMaps.KeysSplit;
    NothingMissed(joined, before + after, o);
    forall i | 0 <= i < |after| ensures !Overwrites(PlayAll(PlayAll(joined, before), after[..i]), after[i], o) {
      assert (before + after)[..|before| + i] == before + after[..i];
      PlayAppend(joined, before, after[..i]);
    }
    NothingMissed(PlayAll(joined, before), after, o);
    SettledClientIsRightIff(joined, before, after, o);
  }

  // ---------- orderly schedules ----------

  /** Seen from one object: it is saved only at settled moments, and nothing reaches or checks it before
      it was saved.  Parts about other objects may come anywhere. */
  ghost predicate Orderly(s: Server, parts: seq<Part>, o: Subject)
    requires s.world.smap.KeysSplit()
  {
    parts != [] ==>
      var init, part := parts[..|parts| - 1], parts[|parts| - 1];
      && Orderly(s, init, o)
      && (part.Save? && TouchedBy(part, o) ==> Settled(s, init, o))
      && (part.Check? && TouchedBy(part, o) ==> Seen(s, init, o))
      && (Reaches(PlayAll(s, init), part, o) ==> Seen(s, init, o))
  }

  /** What a client that knew the status at the start knows: the status, or until the next check the
      saved value. */
  ghost predicate Follows(s: Server, parts: seq<Part>, o: Subject)
    requires s.world.smap.KeysSplit()
  {
    var t := PlayAll(s, parts);
    var known := Known(StatusText(CurrentStatus(s.world, o)), t.log[|s.log|..], o);
    && (HasSlot(t.saved, o) ==> known == StatusText(Slot(t.saved, o)))
    && (Settled(s, parts, o) ==> known == StatusText(CurrentStatus(t.world, o)))
    && (!Settled(s, parts, o) ==> HasSlot(t.saved, o))
  }

  lemma {:induction false} OrderlyFollows(s: Server, parts: seq<Part>, o: Subject)
    requires s.world.smap.KeysSplit() && Settled(s, [], o) && Orderly(s, parts, o)
    ensures Follows(s, parts, o)
  {
    hide Play, HasSlot, TouchedBy, Reaches, Slot, CurrentStatus, LastAbout, ServiceMaps.KeysSplit;
    if parts == [] {
      NothingNew(s, o);
    } else {
      var init, part := parts[..|parts| - 1], parts[|parts| - 1];
      OrderlyFollows(s, init, o);
      SeenHasSlot(s, init, o);
      OrderlyPart(s, init, part, o);
      assert init + [part] == parts;
    }
  }

  lemma OrderlyPart(s: Server, init: seq<Part>, part: Part, o: Subject)
    requires s.world.smap.KeysSplit() && Follows(s, init, o)
    requires part.Save? && TouchedBy(part, o) ==> Settled(s, init, o)
    requires (part.Check? && TouchedBy(part, o)) || Reaches(PlayAll(s, init), part, o) ==>
               HasSlot(PlayAll(s, init).saved, o)
    ensures Follows(s, init + [part], o)
  {
    assert TouchedBy(part, o) ==> part.Save? || part.Check?;
    hide Play, PlayAll, HasSlot, TouchedBy, Reaches, Settled, Slot, CurrentStatus, LastAbout, Known, StatusText,
         ServiceMaps.KeysSplit;
    var u := PlayAll(s, init);
    var t := Play(u, part);
    PlayMore(s, init, part);
    PartFrame(u, part, o);
    PartSlot(u, part, o);
    PartNews(u, part, o);
    SettledMore(s, init, part, o);
    var text := StatusText(CurrentStatus(s.world, o));
    KnownMore(text, s.log, u.log, t.log, o);
    KnownNews(Known(text, u.log[|s.log|..], o), t.log[|u.log|..], o);
  }

  lemma SettledMore(s: Server, init: seq<Part>, part: Part, o: Subject)
    requires s.world.smap.KeysSplit()
    ensures Settled(s, init + [part], o) <==>
            TouchedBy(part, o) || (Settled(s, init, o) && !Reaches(PlayAll(s, init), part, o))
  {
    hide Play, PlayAll, HasSlot, TouchedBy, Reaches, ServiceMaps.KeysSplit;
    assert (init + [part])[..|init|] == init;
  }

  lemma KnownNews(text: string, news: seq<Message>, o: Subject)
    ensures Known(text, news, o) == if LastNews(news, o).Some? then LastNews(news, o).value else text
  {
  }

  /** Messages in two stretches: what is known after the first is what is believed before the second. */
  lemma KnownMore(text: string, a: seq<Message>, b: seq<Message>, c: seq<Message>, o: Subject)
    requires a <= b <= c
    ensures Known(text, c[|a|..], o) == Known(Known(text, b[|a|..], o), c[|b|..], o)
  {
    assert c[|a|..] == b[|a|..] + c[|b|..];
    LastAboutAppend(b[|a|..], c[|b|..], "update_" + TypeName(o), IdOf(o));
    hide LastAbout;
  }

  /** Only a check says anything, and only when what was saved is not the status. */
  lemma PartNews(u: Server, part: Part, o: Subject)
    requires u.world.smap.KeysSplit()
    ensures LastNews(Play(u, part).log[|u.log|..], o) ==
            if part.Check? && TouchedBy(part, o) && Slot(u.saved, o) != CurrentStatus(u.world, o)
            then Some(StatusText(CurrentStatus(u.world, o))) else None
  {
    hide Slot, CurrentStatus, LastAbout, Touches, StatusText, Reaches, ServiceMaps.KeysSplit;
    match part
    case Save(who, seen) => SaveIsSilent(u, who, seen, o);
    case Check(who, seen) => CheckMentions(u, who, seen, o);
    case _ => PartFrame(u, part, o);
  }

  /** The client of `ClientInSync` under interleaving: if the parts are orderly for an object and both its
      snapshot and the present are settled moments of the object, the client is right about it. */
  lemma OrderlyClientInSync(joined: Server, before: seq<Part>, after: seq<Part>, o: Subject)
    requires joined.world.smap.KeysSplit() && o in Snapshot(PlayAll(joined, before).world)
    requires Settled(joined, [], o) && Orderly(joined, before, o) && Settled(joined, before, o)
    requires Orderly(PlayAll(joined, before), after, o) && Settled(PlayAll(joined, before), after, o)
    ensures var now := PlayAll(PlayAll(joined, before), after);
            var picture := ClientPicture(joined, before, after);
            o in picture && picture[o] == StatusText(CurrentStatus(now.world, o))
  {
    hide Settled, Orderly, HasSlot, CurrentStatus, PlayAll, ClientPicture, Snapshot, Slot, LastAbout,
         ServiceMaps.KeysSplit;
    var shown := PlayAll(joined, before);
    var now := PlayAll(shown, after);
    OrderlyFollows(joined, before, o);
    SettledStart(joined, before, o);
    OrderlyFollows(shown, after, o);
    PictureReads(joined, before, after, o);
    KnownMore(StatusText(CurrentStatus(joined.world, o)), joined.log, shown.log, now.log, o);
    KnownMore(StatusText(CurrentStatus(shown.world, o)), joined.log, shown.log, now.log, o);
    hide Known;
  }

  lemma SettledStart(s: Server, parts: seq<Part>, o: Subject)
    requires s.world.smap.KeysSplit() && Settled(s, parts, o)
    ensures Settled(PlayAll(s, parts), [], o)
  {
    hide PlayAll, HasSlot, Stale, Seen, ServiceMaps.KeysSplit;
    SeenHasSlot(s, parts, o);
    if Seen(s, parts, o) {
      SettledIsCurrent(s, parts, o);
    }
  }

  // ---------- whole steps are orderly ----------

  /** Requests and timers played without anything in between are orderly for every object, and leave it
      settled. */
  lemma StepIsOrderly(s: Server, input: Input, o: Subject)
    requires Coherent(s)
    ensures Settled(s, [], o)
    ensures Orderly(s, PartsOf(s, input), o) && Settled(s, PartsOf(s, input), o)
  {
    CoherentSettled(s, o);
    if input.SetHost? || input.SetHostComp? {
      RequestIsOrderly(s, input, o);
    } else {
      TimerStepIsOrderly(s, input, o);
    }
  }

  lemma RequestIsOrderly(s: Server, input: Input, o: Subject)
    requires Coherent(s) && (input.SetHost? || input.SetHostComp?)
    ensures Orderly(s, PartsOf(s, input), o) && Settled(s, PartsOf(s, input), o)
  {
    CoherentSettled(s, o);
    hide Coherent, PairKey, HasSlot, Stale, HostReaches, HcReaches, Touches, Play, Seen;
    match input
    case SetHost(h, v) =>
      if h in s.world.smap.hostCluster {
        var who := CheckHost(h, s.world.smap.hostCluster[h]);
        HostReachIsTouch(s, h, o);
        SectionIsOrderly(s, Save(who, 0), PutHost(h, v, who), Check(who, 0), o);
      }
    case SetHostComp(h, c, v, seenBefore, seenAfter) =>
      if PairKey(h, c) in s.world.smap.hostService {
        var who := CheckHc(h, c, s.world.smap.hostService[PairKey(h, c)]);
        HcReachIsTouch(s, h, c, o);
        SectionIsOrderly(s, Save(who, seenBefore), PutHc(h, c, v, who), Check(who, seenAfter), o);
      }
  }

  lemma TimerStepIsOrderly(s: Server, input: Input, o: Subject)
    requires Coherent(s) && (input.HostTimer? || input.HcTimer?)
    ensures Orderly(s, PartsOf(s, input), o) && Settled(s, PartsOf(s, input), o)
  {
    CoherentSettled(s, o);
    if (input.HostTimer? && input.start !in s.world.hosts.pending)
       || (input.HcTimer? && input.start !in s.world.hcs.pending) {
      NoTimerNoParts(s, input, o);
    }
    hide Coherent, Orderly, Settled, PartsOf, HasSlot, HostReaches, HcReaches, Touches;
    match input
    case HostTimer(start) =>
      if start in s.world.hosts.pending {
        var check := Check(s.world.hosts.pending[start].clearFunc, 0);
        HostTimerReach(s, start, o);
        TimerIsOrderly(s, HostExpires(start), check, o);
        TimerParts(s, start, check.who);
      }
    case HcTimer(start, seen) =>
      if start in s.world.hcs.pending {
        var check := Check(s.world.hcs.pending[start].clearFunc, seen);
        HcTimerReach(s, start, o);
        TimerIsOrderly(s, HcExpires(start), check, o);
        HcTimerParts(s, start, check.who, seen);
      }
  }

  lemma NoTimerNoParts(s: Server, input: Input, o: Subject)
    requires s.world.smap.KeysSplit() && Settled(s, [], o) && (input.HostTimer? || input.HcTimer?)
    requires input.HostTimer? ==> input.start !in s.world.hosts.pending
    requires input.HcTimer? ==> input.start !in s.world.hcs.pending
    ensures Orderly(s, PartsOf(s, input), o) && Settled(s, PartsOf(s, input), o)
  {
  }

  lemma TimerParts(s: Server, start: nat, f: ClearFunc)
    requires start in s.world.hosts.pending && s.world.hosts.pending[start].clearFunc == f
    ensures PartsOf(s, HostTimer(start)) == [HostExpires(start), Check(f, 0)]
  {
  }

  lemma HcTimerParts(s: Server, start: nat, f: ClearFunc, seen: int)
    requires start in s.world.hcs.pending && s.world.hcs.pending[start].clearFunc == f
    ensures PartsOf(s, HcTimer(start, seen)) == [HcExpires(start), Check(f, seen)]
  {
  }

  lemma CoherentSettled(s: Server, o: Subject)
    requires Coherent(s)
    ensures s.world.smap.KeysSplit() && Settled(s, [], o)
  {
  }

  lemma HostReachIsTouch(s: Server, h: int, o: Subject)
    requires Coherent(s) && h in s.world.smap.hostCluster
    ensures HostReaches(s.world.smap, h, o) ==> Touches(CheckHost(h, s.world.smap.hostCluster[h]), o)
  {
  }

  lemma HcReachIsTouch(s: Server, h: int, c: int, o: Subject)
    requires Coherent(s) && PairKey(h, c) in s.world.smap.hostService
    ensures s.world.smap.KeysSplit()
    ensures HcReaches(s.world.smap, h, c, o) ==> Touches(CheckHc(h, c, s.world.smap.hostService[PairKey(h, c)]), o)
  {
    hide PairKey, HostOf, ComponentOf;
  }

  lemma HostTimerReach(s: Server, start: nat, o: Subject)
    requires Coherent(s) && start in s.world.hosts.pending
    ensures s.world.smap.KeysSplit()
    ensures var r := s.world.hosts.pending[start];
            && (HostReaches(s.world.smap, r.key2, o) ==> Touches(r.clearFunc, o))
            && (Touches(r.clearFunc, o) ==> HasSlot(s.saved, o))
  {
    assert HostTimerOk(s.world.smap, s.saved, s.world.hosts.pending[start]);
    HostReachIsTouch(s, s.world.hosts.pending[start].key2, o);
    hide HostEventKey, ClusterEventKey;
  }

  lemma HcTimerReach(s: Server, start: nat, o: Subject)
    requires Coherent(s) && start in s.world.hcs.pending
    ensures s.world.smap.KeysSplit()
    ensures var r := s.world.hcs.pending[start];
            && (HcReaches(s.world.smap, r.key1, r.key2, o) ==> Touches(r.clearFunc, o))
            && (Touches(r.clearFunc, o) ==> HasSlot(s.saved, o))
  {
    var r := s.world.hcs.pending[start];
    assert HcTimerOk(s.world.smap, s.saved, r);
    HcReachIsTouch(s, r.key1, r.key2, o);
    hide HcEventKey, ClusterEventKey, PairKey;
  }

  lemma SectionIsOrderly(s: Server, save: Part, write: Part, check: Part, o: Subject)
    requires s.world.smap.KeysSplit() && Settled(s, [], o) && save.Save? && check.Check? && check.who == save.who
    requires write.PutHost? || write.PutHc?
    requires Reaches(s, write, o) ==> Touches(save.who, o)
    ensures Orderly(s, [save, write, check], o) && Settled(s, [save, write, check], o)
  {
    var one, two, three := [save], [save, write], [save, write, check];
    assert one[..0] == [] && two[..1] == one && three[..2] == two;
    assert save in one && save in two;
    assert Reaches(PlayAll(s, one), write, o) == Reaches(s, write, o);
    hide Play, PlayAll, HasSlot, Touches, HostReaches, HcReaches, Stale;
    assert Orderly(s, [], o) && Orderly(s, one, o) && Orderly(s, two, o);
    assert Settled(s, one, o);
    assert Settled(s, two, o) <==> !Reaches(s, write, o);
  }

  lemma TimerIsOrderly(s: Server, expiry: Part, check: Part, o: Subject)
    requires s.world.smap.KeysSplit() && Settled(s, [], o) && check.Check?
    requires expiry.HostExpires? || expiry.HcExpires?
    requires Reaches(s, expiry, o) ==> Touches(check.who, o)
    requires Touches(check.who, o) ==> HasSlot(s.saved, o)
    ensures Orderly(s, [expiry, check], o) && Settled(s, [expiry, check], o)
  {
    var one, two := [expiry], [expiry, check];
    assert one[..0] == [] && two[..1] == one;
    assert PlayAll(s, []) == s;
    hide Play, PlayAll, HasSlot, Touches, HostReaches, HcReaches, Stale;
    assert Orderly(s, [], o);
    assert Orderly(s, one, o);
  }

  // ---------- a cluster event that is lost ----------

  /** The parts of two requests or timers, each in its own order, mixed. */
  ghost predicate IsMerge(a: seq<Part>, b: seq<Part>, c: seq<Part>)
    decreases |c|
  {
    if c == [] then a == [] && b == []
    else
      var last, init := c[|c| - 1], c[..|c| - 1];
      || (a != [] && a[|a| - 1] == last && IsMerge(a[..|a| - 1], b, init))
      || (b != [] && b[|b| - 1] == last && IsMerge(a, b[..|b| - 1], init))
  }

  lemma MergeMore(a: seq<Part>, b: seq<Part>, c: seq<Part>, part: Part)
    requires IsMerge(a, b, c)
    ensures IsMerge(a + [part], b, c + [part]) && IsMerge(a, b + [part], c + [part])
  {
    assert (a + [part])[..|a|] == a && (b + [part])[..|b|] == b && (c + [part])[..|c|] == c;
  }

  /** The host timer `start` is the one of the most recent report of its host. */
  ghost predicate TakesAway(w: World, start: nat, h: int) {
    && start in w.hosts.pending && w.hosts.pending[start].key1 == ALL && w.hosts.pending[start].key2 == h
    && Lookup(w.hosts.db, ALL, h).Some? && CounterOf(w.hosts.db, ALL, h) == w.hosts.pending[start].counter
  }

  function SaveInBetween(start: nat, h: int, other: int, cluster: int, status: int): seq<Part> {
    [HostExpires(start),
     Save(CheckHost(other, cluster), 0),
     PutHost(other, status, CheckHost(other, cluster)),
     Check(CheckHost(other, cluster), 0),
     Check(CheckHost(h, cluster), 0)]
  }

  /** The lease of a host outside maintenance mode runs out, and takes its cluster down. */
  lemma ExpiryTakesDown(s: Server, start: nat, h: int, cluster: int)
    requires s.world.smap.KeysSplit() && TakesAway(s.world, start, h)
    requires h !in s.world.mm.hosts && h in s.world.smap.Hosts(cluster)
    ensures ClusterStatus(Play(s, HostExpires(start)).world, cluster) != 0
  {
    var w := Play(s, HostExpires(start)).world;
    assert HostStatus(w, h) == NO_STATUS;
    ClusterStatusMeaning(w, cluster);
  }

  /** A host that reports what it reported before moves no cluster. */
  lemma SameReportMovesNothing(s: Server, other: int, f: ClearFunc, cluster: int)
    requires s.world.smap.KeysSplit()
    ensures ClusterStatus(Play(s, PutHost(other, HostStatus(s.world, other), f)).world, cluster) ==
            ClusterStatus(s.world, cluster)
  {
    var w := Play(s, PutHost(other, HostStatus(s.world, other), f)).world;
    forall h ensures HostStatus(w, h) == HostStatus(s.world, h) {
    }
    assert SameTopology(s.world, w) && SameHostsOf(s.world, w, cluster);
    assert forall sv :: SameHcsOf(s.world, w, cluster, sv);
    ClusterStatusFrame(s.world, w, cluster);
  }

  /** A check that finds its cluster as saved says nothing about it. */
  lemma SilentCheck(s: Server, h: int, cluster: int)
    requires s.world.smap.KeysSplit() && Slot(s.saved, ClusterOf(cluster)) == ClusterStatus(s.world, cluster)
    ensures var t := Play(s, Check(CheckHost(h, cluster), 0));
            && LastNews(t.log[|s.log|..], ClusterOf(cluster)) == None && t.world == s.world
            && Slot(t.saved, ClusterOf(cluster)) == ClusterStatus(s.world, cluster)
  {
    hide RunClear, SaveFor, Slot, ClusterStatus, LastAbout, ServiceMaps.KeysSplit;
    CheckMentions(s, CheckHost(h, cluster), 0, ClusterOf(cluster));
    SaveWrites(s, CheckHost(h, cluster), 0, ClusterOf(cluster));
  }

  /** A cluster is up and the lease of one of its hosts runs out; between the clear and the check of that
      timer another host of the cluster reports what it reported before.  Its save hides the change: the
      cluster is down, and a client that was shown the cluster up still holds it to be up. */
  lemma ClusterEventLost(s: Server, start: nat, h: int, other: int, cluster: int)
    requires Coherent(s) && TakesAway(s.world, start, h) && h !in s.world.mm.hosts && h != other
    requires h in s.world.smap.Hosts(cluster) && other in s.world.smap.Hosts(cluster)
    requires ClusterStatus(s.world, cluster) == 0
    ensures var parts := SaveInBetween(start, h, other, cluster, HostStatus(s.world, other));
            var o := ClusterOf(cluster);
            && IsMerge(PartsOf(s, HostTimer(start)), PartsOf(s, SetHost(other, HostStatus(s.world, other))), parts)
            && ClusterStatus(PlayAll(s, parts).world, cluster) != 0
            && o in ClientPicture(s, [], parts) && ClientPicture(s, [], parts)[o] == "up"
  {
    var status := HostStatus(s.world, other);
    var parts := SaveInBetween(start, h, other, cluster, status);
    var s1 := Play(s, HostExpires(start));
    assert HostStatus(s1.world, other) == status;
    ExpiryTakesDown(s, start, h, cluster);
    assert s.world.smap.KeysSplit() && PlayAll(s, []) == s;
    LostSteps(s, s1, start, h, other, cluster, status);
    InBetweenIsMerge(s, start, h, other, cluster, status);
    UpIsShown(s.world, cluster);
    hide Play, PlayAll, ClusterStatus, HostStatus, LastAbout, ClientPicture, Snapshot, IsMerge, PartsOf, SaveInBetween,
         ServiceMaps.KeysSplit;
    PictureReads(s, [], parts, ClusterOf(cluster));
  }

  lemma UpIsShown(w: World, cluster: int)
    requires w.smap.KeysSplit() && ClusterStatus(w, cluster) == 0
    ensures ClusterOf(cluster) in Snapshot(w)
  {
    ClusterStatusMeaning(w, cluster);
    hide ClusterStatus, HostStatus;
    var statuses := map cl | cl in w.smap.service :: ClusterStatus(w, cl);
    assert cluster in statuses && ClusterOf(cluster) in ClusterTexts(statuses);
  }

  /** The timer's clear, the whole report, the timer's check. */
  lemma InBetweenIsMerge(s: Server, start: nat, h: int, other: int, cluster: int, status: int)
    requires Coherent(s) && start in s.world.hosts.pending && s.world.hosts.pending[start].key2 == h
    requires h in s.world.smap.Hosts(cluster) && other in s.world.smap.Hosts(cluster)
    ensures IsMerge(PartsOf(s, HostTimer(start)), PartsOf(s, SetHost(other, status)),
              SaveInBetween(start, h, other, cluster, status))
  {
    hide IsMerge, PartsOf, Coherent, ServiceMaps.Hosts, SaveInBetween;
    HostTimerClosure(s, start, cluster);
    TimerParts(s, start, CheckHost(h, cluster));
    ListedHost(s, other, cluster);
    ReportParts(s, other, cluster, status);
    var who := CheckHost(other, cluster);
    var report := [Save(who, 0), PutHost(other, status, who), Check(who, 0)];
    AroundIsMerge(HostExpires(start), report, Check(CheckHost(h, cluster), 0));
    InBetween(start, h, other, cluster, status, report);
  }

  lemma InBetween(start: nat, h: int, other: int, cluster: int, status: int, report: seq<Part>)
    requires var who := CheckHost(other, cluster);
             report == [Save(who, 0), PutHost(other, status, who), Check(who, 0)]
    ensures SaveInBetween(start, h, other, cluster, status) ==
            [HostExpires(start)] + report + [Check(CheckHost(h, cluster), 0)]
  {
  }

  lemma ListedHost(s: Server, h: int, cluster: int)
    requires Coherent(s) && h in s.world.smap.Hosts(cluster)
    ensures h in s.world.smap.hostCluster && s.world.smap.hostCluster[h] == cluster
  {
  }

  lemma ReportParts(s: Server, h: int, cluster: int, status: int)
    requires h in s.world.smap.hostCluster && s.world.smap.hostCluster[h] == cluster
    ensures var who := CheckHost(h, cluster);
            PartsOf(s, SetHost(h, status)) == [Save(who, 0), PutHost(h, status, who), Check(who, 0)]
  {
  }

  lemma HostTimerClosure(s: Server, start: nat, cluster: int)
    requires Coherent(s) && start in s.world.hosts.pending
    requires s.world.hosts.pending[start].key2 in s.world.smap.Hosts(cluster)
    ensures s.world.hosts.pending[start].clearFunc == CheckHost(s.world.hosts.pending[start].key2, cluster)
  {
    assert HostTimerOk(s.world.smap, s.saved, s.world.hosts.pending[start]);
    hide HostEventKey, ClusterEventKey;
  }

  lemma NothingMerges()
    ensures IsMerge([], [], [])
  {
  }

  lemma {:induction false} AfterIsMerge(a: Part, middle: seq<Part>)
    ensures IsMerge([a], middle, [a] + middle)
  {
    hide IsMerge;
    if middle == [] {
      NothingMerges();
      MergeMore([], [], [], a);
      assert [] + [a] == [a] && [a] + middle == [a];
    } else {
      var init, last := middle[..|middle| - 1], middle[|middle| - 1];
      AfterIsMerge(a, init);
      MergeMore([a], init, [a] + init, last);
      assert init + [last] == middle && [a] + init + [last] == [a] + middle;
    }
  }

  lemma AroundIsMerge(a: Part, middle: seq<Part>, e: Part)
    ensures IsMerge([a, e], middle, [a] + middle + [e])
  {
    hide IsMerge;
    AfterIsMerge(a, middle);
    MergeMore([a], middle, [a] + middle, e);
    assert [a] + [e] == [a, e];
  }

  lemma LostSteps(s: Server, s1: Server, start: nat, h: int, other: int, cluster: int, status: int)
    requires s.world.smap.KeysSplit() && s1 == Play(s, HostExpires(start)) && status == HostStatus(s1.world, other)
    ensures var t := PlayAll(s, SaveInBetween(start, h, other, cluster, status));
            && ClusterStatus(t.world, cluster) == ClusterStatus(s1.world, cluster)
            && LastNews(t.log[|s.log|..], ClusterOf(cluster)) == None
  {
    var who := CheckHost(other, cluster);
    var s2 := Play(s1, Save(who, 0));
    var s3 := Play(s2, PutHost(other, status, who));
    QuietParts(s, start, s1, who, ClusterOf(cluster), other, status);
    SameReportMovesNothing(s2, other, who, cluster);
    TwoSilentChecks(s3, other, h, cluster);
    hide Play, Slot, ClusterStatus, HostStatus, LastAbout, ServiceMaps.KeysSplit, PlayAll;
    PlayFive(s, HostExpires(start), Save(who, 0), PutHost(other, status, who), Check(who, 0),
      Check(CheckHost(h, cluster), 0));
  }

  lemma TwoSilentChecks(s: Server, first: int, second: int, cluster: int)
    requires s.world.smap.KeysSplit() && Slot(s.saved, ClusterOf(cluster)) == ClusterStatus(s.world, cluster)
    ensures var u := Play(s, Check(CheckHost(first, cluster), 0));
            var t := Play(u, Check(CheckHost(second, cluster), 0));
            LastNews(t.log[|s.log|..], ClusterOf(cluster)) == None && t.world == s.world
  {
    hide Play, Slot, ClusterStatus, LastAbout, ServiceMaps.KeysSplit;
    var u := Play(s, Check(CheckHost(first, cluster), 0));
    var t := Play(u, Check(CheckHost(second, cluster), 0));
    SilentCheck(s, first, cluster);
    SilentCheck(u, second, cluster);
    LastAboutAppend(u.log[|s.log|..], t.log[|u.log|..], "update_" + TypeName(ClusterOf(cluster)), cluster);
    assert t.log[|s.log|..] == u.log[|s.log|..] + t.log[|u.log|..];
  }

  /** Neither expiry nor save nor write says anything; the save leaves the present in the table. */
  lemma QuietParts(s: Server, start: nat, s1: Server, who: ClearFunc, o: Subject, other: int, status: int)
    requires s.world.smap.KeysSplit() && s1 == Play(s, HostExpires(start)) && Touches(who, o)
    ensures var s2 := Play(s1, Save(who, 0));
            var s3 := Play(s2, PutHost(other, status, who));
            && s2.world == s1.world && s3.log == s.log
            && Slot(s3.saved, o) == CurrentStatus(s1.world, o)
  {
    SaveWrites(s1, who, 0, o);
    hide Slot, CurrentStatus, ClusterStatus, HostStatus, ServiceMaps.KeysSplit;
  }

  lemma PlayFive(s: Server, a: Part, b: Part, c: Part, d: Part, e: Part)
    requires s.world.smap.KeysSplit()
    ensures PlayAll(s, [a, b, c, d, e]) == Play(Play(Play(Play(Play(s, a), b), c), d), e)
  {
    hide Play, PlayAll, ServiceMaps.KeysSplit;
    PlayThree(s, a, b, c);
    var three, four := [a, b, c], [a, b, c, d];
    assert three + [d] == four && four + [e] == [a, b, c, d, e];
    PlayMore(s, three, d);
    PlayMore(s, four, e);
  }

  // ---------- the lost event from an empty server ----------

  /** One cluster with two hosts and a service. */
  function TwoHosts(): ServiceMaps {
    ServiceMaps(map[1 := [1, 2]], map[1 := 1, 2 := 1], map[1 := [1]], map[], map[])
  }

  function TwoHostsServer(timeout: int): Server {
    EmptyServer(TwoHosts(), MMObjectsData([], [], []), timeout, timeout)
  }

  /** Both hosts report, each once. */
  function BothReport(): seq<Input> {
    [SetHost(1, 0), SetHost(2, 0)]
  }

  lemma ReportWrites(s: Server, h: int, v: int)
    requires s.world.smap.KeysSplit() && h in s.world.smap.hostCluster
    ensures Step(s, SetHost(h, v)).world ==
            s.world.(hosts := PutStore(s.world.hosts, ALL, h, v, CheckHost(h, s.world.smap.hostCluster[h])))
  {
  }

  lemma TwoReports(hosts: Store, timeout: int)
    requires hosts == Store(map[], timeout, map[], 0) && timeout != 0
    ensures var t := PutStore(PutStore(hosts, ALL, 1, 0, CheckHost(1, 1)), ALL, 2, 0, CheckHost(2, 1));
            && t.pending.Keys == {0, 1} && t.pending[0] == ClearRequest(ALL, 1, 0, CheckHost(1, 1))
            && Lookup(t.db, ALL, 1) == Some(Status(0, 0)) && Lookup(t.db, ALL, 2) == Some(Status(0, 0))
  {
    hide WithEntry;
  }

  lemma UpWhenBothAre(w: World)
    requires w.smap == TwoHosts() && w.smap.KeysSplit() && HostStatus(w, 1) == 0 && HostStatus(w, 2) == 0
    ensures ClusterStatus(w, 1) == 0
  {
    ClusterStatusMeaning(w, 1);
    assert w.smap.ServiceHC(1, 1) == [];
    hide ClusterStatus, HostStatus;
  }

  lemma ExecTwo(s: Server, a: Input, b: Input)
    requires Coherent(s)
    ensures Coherent(Step(s, a)) && SameTopology(s.world, Step(s, a).world)
    ensures Exec(s, [a, b]) == Step(Step(s, a), b)
  {
    EveryStepGood(s, a);
    assert [a, b][..1] == [a] && [a][..0] == [];
    hide Step, Coherent;
    assert Exec(s, []) == s && Exec(s, [a]) == Step(s, a);
  }

  lemma TwoHostsUp(timeout: int)
    requires timeout != 0
    ensures TwoHosts().WellFormed() && Coherent(TwoHostsServer(timeout))
    ensures var s := Exec(TwoHostsServer(timeout), BothReport());
            && TakesAway(s.world, 0, 1) && ClusterStatus(s.world, 1) == 0 && HostStatus(s.world, 2) == 0
            && s.world.smap == TwoHosts() && s.world.mm.hosts == []
  {
    EmptyServerCoherent(TwoHosts(), MMObjectsData([], [], []), timeout, timeout);
    var s0 := TwoHostsServer(timeout);
    var s1 := Step(s0, SetHost(1, 0));
    var s2 := Step(s1, SetHost(2, 0));
    ExecTwo(s0, SetHost(1, 0), SetHost(2, 0));
    assert s0.world.smap.KeysSplit() && s1.world.smap.KeysSplit();
    hide Step, Exec, ClusterStatus, Coherent, ServiceMaps.KeysSplit, ServiceMaps.WellFormed, SameTopology, PutStore;
    ReportWrites(s0, 1, 0);
    ReportWrites(s1, 2, 0);
    TwoReports(s0.world.hosts, timeout);
    assert HostStatus(s2.world, 1) == 0 && HostStatus(s2.world, 2) == 0;
    UpWhenBothAre(s2.world);
  }

  /** So it happens on a server that started empty: two hosts report, the lease of the first runs out, the
      second reports again before the check. */
  lemma EventLostFromEmpty(timeout: int)
    requires timeout != 0
    ensures TwoHosts().WellFormed() && Coherent(TwoHostsServer(timeout))
    ensures var s := Exec(TwoHostsServer(timeout), BothReport());
            var parts := SaveInBetween(0, 1, 2, 1, 0);
            && IsMerge(PartsOf(s, HostTimer(0)), PartsOf(s, SetHost(2, 0)), parts)
            && ClusterStatus(PlayAll(s, parts).world, 1) != 0
            && ClusterOf(1) in ClientPicture(s, [], parts) && ClientPicture(s, [], parts)[ClusterOf(1)] == "up"
  {
    TwoHostsUp(timeout);
    hide Step, Exec, ClusterStatus, PlayAll, ClientPicture, IsMerge, PartsOf, Coherent, HostStatus, SaveInBetween,
         TakesAway, TwoHostsServer;
    ClusterEventLost(Exec(TwoHostsServer(timeout), BothReport()), 0, 1, 2, 1);
  }
}
