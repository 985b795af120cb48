/** The same requests and timers taken apart: saving, writing, clearing and checking are steps of
    their own, and those of different requests and timers may come in any order.  This is how the
    closure of a timer really runs, on a goroutine started after the clear. */
module Interleaving {
  import opened Common
  import opened Keys
  import opened Topology
  import opened StatusStorage
  import opened Aggregation
  import opened StatusEvents

  /** `who` names the object a save or check is about, as the closure of a timer does. */
  datatype Part =
    | Save(who: ClearFunc, seen: int)
    | PutHost(hostId: int, status: int, closure: ClearFunc)
    | PutHc(hcHost: int, compId: int, status: int, closure: ClearFunc)
    | HostExpires(start: nat)
    | HcExpires(start: nat)
    | Check(who: ClearFunc, seen: int)

  function SaveFor(s: Server, who: ClearFunc, seen: int): Server
    requires s.world.smap.KeysSplit()
  {
    match who
    case CheckHost(h, cl) => SaveHost(s, h, cl)
    case CheckHc(h, c, hc) => SaveHc(s, h, c, hc, seen)
  }

  function Play(s: Server, part: Part): (t: Server)
    requires s.world.smap.KeysSplit()
    ensures t.world.smap == s.world.smap && s.log <= t.log
  {
    match part
    case Save(who, seen) => SaveFor(s, who, seen)
    case PutHost(h, v, f) => s.(world := s.world.(hosts := PutStore(s.world.hosts, ALL, h, v, f)))
    case PutHc(h, c, v, f) => s.(world := s.world.(hcs := PutStore(s.world.hcs, h, c, v, f)))
    case HostExpires(start) =>
      if start in s.world.hosts.pending then s.(world := s.world.(hosts := ExpireStore(s.world.hosts, start))) else s
    case HcExpires(start) =>
      if start in s.world.hcs.pending then s.(world := s.world.(hcs := ExpireStore(s.world.hcs, start))) else s
    case Check(who, seen) => RunClear(s, who, seen)
  }

  function PlayAll(s: Server, parts: seq<Part>): (t: Server)
    requires s.world.smap.KeysSplit()
    ensures t.world.smap == s.world.smap && s.log <= t.log
  {
    if parts == [] then s else Play(PlayAll(s, parts[..|parts| - 1]), parts[|parts| - 1])
  }

  // ---------- requests and timers in parts ----------

  function PartsOf(s: Server, input: Input): seq<Part> {
    match input
    case SetHost(h, v) =>
      if h !in s.world.smap.hostCluster then []
      else
        var who := CheckHost(h, s.world.smap.hostCluster[h]);
        [Save(who, 0), PutHost(h, v, who), Check(who, 0)]
    case SetHostComp(h, c, v, seenBefore, seenAfter) =>
      if PairKey(h, c) !in s.world.smap.hostService then []
      else
        var who := CheckHc(h, c, s.world.smap.hostService[PairKey(h, c)]);
        [Save(who, seenBefore), PutHc(h, c, v, who), Check(who, seenAfter)]
    case HostTimer(start) =>
      if start !in s.world.hosts.pending then []
      else [HostExpires(start), Check(s.world.hosts.pending[start].clearFunc, 0)]
    case HcTimer(start, seen) =>
      if start !in s.world.hcs.pending then []
      else [HcExpires(start), Check(s.world.hcs.pending[start].clearFunc, seen)]
  }

  lemma PlayMore(s: Server, parts: seq<Part>, part: Part)
    requires s.world.smap.KeysSplit()
    ensures PlayAll(s, []) == s
    ensures PlayAll(s, parts + [part]) == Play(PlayAll(s, parts), part)
  {
    hide Play, ServiceMaps.KeysSplit;
    assert (parts + [part])[..|parts|] == parts;
  }

  lemma PlayTwo(s: Server, a: Part, b: Part)
    requires s.world.smap.KeysSplit()
    ensures PlayAll(s, [a, b]) == Play(Play(s, a), b)
  {
    hide Play, PlayAll, ServiceMaps.KeysSplit;
    PlayMore(s, [], a);
    PlayMore(s, [a], b);
    assert [] + [a] == [a] && [a] + [b] == [a, b];
  }

  lemma PlayThree(s: Server, a: Part, b: Part, c: Part)
    requires s.world.smap.KeysSplit()
    ensures PlayAll(s, [a, b, c]) == Play(Play(Play(s, a), b), c)
  {
    hide Play, PlayAll, ServiceMaps.KeysSplit;
    PlayTwo(s, a, b);
    PlayMore(s, [a, b], c);
    assert [a, b] + [c] == [a, b, c];
  }

  /** Played without anything in between, the parts are the step. */
  lemma StepIsParts(s: Server, input: Input)
    requires s.world.smap.KeysSplit()
    ensures PlayAll(s, PartsOf(s, input)) == Step(s, input)
  {
    if input.SetHost? || input.SetHostComp? {
      RequestIsParts(s, input);
    } else {
      TimerIsParts(s, input);
    }
  }

  lemma RequestIsParts(s: Server, input: Input)
    requires s.world.smap.KeysSplit() && (input.SetHost? || input.SetHostComp?)
    ensures PlayAll(s, PartsOf(s, input)) == Step(s, input)
  {
    hide SaveHost, SaveHc, CheckHostStep, CheckHcStep, PutStore, PairKey, PlayAll, ServiceMaps.KeysSplit;
    PlayMore(s, [], HostExpires(0));
    match input
    case SetHost(h, v) =>
      if h in s.world.smap.hostCluster {
        var who := CheckHost(h, s.world.smap.hostCluster[h]);
        PlayThree(s, Save(who, 0), PutHost(h, v, who), Check(who, 0));
      }
    case SetHostComp(h, c, v, seenBefore, seenAfter) =>
      if PairKey(h, c) in s.world.smap.hostService {
        var who := CheckHc(h, c, s.world.smap.hostService[PairKey(h, c)]);
        PlayThree(s, Save(who, seenBefore), PutHc(h, c, v, who), Check(who, seenAfter));
      }
  }

  lemma TimerIsParts(s: Server, input: Input)
    requires s.world.smap.KeysSplit() && (input.HostTimer? || input.HcTimer?)
    ensures PlayAll(s, PartsOf(s, input)) == Step(s, input)
  {
    hide SaveFor, RunClear, ExpireStore, PlayAll, ServiceMaps.KeysSplit;
    PlayMore(s, [], HostExpires(0));
    match input
    case HostTimer(start) =>
      if start in s.world.hosts.pending {
        PlayTwo(s, HostExpires(start), Check(s.world.hosts.pending[start].clearFunc, 0));
      }
    case HcTimer(start, seen) =>
      if start in s.world.hcs.pending {
        PlayTwo(s, HcExpires(start), Check(s.world.hcs.pending[start].clearFunc, seen));
      }
  }

  // ---------- the saved value of an object ----------

  function Slot(saved: SavedStatuses, o: Subject): int {
    match o
    case ClusterOf(cl) => Read(saved, ClusterEventKey(cl)).cluster
    case HostOfId(h) => Read(saved, HostEventKey(h)).host
  }

  predicate Touches(who: ClearFunc, o: Subject) {
    match who
    case CheckHost(h, cl) => o == ClusterOf(cl) || o == HostOfId(h)
    case CheckHc(_, _, hc) => o == ClusterOf(hc.cluster)
  }

  /** A save overwrites the saved values of its objects, and no others. */
  lemma SaveWrites(s: Server, who: ClearFunc, seen: int, o: Subject)
    requires s.world.smap.KeysSplit()
    ensures Slot(SaveFor(s, who, seen).saved, o) ==
            if Touches(who, o) then CurrentStatus(s.world, o) else Slot(s.saved, o)
  {
    hide ClusterStatus, ServiceStatus, HcStatus, ClusterEventKey, HostEventKey, HcEventKey, ServiceMaps.KeysSplit;
    match who
    case CheckHost(h, cl) =>
      EventKeysDistinct(h, 0, cl, 0);
      EventKeysDistinct(IdOf(o), 0, h, 0);
      EventKeysDistinct(IdOf(o), 0, cl, 0);
      EventKeysDistinct(h, 0, IdOf(o), 0);
      EventKeysDistinct(cl, 0, IdOf(o), 0);
    case CheckHc(h, c, hc) =>
      EventKeysDistinct(h, c, hc.cluster, 0);
      EventKeysDistinct(h, c, IdOf(o), 0);
      EventKeysDistinct(IdOf(o), 0, hc.cluster, 0);
  }

  /** A check mentions an object exactly when its saved value is not its status, and leaves the table
      as a save does. */
  lemma CheckMentions(s: Server, who: ClearFunc, seen: int, o: Subject)
    requires s.world.smap.KeysSplit()
    ensures var t := RunClear(s, who, seen);
            && t.saved == SaveFor(s, who, seen).saved && t.world == s.world
            && LastNews(t.log[|s.log|..], o) ==
               if Touches(who, o) && Slot(s.saved, o) != CurrentStatus(s.world, o)
               then Some(StatusText(CurrentStatus(s.world, o))) else None
  {
    hide ClusterStatus, ServiceStatus, HcStatus, ClusterEventKey, HostEventKey, HcEventKey, ServiceMaps.KeysSplit,
         LastAbout, Announce;
    var t := RunClear(s, who, seen);
    match who
    case CheckHost(h, cl) =>
      var new_ := HostHolder(s.world, h, cl);
      var oldHost, oldCluster := Read(s.saved, HostEventKey(h)).host, Read(s.saved, ClusterEventKey(cl)).cluster;
      assert t.log[|s.log|..] ==
             Announce("host", h, oldHost, new_.host) + Announce("cluster", cl, oldCluster, new_.cluster);
      LastAboutAppend(Announce("host", h, oldHost, new_.host), Announce("cluster", cl, oldCluster, new_.cluster),
        "update_" + TypeName(o), IdOf(o));
      AnnounceNews("host", h, oldHost, new_.host, TypeName(o), IdOf(o));
      AnnounceNews("cluster", cl, oldCluster, new_.cluster, TypeName(o), IdOf(o));
    case CheckHc(h, c, hc) =>
      var old_ := Read(s.saved, HcEventKey(h, c));
      var new_ := HcHolder(s.world, h, c, hc, seen);
      var oldCluster := Read(s.saved, ClusterEventKey(hc.cluster)).cluster;
      var a := Announce("component", c, old_.component, new_.component);
      var b := Announce("service", hc.service, old_.service, new_.service);
      var d := Announce("cluster", hc.cluster, oldCluster, new_.cluster);
      assert t.log[|s.log|..] == a + b + d;
      LastAboutAppend(a + b, d, "update_" + TypeName(o), IdOf(o));
      LastAboutAppend(a, b, "update_" + TypeName(o), IdOf(o));
      AnnounceNews("component", c, old_.component, new_.component, TypeName(o), IdOf(o));
      AnnounceNews("service", hc.service, old_.service, new_.service, TypeName(o), IdOf(o));
      AnnounceNews("cluster", hc.cluster, oldCluster, new_.cluster, TypeName(o), IdOf(o));
  }

  // ---------- what a client misses ----------

  /** A save that finds the object up where "down" was saved, or the reverse: the change it overwrites
      will not be found by any check. */
  predicate Overwrites(s: Server, part: Part, o: Subject)
    requires s.world.smap.KeysSplit()
  {
    part.Save? && Touches(part.who, o) && StatusText(Slot(s.saved, o)) != StatusText(CurrentStatus(s.world, o))
  }

  /** How many changes of an object were overwritten since it was last mentioned. */
  function Missed(s: Server, parts: seq<Part>, o: Subject): nat
    requires s.world.smap.KeysSplit()
  {
    if parts == [] then 0
    else
      var u := PlayAll(s, parts[..|parts| - 1]);
      var part := parts[|parts| - 1];
      if LastNews(Play(u, part).log[|u.log|..], o).Some? then 0
      else Missed(s, parts[..|parts| - 1], o) + if Overwrites(u, part, o) then 1 else 0
  }

  /** What a client that believed `text` knows after these messages. */
  function Known(text: string, messages: seq<Message>, o: Subject): string {
    match LastNews(messages, o)
    case Some(news) => news
    case None => text
  }

  lemma TwoTexts(status: int)
    ensures StatusText(status) == "up" || StatusText(status) == "down"
    ensures "up" != "down"
  {
    assert "up"[0] != "down"[0];
  }

  /** One part: what it does to the saved value, to the news and to the number of misses. */
  lemma PartEffect(u: Server, part: Part, o: Subject)
    requires u.world.smap.KeysSplit()
    ensures var t := Play(u, part);
            var news := LastNews(t.log[|u.log|..], o);
            && (news.Some? ==> news.value == StatusText(Slot(t.saved, o)) && !Overwrites(u, part, o))
            && (news.None? ==>
                (StatusText(Slot(t.saved, o)) == StatusText(Slot(u.saved, o)) <==> !Overwrites(u, part, o)))
  {
    hide ClusterStatus, HostStatus, SaveHost, SaveHc, CheckHostStep, CheckHcStep, Touches, Slot, StatusText, PutStore,
         ExpireStore;
    match part
    case Save(who, seen) =>
      SaveWrites(u, who, seen, o);
      SaveIsSilent(u, who, seen, o);
    case Check(who, seen) =>
      SaveWrites(u, who, seen, o);
      CheckMentions(u, who, seen, o);
    case _ => assert Play(u, part).log[|u.log|..] == [];
  }

  lemma SaveIsSilent(s: Server, who: ClearFunc, seen: int, o: Subject)
    requires s.world.smap.KeysSplit()
    ensures SaveFor(s, who, seen).log == s.log && LastNews(s.log[|s.log|..], o) == None
  {
    assert s.log[|s.log|..] == [];
  }

  /** The changes of an object that a client has not heard of: those overwritten since the object was
      last mentioned and, if it never was, the one by which the client's first belief differed from
      what was saved. */
  function Owed(s: Server, parts: seq<Part>, text: string, o: Subject): nat
    requires s.world.smap.KeysSplit()
  {
    Missed(s, parts, o) +
    if LastNews(PlayAll(s, parts).log[|s.log|..], o).None? && text != StatusText(Slot(s.saved, o)) then 1 else 0
  }

  predicate IsText(text: string) {
    text == "up" || text == "down"
  }

  /** After any parts in any order and from any first belief, what a client knows of an object agrees
      with the saved value exactly when the number of changes it has not heard of is even. */
  lemma {:induction false} KnownIsSavedIff(s: Server, parts: seq<Part>, text: string, o: Subject)
    requires s.world.smap.KeysSplit() && IsText(text)
    ensures var t := PlayAll(s, parts);
            var known := Known(text, t.log[|s.log|..], o);
            IsText(known) && (known == StatusText(Slot(t.saved, o)) <==> Owed(s, parts, text, o) % 2 == 0)
  {
    hide Play, Slot, CurrentStatus, Overwrites, LastAbout, ServiceMaps.KeysSplit, StatusText;
    var t := PlayAll(s, parts);
    TwoTexts(Slot(s.saved, o));
    TwoTexts(Slot(t.saved, o));
    if parts == [] {
      NothingNew(s, o);
    } else {
      var u, part := PlayAll(s, parts[..|parts| - 1]), parts[|parts| - 1];
      KnownIsSavedIff(s, parts[..|parts| - 1], text, o);
      TwoTexts(Slot(u.saved, o));
      PartEffect(u, part, o);
      assert t.log[|s.log|..] == u.log[|s.log|..] + t.log[|u.log|..];
      LastAboutAppend(u.log[|s.log|..], t.log[|u.log|..], "update_" + TypeName(o), IdOf(o));
    }
  }

  lemma NothingNew(s: Server, o: Subject)
    ensures LastNews(s.log[|s.log|..], o) == None
  {
    assert s.log[|s.log|..] == [];
  }

  // ---------- a client with a snapshot ----------

  /** What is saved for the object is not its status: a change waits for its check. */
  predicate Stale(s: Server, o: Subject)
    requires s.world.smap.KeysSplit()
  {
    StatusText(Slot(s.saved, o)) != StatusText(CurrentStatus(s.world, o))
  }

  /** The changes of an object unknown to a client that joined, took a snapshot after the parts
      `before` and applies all messages since it joined.  A mention counts wherever it came from, for
      the client applies it over its snapshot; without one, the snapshot counts, and misleads if it
      fell between a change and its check. */
  function Unheard(joined: Server, before: seq<Part>, after: seq<Part>, o: Subject): nat
    requires joined.world.smap.KeysSplit()
  {
    var shown := PlayAll(joined, before);
    var now := PlayAll(shown, after);
    if LastNews(now.log[|joined.log|..], o).Some? then Missed(joined, before + after, o)
    else Missed(shown, after, o) + if Stale(shown, o) then 1 else 0
  }

  /** What the client holds. */
  function ClientPicture(joined: Server, before: seq<Part>, after: seq<Part>): Picture
    requires joined.world.smap.KeysSplit()
  {
    var shown := PlayAll(joined, before);
    Replay(Snapshot(shown.world), PlayAll(shown, after).log[|joined.log|..])
  }

  lemma {:induction false} PlayAppend(s: Server, a: seq<Part>, b: seq<Part>)
    requires s.world.smap.KeysSplit()
    ensures PlayAll(s, a + b) == PlayAll(PlayAll(s, a), b)
  {
    hide Play, ServiceMaps.KeysSplit;
    if b == [] {
      assert a + b == a;
    } else {
      assert (a + b)[..|a + b| - 1] == a + b[..|b| - 1];
      PlayAppend(s, a, b[..|b| - 1]);
    }
  }

  /** The picture reads the last message since the client joined, or else the status at the snapshot. */
  lemma PictureReads(joined: Server, before: seq<Part>, after: seq<Part>, o: Subject)
    requires joined.world.smap.KeysSplit()
    ensures var shown := PlayAll(joined, before);
            var news := PlayAll(shown, after).log[|joined.log|..];
            o in Snapshot(shown.world) ==>
              && o in ClientPicture(joined, before, after)
              && ClientPicture(joined, before, after)[o] == Known(StatusText(CurrentStatus(shown.world, o)), news, o)
  {
    hide Replay, Snapshot, PlayAll, CurrentStatus, StatusText, LastAbout, ServiceMaps.KeysSplit;
    var shown := PlayAll(joined, before);
    if o in Snapshot(shown.world) {
      SnapshotIsCurrent(shown.world, o);
      ReplayReadsLastNews(Snapshot(shown.world), PlayAll(shown, after).log[|joined.log|..], o);
    }
  }

  lemma KnownToClientIff(joined: Server, before: seq<Part>, after: seq<Part>, o: Subject)
    requires joined.world.smap.KeysSplit()
    ensures var shown := PlayAll(joined, before);
            var now := PlayAll(shown, after);
            var known := Known(StatusText(CurrentStatus(shown.world, o)), now.log[|joined.log|..], o);
            IsText(known) && (known == StatusText(Slot(now.saved, o)) <==> Unheard(joined, before, after, o) % 2 == 0)
  {
    hide Slot, CurrentStatus, PlayAll, Missed, LastAbout, StatusText, ServiceMaps.KeysSplit;
    var shown := PlayAll(joined, before);
    var now := PlayAll(shown, after);
    var text := StatusText(CurrentStatus(shown.world, o));
    TwoTexts(CurrentStatus(shown.world, o));
    PlayAppend(joined, before, after);
    KnownIsSavedIff(joined, before + after, text, o);
    KnownIsSavedIff(shown, after, text, o);
    assert now.log[|joined.log|..] == shown.log[|joined.log|..] + now.log[|shown.log|..];
    LastAboutAppend(shown.log[|joined.log|..], now.log[|shown.log|..], "update_" + TypeName(o), IdOf(o));
  }

  /** Whatever the order of the parts: the client is right about an object it was shown exactly when the
      changes it has not heard of, together with one that still waits for its check, are even in
      number. */
  lemma ClientIsRightIff(joined: Server, before: seq<Part>, after: seq<Part>, o: Subject)
    requires joined.world.smap.KeysSplit()
    ensures var shown := PlayAll(joined, before);
            var now := PlayAll(shown, after);
            var picture := ClientPicture(joined, before, after);
            o in Snapshot(shown.world) ==>
              && o in picture
              && (picture[o] == StatusText(CurrentStatus(now.world, o)) <==>
                  (Unheard(joined, before, after, o) + if Stale(now, o) then 1 else 0) % 2 == 0)
  {
    hide Slot, CurrentStatus, PlayAll, Missed, LastAbout, StatusText, ServiceMaps.KeysSplit, ClientPicture, Snapshot,
         Unheard;
    var now := PlayAll(PlayAll(joined, before), after);
    PictureReads(joined, before, after, o);
    KnownToClientIff(joined, before, after, o);
    TwoTexts(Slot(now.saved, o));
    TwoTexts(CurrentStatus(now.world, o));
  }

  // ---------- schedules that overwrite nothing ----------

  /** No save of the parts overwrites a change of the object. */
  ghost predicate NothingOverwritten(s: Server, parts: seq<Part>, o: Subject)
    requires s.world.smap.KeysSplit()
  {
    forall i :: 0 <= i < |parts| ==> !Overwrites(PlayAll(s, parts[..i]), parts[i], o)
  }

  lemma {:induction false} NothingMissed(s: Server, parts: seq<Part>, o: Subject)
    requires s.world.smap.KeysSplit() && NothingOverwritten(s, parts, o)
    ensures Missed(s, parts, o) == 0
  {
    hide Play, PlayAll, Overwrites, LastAbout, ServiceMaps.KeysSplit;
    if parts != [] {
      var init := parts[..|parts| - 1];
      forall i | 0 <= i < |init| ensures !Overwrites(PlayAll(s, init[..i]), init[i], o) {
        assert init[..i] == parts[..i];
      }
      NothingMissed(s, init, o);
      assert !Overwrites(PlayAll(s, init), parts[|init|], o);
    }
  }
}
