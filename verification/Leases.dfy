/** The lease meaning of the store, over whole histories of requests: an entry lives from a `set`
    until the timer of its most recent `set` is delivered, although timers carry only a counter
    that restarts at 0 whenever an entry is re-created. */
module Leases {
  import opened Common
  import opened StatusStorage

  datatype Step =
    | Put(key1: int, key2: int, val: int, clearFunc: ClearFunc)
    | Expire(start: nat)   // delivery of the timer started by request number `start`

  function Apply(s: Store, step: Step): Store {
    match step
    case Put(k1, k2, v, f) => PutStore(s, k1, k2, v, f)
    case Expire(start) => if start in s.pending then ExpireStore(s, start) else s.(served := s.served + 1)
  }

  function Run(timeout: int, history: seq<Step>): Store {
    if history == [] then Store(map[], timeout, map[], 0)
    else Apply(Run(timeout, history[..|history| - 1]), history[|history| - 1])
  }

  lemma RunStep(timeout: int, history: seq<Step>, step: Step)
    ensures Run(timeout, history + [step]) == Apply(Run(timeout, history), step)
  {
    assert (history + [step])[..|history|] == history;
  }

  // ---------- what a history says by itself ----------

  predicate IsPut(step: Step, key1: int, key2: int) {
    step.Put? && step.key1 == key1 && step.key2 == key2
  }

  predicate Delivered(history: seq<Step>, start: nat) {
    Expire(start) in history
  }

  /** The most recent `set` of a key. */
  function LastPut(history: seq<Step>, key1: int, key2: int): (r: Option<nat>)
    ensures r.Some? ==> r.value < |history| && IsPut(history[r.value], key1, key2)
    ensures r.Some? ==> forall i :: r.value < i < |history| ==> !IsPut(history[i], key1, key2)
    ensures r.None? ==> forall i :: 0 <= i < |history| ==> !IsPut(history[i], key1, key2)
  {
    if history == [] then None
    else if IsPut(history[|history| - 1], key1, key2) then Some(|history| - 1)
    else LastPut(history[..|history| - 1], key1, key2)
  }

  /** The lease reading of a history: the value of the most recent `set`, until its own timer. */
  function LeaseValue(history: seq<Step>, key1: int, key2: int): Option<int> {
    match LastPut(history, key1, key2)
    case None => None
    case Some(i) => if Delivered(history, i) then None else Some(history[i].val)
  }

  /** Timers are delivered once, after they were started, and for one key in the order in which
      they were started.  One constant timeout is meant to give this for all keys together. */
  ghost predicate DeliveredInOrder(history: seq<Step>) {
    forall j :: 0 <= j < |history| && history[j].Expire? ==> InOrderAt(history, j)
  }

  ghost predicate InOrderAt(history: seq<Step>, j: int)
    requires 0 <= j < |history| && history[j].Expire?
  {
    var start := history[j].start;
    && start < j
    && history[start].Put?
    && !Delivered(history[..j], start)
    && forall i :: 0 <= i < start && IsPut(history[i], history[start].key1, history[start].key2) ==>
         Delivered(history[..j], i)
  }

  // ---------- the invariant that ties counters to leases ----------

  predicate Sleeping(history: seq<Step>, i: nat) {
    i < |history| && history[i].Put? && !Delivered(history, i)
  }

  ghost predicate PendingMatches(history: seq<Step>, s: Store) {
    && s.served == |history|
    && (forall i :: i in s.pending <==> Sleeping(history, i))
    && (forall i :: i in s.pending ==> IsPut(history[i], s.pending[i].key1, s.pending[i].key2))
  }

  /** Among the sleeping timers of a key, exactly the one of the most recent `set` carries the
      entry's counter; a key without an entry has no sleeping timers. */
  ghost predicate CounterMatches(history: seq<Step>, db: Db, i: nat, r: ClearRequest) {
    && Lookup(db, r.key1, r.key2).Some?
    && r.counter <= CounterOf(db, r.key1, r.key2)
    && (r.counter == CounterOf(db, r.key1, r.key2) <==> LastPut(history, r.key1, r.key2) == Some(i))
  }

  ghost predicate CountersMatch(history: seq<Step>, s: Store) {
    forall i :: i in s.pending ==> CounterMatches(history, s.db, i, s.pending[i])
  }

  function Reading(db: Db, key1: int, key2: int): Option<int> {
    match Lookup(db, key1, key2)
    case Some(st) => Some(st.status)
    case None => None
  }

  ghost predicate ValuesMatch(history: seq<Step>, s: Store) {
    forall k1, k2 :: Reading(s.db, k1, k2) == LeaseValue(history, k1, k2)
  }

  ghost predicate Matches(history: seq<Step>, s: Store) {
    PendingMatches(history, s) && CountersMatch(history, s) && ValuesMatch(history, s)
  }

  // ---------- one step ----------

  lemma HistoryStep(history: seq<Step>, step: Step)
    requires DeliveredInOrder(history + [step])
    ensures DeliveredInOrder(history)
    ensures step.Expire? ==>
              && step.start < |history| && history[step.start].Put? && !Delivered(history, step.start)
              && forall i ::
                   0 <= i < step.start && IsPut(history[i], history[step.start].key1, history[step.start].key2) ==>
                     Delivered(history, i)
    ensures step.Put? ==> !Delivered(history, |history|)
  {
    var all := history + [step];
    assert all[..|history|] == history;
    forall j | 0 <= j < |history| && history[j].Expire?
      ensures InOrderAt(history, j)
    {
      assert InOrderAt(all, j);
      assert all[..j] == history[..j];
    }
    if step.Expire? {
      assert InOrderAt(all, |history|);
    }
  }

  lemma LastPutStep(history: seq<Step>, step: Step, key1: int, key2: int)
    ensures LastPut(history + [step], key1, key2) ==
            if IsPut(step, key1, key2) then Some(|history|) else LastPut(history, key1, key2)
  {
    assert (history + [step])[..|history|] == history;
  }

  lemma PutKeepsPending(history: seq<Step>, step: Step, s: Store)
    requires s.timeout != 0 && step.Put? && DeliveredInOrder(history + [step]) && PendingMatches(history, s)
    ensures PendingMatches(history + [step], PutStore(s, step.key1, step.key2, step.val, step.clearFunc))
  {
    HistoryStep(history, step);
    var all := history + [step];
    var t := PutStore(s, step.key1, step.key2, step.val, step.clearFunc);
    forall i: nat
      ensures i in t.pending <==> Sleeping(all, i)
      ensures i in t.pending ==> IsPut(all[i], t.pending[i].key1, t.pending[i].key2)
    {
      assert Delivered(all, i) <==> Delivered(history, i);
      assert i < |history| ==> all[i] == history[i] && (i in s.pending <==> Sleeping(history, i));
    }
  }

  lemma PutKeepsCounters(history: seq<Step>, step: Step, s: Store)
    requires s.timeout != 0 && step.Put? && DeliveredInOrder(history + [step])
    requires PendingMatches(history, s) && CountersMatch(history, s)
    ensures CountersMatch(history + [step], PutStore(s, step.key1, step.key2, step.val, step.clearFunc))
  {
    var t := PutStore(s, step.key1, step.key2, step.val, step.clearFunc);
    forall i | i in t.pending
      ensures CounterMatches(history + [step], t.db, i, t.pending[i])
    {
      var r := t.pending[i];
      LastPutStep(history, step, r.key1, r.key2);
      if i != s.served {
        assert CounterMatches(history, s.db, i, r);
        assert Sleeping(history, i);
      }
    }
  }

  lemma PutKeepsValues(history: seq<Step>, step: Step, s: Store)
    requires step.Put? && !Delivered(history, |history|) && ValuesMatch(history, s)
    ensures ValuesMatch(history + [step], PutStore(s, step.key1, step.key2, step.val, step.clearFunc))
  {
    var all := history + [step];
    var t := PutStore(s, step.key1, step.key2, step.val, step.clearFunc);
    forall k1, k2
      ensures Reading(t.db, k1, k2) == LeaseValue(all, k1, k2)
    {
      LastPutStep(history, step, k1, k2);
      assert Reading(s.db, k1, k2) == LeaseValue(history, k1, k2);
      assert forall i :: Delivered(all, i) <==> Delivered(history, i);
    }
  }

  lemma ExpireKeepsPending(history: seq<Step>, step: Step, s: Store)
    requires step.Expire? && DeliveredInOrder(history + [step]) && PendingMatches(history, s)
    ensures step.start in s.pending
    ensures PendingMatches(history + [step], ExpireStore(s, step.start))
  {
    HistoryStep(history, step);
    var all := history + [step];
    assert Sleeping(history, step.start);
    var t := ExpireStore(s, step.start);
    forall i: nat
      ensures i in t.pending <==> Sleeping(all, i)
      ensures i in t.pending ==> IsPut(all[i], t.pending[i].key1, t.pending[i].key2)
    {
      assert Delivered(all, i) <==> Delivered(history, i) || i == step.start;
      assert i in s.pending <==> Sleeping(history, i);
      assert i < |history| ==> all[i] == history[i];
    }
  }

  /** Whichever timer fires, the entry goes exactly when it is the one of the most recent `set`. */
  lemma ExpireRemovesIffLast(history: seq<Step>, step: Step, s: Store)
    requires step.Expire? && step.start in s.pending
    requires PendingMatches(history, s) && CountersMatch(history, s)
    ensures var r := s.pending[step.start];
            ExpireStore(s, step.start).db ==
              if LastPut(history, r.key1, r.key2) == Some(step.start) then WithoutEntry(s.db, r.key1, r.key2) else s.db
  {
    assert CounterMatches(history, s.db, step.start, s.pending[step.start]);
  }

  /** When the timer of the most recent `set` fires, no other timer of its key is left: older ones
      were delivered before it, younger ones cannot exist. */
  lemma LastTimerIsAlone(history: seq<Step>, step: Step, s: Store, i: nat)
    requires step.Expire? && step.start in s.pending && DeliveredInOrder(history + [step])
    requires PendingMatches(history, s) && i in s.pending && i != step.start
    requires LastPut(history, s.pending[step.start].key1, s.pending[step.start].key2) == Some(step.start)
    ensures !(s.pending[i].key1 == s.pending[step.start].key1 && s.pending[i].key2 == s.pending[step.start].key2)
  {
    HistoryStep(history, step);
    assert Sleeping(history, i) && IsPut(history[i], s.pending[i].key1, s.pending[i].key2);
  }

  lemma ExpireKeepsCounters(history: seq<Step>, step: Step, s: Store)
    requires step.Expire? && step.start in s.pending && DeliveredInOrder(history + [step])
    requires PendingMatches(history, s) && CountersMatch(history, s)
    ensures CountersMatch(history + [step], ExpireStore(s, step.start))
  {
    ExpireRemovesIffLast(history, step, s);
    var r0 := s.pending[step.start];
    var t := ExpireStore(s, step.start);
    forall i | i in t.pending
      ensures CounterMatches(history + [step], t.db, i, t.pending[i])
    {
      var r := s.pending[i];
      assert t.pending[i] == r && CounterMatches(history, s.db, i, r);
      LastPutStep(history, step, r.key1, r.key2);
      if LastPut(history, r0.key1, r0.key2) == Some(step.start) {
        LastTimerIsAlone(history, step, s, i);
      }
    }
  }

  lemma ExpireKeepsValues(history: seq<Step>, step: Step, s: Store)
    requires step.Expire? && step.start in s.pending && DeliveredInOrder(history + [step])
    requires Matches(history, s)
    ensures ValuesMatch(history + [step], ExpireStore(s, step.start))
  {
    hide LastPut, InOrderAt, CountersMatch;
    HistoryStep(history, step);
    ExpireRemovesIffLast(history, step, s);
    var all := history + [step];
    var t := ExpireStore(s, step.start);
    forall k1, k2
      ensures Reading(t.db, k1, k2) == LeaseValue(all, k1, k2)
    {
      LastPutStep(history, step, k1, k2);
      assert Reading(s.db, k1, k2) == LeaseValue(history, k1, k2);
      assert forall i :: Delivered(all, i) <==> Delivered(history, i) || i == step.start;
    }
  }

  // ---------- whole histories ----------

  lemma {:induction false} HistoryMatches(timeout: int, history: seq<Step>)
    requires timeout != 0 && DeliveredInOrder(history)
    ensures Matches(history, Run(timeout, history)) && Run(timeout, history).timeout == timeout
  {
    if history != [] {
      var init, step := history[..|history| - 1], history[|history| - 1];
      assert init + [step] == history;
      var s := Run(timeout, init);
      HistoryStep(init, step);
      HistoryMatches(timeout, init);
      if step.Put? {
        PutKeepsPending(init, step, s);
        PutKeepsCounters(init, step, s);
        PutKeepsValues(init, step, s);
      } else {
        ExpireKeepsPending(init, step, s);
        ExpireKeepsCounters(init, step, s);
        ExpireKeepsValues(init, step, s);
      }
    }
  }

  /** In every history with timers delivered in start order, the store reads as the lease map. */
  lemma StoreIsLeaseMap(timeout: int, history: seq<Step>, key1: int, key2: int)
    requires timeout != 0 && DeliveredInOrder(history)
    ensures Reading(Run(timeout, history).db, key1, key2) == LeaseValue(history, key1, key2)
  {
    HistoryMatches(timeout, history);
  }

  /** No timer but that of the most recent `set` ever takes a value away. */
  lemma OldTimersAreHarmless(timeout: int, history: seq<Step>, start: nat)
    requires timeout != 0 && DeliveredInOrder(history + [Expire(start)])
    ensures start < |history| && history[start].Put?
    ensures var s, t := Run(timeout, history), Run(timeout, history + [Expire(start)]);
            var k1, k2 := history[start].key1, history[start].key2;
            && (LastPut(history, k1, k2) != Some(start) ==> t.db == s.db)
            && (LastPut(history, k1, k2) == Some(start) ==> Lookup(s.db, k1, k2).Some? && Lookup(t.db, k1, k2).None?)
            && forall l1, l2 :: l1 != k1 || l2 != k2 ==> Lookup(t.db, l1, l2) == Lookup(s.db, l1, l2)
  {
    var step := Expire(start);
    assert (history + [step])[..|history|] == history;
    HistoryStep(history, step);
    HistoryMatches(timeout, history);
    ExpireKeepsPending(history, step, Run(timeout, history));
    ExpireRemovesIffLast(history, step, Run(timeout, history));
  }

  function LateHistory(f: ClearFunc): seq<Step> {
    [Put(1, 1, 0, f), Put(1, 1, 0, f), Expire(1), Put(1, 1, 0, f)]
  }

  lemma LateHistoryStore(f: ClearFunc)
    ensures var s := Run(60, LateHistory(f));
            s.served == 4 && 0 in s.pending && s.pending[0] == ClearRequest(1, 1, 0, f) &&
            Lookup(s.db, 1, 1) == Some(Status(0, 0))
  {
    hide WithEntry, WithoutEntry;
    var put := Put(1, 1, 0, f);
    RunStep(60, [], put);
    var s1 := Run(60, [put]);
    assert [] + [put] == [put];
    assert s1.served == 1 && s1.pending[0] == ClearRequest(1, 1, 0, f) && Lookup(s1.db, 1, 1) == Some(Status(0, 0));
    RunStep(60, [put], put);
    var s2 := Run(60, [put, put]);
    assert [put] + [put] == [put, put];
    assert s2.served == 2 && s2.pending[0] == ClearRequest(1, 1, 0, f) && s2.pending[1] == ClearRequest(1, 1, 1, f);
    assert Lookup(s2.db, 1, 1) == Some(Status(0, 1));
    RunStep(60, [put, put], Expire(1));
    var s3 := Run(60, [put, put, Expire(1)]);
    assert [put, put] + [Expire(1)] == [put, put, Expire(1)];
    assert s3.served == 3 && s3.pending[0] == ClearRequest(1, 1, 0, f) && Lookup(s3.db, 1, 1) == None;
    RunStep(60, [put, put, Expire(1)], put);
    assert [put, put, Expire(1)] + [put] == LateHistory(f);
  }

  /** Without the order the guarantee is lost: a restarted counter lets an old timer remove a
      value that was set after it. */
  lemma OutOfOrderTimerRemovesNewerValue(f: ClearFunc)
    ensures var history := LateHistory(f) + [Expire(0)];
            LeaseValue(history, 1, 1) == Some(0) && Lookup(Run(60, history).db, 1, 1) == None
  {
    var history := LateHistory(f) + [Expire(0)];
    LateHistoryStore(f);
    RunStep(60, LateHistory(f), Expire(0));
    LastPutStep(LateHistory(f), Expire(0), 1, 1);
    assert LastPut(LateHistory(f), 1, 1) == Some(3);
  }

  // ---------- timers in any order ----------

  /** Timers are delivered once and after they were started; nothing is said of their order. */
  ghost predicate DeliveredOnce(history: seq<Step>) {
    forall j :: 0 <= j < |history| && history[j].Expire? ==>
      history[j].start < j && history[history[j].start].Put? && !Delivered(history[..j], history[j].start)
  }

  /** If the entry is there, its counter is the one its most recent `set` wrote. */
  ghost predicate LiveCounter(history: seq<Step>, s: Store) {
    forall i :: i in s.pending ==>
      var r := s.pending[i];
      LastPut(history, r.key1, r.key2) == Some(i) && Lookup(s.db, r.key1, r.key2).Some? ==>
        CounterOf(s.db, r.key1, r.key2) == r.counter
  }

  /** The timer belongs to the most recent `set`, or there is nothing to remove, or it has not the
      counter of what is there. */
  ghost predicate Harmless(timeout: int, history: seq<Step>, start: nat) {
    var s := Run(timeout, history);
    start in s.pending ==>
      var r := s.pending[start];
      || LastPut(history, r.key1, r.key2) == Some(start)
      || Lookup(s.db, r.key1, r.key2).None?
      || r.counter != CounterOf(s.db, r.key1, r.key2)
  }

  ghost predicate AllHarmless(timeout: int, history: seq<Step>) {
    forall j :: 0 <= j < |history| && history[j].Expire? ==> Harmless(timeout, history[..j], history[j].start)
  }

  ghost predicate AlwaysLeaseMap(timeout: int, history: seq<Step>) {
    forall n :: 0 <= n <= |history| ==> ValuesMatch(history[..n], Run(timeout, history[..n]))
  }

  lemma OnceStep(history: seq<Step>, step: Step)
    requires DeliveredOnce(history + [step])
    ensures DeliveredOnce(history)
    ensures step.Expire? ==>
              step.start < |history| && history[step.start].Put? && !Delivered(history, step.start)
    ensures step.Put? ==> !Delivered(history, |history|)
  {
    var all := history + [step];
    assert all[..|history|] == history;
    forall j | 0 <= j < |history| && history[j].Expire?
      ensures history[j].start < j && history[history[j].start].Put? && !Delivered(history[..j], history[j].start)
    {
      assert all[..j] == history[..j] && all[j] == history[j];
    }
    if step.Expire? {
      assert all[|history|] == step;
    }
  }

  lemma OnceStepPending(history: seq<Step>, step: Step, s: Store)
    requires s.timeout != 0 && DeliveredOnce(history + [step]) && PendingMatches(history, s)
    ensures PendingMatches(history + [step], Apply(s, step))
    ensures step.Expire? ==> step.start in s.pending
  {
    OnceStep(history, step);
    var all, t := history + [step], Apply(s, step);
    if step.Expire? {
      assert Sleeping(history, step.start);
    }
    forall i: nat
      ensures i in t.pending <==> Sleeping(all, i)
      ensures i in t.pending ==> IsPut(all[i], t.pending[i].key1, t.pending[i].key2)
    {
      assert Delivered(all, i) <==> Delivered(history, i) || (step.Expire? && i == step.start);
      assert i < |history| ==> all[i] == history[i] && (i in s.pending <==> Sleeping(history, i));
    }
  }

  lemma OnceStepCounters(history: seq<Step>, step: Step, s: Store)
    requires s.timeout != 0 && DeliveredOnce(history + [step]) && PendingMatches(history, s)
    requires LiveCounter(history, s)
    ensures LiveCounter(history + [step], Apply(s, step))
  {
    OnceStepPending(history, step, s);
    var t := Apply(s, step);
    forall i | i in t.pending
      ensures var r := t.pending[i];
              LastPut(history + [step], r.key1, r.key2) == Some(i) && Lookup(t.db, r.key1, r.key2).Some? ==>
                CounterOf(t.db, r.key1, r.key2) == r.counter
    {
      var r := t.pending[i];
      LastPutStep(history, step, r.key1, r.key2);
      assert i in s.pending ==> Sleeping(history, i);
    }
  }

  /** One expiry keeps the lease reading exactly when it is harmless. */
  lemma ExpiryKeepsLeaseIff(timeout: int, history: seq<Step>, start: nat)
    requires var s := Run(timeout, history);
             PendingMatches(history, s) && LiveCounter(history, s) && ValuesMatch(history, s) && start in s.pending
    ensures ValuesMatch(history + [Expire(start)], Apply(Run(timeout, history), Expire(start))) <==>
            Harmless(timeout, history, start)
  {
    hide LastPut, Run;
    var s := Run(timeout, history);
    var step, r := Expire(start), s.pending[start];
    var all, t := history + [step], Apply(s, step);
    assert Sleeping(history, start);
    assert Reading(s.db, r.key1, r.key2) == LeaseValue(history, r.key1, r.key2);
    forall k1, k2
      ensures Reading(t.db, k1, k2) == LeaseValue(all, k1, k2) <==>
              (k1 == r.key1 && k2 == r.key2 ==> Harmless(timeout, history, start))
    {
      LastPutStep(history, step, k1, k2);
      assert Reading(s.db, k1, k2) == LeaseValue(history, k1, k2);
      assert forall i :: Delivered(all, i) <==> Delivered(history, i) || i == start;
    }
    assert Reading(t.db, r.key1, r.key2) == LeaseValue(all, r.key1, r.key2) <==> Harmless(timeout, history, start);
  }

  lemma {:induction false} OnceMatches(timeout: int, history: seq<Step>)
    requires timeout != 0 && DeliveredOnce(history)
    ensures var s := Run(timeout, history);
            PendingMatches(history, s) && LiveCounter(history, s) && s.timeout == timeout
  {
    if history != [] {
      var init, step := history[..|history| - 1], history[|history| - 1];
      assert init + [step] == history;
      OnceStep(init, step);
      OnceMatches(timeout, init);
      OnceStepPending(init, step, Run(timeout, init));
      OnceStepCounters(init, step, Run(timeout, init));
    }
  }

  /** With timers delivered in any order, the store reads as the lease map at every moment of a history if
      and only if every delivered timer is harmless. */
  lemma {:induction false} AlwaysLeaseMapIff(timeout: int, history: seq<Step>)
    requires timeout != 0 && DeliveredOnce(history)
    ensures AlwaysLeaseMap(timeout, history) <==> AllHarmless(timeout, history)
  {
    hide LiveCounter, PendingMatches, ValuesMatch, Harmless, DeliveredOnce;
    assert history[..|history|] == history;
    if history == [] {
      EmptyMatches(timeout);
    } else {
      var init, step := history[..|history| - 1], history[|history| - 1];
      assert init + [step] == history;
      OnceStep(init, step);
      OnceMatches(timeout, init);
      AlwaysLeaseMapIff(timeout, init);
      LastMoment(timeout, init, step);
      LastTimer(timeout, init, step);
      if AlwaysLeaseMap(timeout, init) {
        assert init[..|init|] == init;
        assert ValuesMatch(init, Run(timeout, init));
        RunStep(timeout, init, step);
        if step.Expire? {
          OnceStepPending(init, step, Run(timeout, init));
          ExpiryKeepsLeaseIff(timeout, init, step.start);
        } else {
          PutKeepsReading(init, step, Run(timeout, init));
        }
      }
    }
  }

  lemma EmptyMatches(timeout: int)
    ensures ValuesMatch([], Run(timeout, []))
  {
  }

  lemma LastMoment(timeout: int, init: seq<Step>, step: Step)
    ensures AlwaysLeaseMap(timeout, init + [step]) <==>
            AlwaysLeaseMap(timeout, init) && ValuesMatch(init + [step], Run(timeout, init + [step]))
  {
    hide Run, ValuesMatch;
    var all := init + [step];
    assert all[..|all|] == all;
    assert forall n :: 0 <= n <= |init| ==> all[..n] == init[..n];
  }

  lemma LastTimer(timeout: int, init: seq<Step>, step: Step)
    ensures AllHarmless(timeout, init + [step]) <==>
            AllHarmless(timeout, init) && (step.Expire? ==> Harmless(timeout, init, step.start))
  {
    hide Harmless;
    var all := init + [step];
    assert all[..|init|] == init && all[|init|] == step;
    assert forall j :: 0 <= j < |init| ==> all[..j] == init[..j] && all[j] == init[j];
  }

  /** A `set` keeps the lease reading whatever the order of the timers. */
  lemma PutKeepsReading(history: seq<Step>, step: Step, s: Store)
    requires step.Put? && DeliveredOnce(history + [step]) && ValuesMatch(history, s)
    ensures ValuesMatch(history + [step], Apply(s, step))
  {
    OnceStep(history, step);
    PutKeepsValues(history, step, s);
  }

  /** A store without a timeout starts no timers and keeps the most recent value for ever. */
  lemma {:induction false} NoTimeoutKeepsValues(history: seq<Step>, key1: int, key2: int)
    ensures Run(0, history).pending == map[]
    ensures Run(0, history).timeout == 0
    ensures match LastPut(history, key1, key2)
            case None => Lookup(Run(0, history).db, key1, key2) == None
            case Some(i) => Lookup(Run(0, history).db, key1, key2).Some? &&
                            StatusOf(Run(0, history).db, key1, key2) == history[i].val
  {
    if history != [] {
      NoTimeoutKeepsValues(history[..|history| - 1], key1, key2);
    }
  }
}
