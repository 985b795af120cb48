/** What a prototype requires, directly or through what it requires: a depth-first walk with one
    shared list of visited prototypes, over a graph that may have cycles. */
module Requires {
  import opened Common

  datatype Require = Require(service: string, component: string)   // "" when no component is named

  datatype Proto = Proto(bundle: int, needs: seq<Require>)

  /** Prototypes by id, and the answers of the two `get` queries. */
  datatype Db = Db(
    protos: map<int, Proto>,
    serviceByName: map<(int, string), int>,      // bundle, name
    componentByName: map<(int, string), int>)    // service prototype, name

  /** Queries answer with stored prototypes of the bundle asked about. */
  ghost predicate WellFormed(db: Db) {
    && (forall k :: k in db.serviceByName ==>
          db.serviceByName[k] in db.protos && db.protos[db.serviceByName[k]].bundle == k.0)
    && (forall k :: k in db.componentByName ==>
          k.0 in db.protos && db.componentByName[k] in db.protos &&
          db.protos[db.componentByName[k]].bundle == db.protos[k.0].bundle)
  }

  function ServiceOf(db: Db, bundle: int, r: Require): Option<int> {
    if (bundle, r.service) in db.serviceByName then Some(db.serviceByName[(bundle, r.service)]) else None
  }

  function ComponentOf(db: Db, bundle: int, r: Require): Option<int> {
    var s := ServiceOf(db, bundle, r);
    if s.Some? && (s.value, r.component) in db.componentByName then Some(db.componentByName[(s.value, r.component)])
    else None
  }

  predicate Resolves(db: Db, bundle: int, r: Require) {
    ServiceOf(db, bundle, r).Some? && (r.component != "" ==> ComponentOf(db, bundle, r).Some?)
  }

  // ---------- the relation ----------

  /** One requirement leads to its service, and to its component unless a service is being added. */
  predicate Leads(db: Db, addingService: bool, bundle: int, r: Require, q: int) {
    || ServiceOf(db, bundle, r) == Some(q)
    || (!addingService && r.component != "" && ComponentOf(db, bundle, r) == Some(q))
  }

  ghost predicate Next(db: Db, addingService: bool, p: int, q: int) {
    p in db.protos &&
    exists i :: 0 <= i < |db.protos[p].needs| && Leads(db, addingService, db.protos[p].bundle, db.protos[p].needs[i], q)
  }

  ghost predicate ReachesIn(db: Db, addingService: bool, p: int, q: int, steps: nat)
    decreases steps
  {
    if steps == 0 then p == q
    else exists m :: Next(db, addingService, p, m) && ReachesIn(db, addingService, m, q, steps - 1)
  }

  ghost predicate Reaches(db: Db, addingService: bool, p: int, q: int) {
    exists steps :: ReachesIn(db, addingService, p, q, steps)
  }

  /** `p` itself names the service. */
  ghost predicate NamesService(db: Db, p: int, service: string) {
    p in db.protos && exists i :: 0 <= i < |db.protos[p].needs| && db.protos[p].needs[i].service == service
  }

  ghost predicate NamesComponent(db: Db, p: int, service: string, component: string) {
    p in db.protos && component != "" && Require(service, component) in db.protos[p].needs
  }

  ghost predicate Unresolved(db: Db, p: int) {
    p in db.protos &&
    exists i :: 0 <= i < |db.protos[p].needs| && !Resolves(db, db.protos[p].bundle, db.protos[p].needs[i])
  }

  lemma ReachesSelf(db: Db, addingService: bool, p: int)
    ensures Reaches(db, addingService, p, p)
  {
    assert ReachesIn(db, addingService, p, p, 0);
  }

  lemma ReachesThrough(db: Db, addingService: bool, p: int, m: int, q: int)
    requires Next(db, addingService, p, m) && Reaches(db, addingService, m, q)
    ensures Reaches(db, addingService, p, q)
  {
    var steps: nat :| ReachesIn(db, addingService, m, q, steps);
    assert ReachesIn(db, addingService, m, q, (steps + 1) - 1);
    assert ReachesIn(db, addingService, p, q, steps + 1);
  }

  /** A set that contains `p` and whatever its members lead to contains whatever `p` reaches;
      prototypes without requirements need not be put in it. */
  lemma {:induction false} ClosedSetHoldsReached(db: Db, addingService: bool, closed: set<int>, p: int, q: int,
      steps: nat)
    requires p in closed || p !in db.protos || db.protos[p].needs == []
    requires forall a, b :: a in closed && Next(db, addingService, a, b) ==>
               b in closed || b !in db.protos || db.protos[b].needs == []
    requires ReachesIn(db, addingService, p, q, steps)
    ensures q in closed || q !in db.protos || db.protos[q].needs == []
    decreases steps
  {
    if steps > 0 {
      var m :| Next(db, addingService, p, m) && ReachesIn(db, addingService, m, q, steps - 1);
      ClosedSetHoldsReached(db, addingService, closed, m, q, steps - 1);
    }
  }

  /** What is found while a service is added is found otherwise too. */
  lemma {:induction false} AddingServiceReachesLess(db: Db, p: int, q: int, steps: nat)
    requires ReachesIn(db, true, p, q, steps)
    ensures ReachesIn(db, false, p, q, steps)
    decreases steps
  {
    if steps > 0 {
      var m :| Next(db, true, p, m) && ReachesIn(db, true, m, q, steps - 1);
      var i :| 0 <= i < |db.protos[p].needs| &&
               Leads(db, true, db.protos[p].bundle, db.protos[p].needs[i], m);
      assert Leads(db, false, db.protos[p].bundle, db.protos[p].needs[i], m);
      AddingServiceReachesLess(db, m, q, steps - 1);
      assert Next(db, false, p, m);
    }
  }

  // ---------- the walk ----------

  datatype Item = Item(service: int, components: map<string, int>)

  ghost predicate Recorded(db: Db, dict: map<string, Item>, bundle: int, r: Require) {
    && Resolves(db, bundle, r)
    && r.service in dict
    && (r.component != "" ==> r.component in dict[r.service].components)
  }

  /** Every entry is what the queries answer for its names. */
  ghost predicate EntriesResolve(db: Db, dict: map<string, Item>, bundle: int) {
    forall n :: n in dict ==>
      && Some(dict[n].service) == ServiceOf(db, bundle, Require(n, ""))
      && forall c :: c in dict[n].components ==>
           c != "" && Some(dict[n].components[c]) == ComponentOf(db, bundle, Require(n, c))
  }

  /** Nothing is forgotten from one dictionary to the next. */
  ghost predicate Grows(a: map<string, Item>, b: map<string, Item>) {
    forall n :: n in a ==> n in b && a[n].components.Keys <= b[n].components.Keys
  }

  /** What `b` has and `a` has not was named by one of `from`. */
  ghost predicate NewNamedBy(db: Db, a: map<string, Item>, b: map<string, Item>, from: set<int>) {
    && (forall n :: n in b && n !in a ==> exists p :: p in from && NamesService(db, p, n))
    && (forall n, c :: n in b && c in b[n].components && !(n in a && c in a[n].components) ==>
          exists p :: p in from && NamesComponent(db, p, n, c))
  }

  datatype State = State(dict: map<string, Item>, checked: set<int>)

  ghost predicate Sound(db: Db, bundle: int, st: State) {
    WellFormed(db) && st.checked <= db.protos.Keys && EntriesResolve(db, st.dict, bundle)
  }

  /** From one state to a later one, nothing came in that is not due to `start`. */
  ghost predicate Progress(db: Db, addingService: bool, bundle: int, start: int, a: State, b: State) {
    && a.checked <= b.checked
    && Grows(a.dict, b.dict)
    && (forall p :: p in b.checked && p !in a.checked ==>
          p in db.protos && db.protos[p].bundle == bundle && Reaches(db, addingService, start, p))
    && NewNamedBy(db, a.dict, b.dict, b.checked - a.checked + {start})
  }

  /** A requirement is written down, and what it leads to was visited or requires nothing. */
  ghost predicate Written(db: Db, addingService: bool, bundle: int, st: State, need: Require) {
    && Recorded(db, st.dict, bundle, need)
    && forall q :: Leads(db, addingService, bundle, need, q) ==> Visited(db, st, q)
  }

  ghost predicate Visited(db: Db, st: State, q: int) {
    q in st.checked || (q in db.protos && db.protos[q].needs == [])
  }

  ghost predicate Done(db: Db, addingService: bool, bundle: int, st: State, p: int, k: nat) {
    p in db.protos && k <= |db.protos[p].needs| &&
    forall i :: 0 <= i < k ==> Written(db, addingService, bundle, st, db.protos[p].needs[i])
  }

  ghost predicate AllDone(db: Db, addingService: bool, bundle: int, a: set<int>, b: State, but: set<int>) {
    forall p :: p in b.checked && p !in a && p !in but ==>
      p in db.protos && Done(db, addingService, bundle, b, p, |db.protos[p].needs|)
  }

  ghost predicate FailsBelow(db: Db, addingService: bool, start: int) {
    exists p :: Reaches(db, addingService, start, p) && Unresolved(db, p)
  }

  lemma ProgressTransitive(db: Db, addingService: bool, bundle: int, start: int, a: State, b: State, c: State)
    requires Progress(db, addingService, bundle, start, a, b) && Progress(db, addingService, bundle, start, b, c)
    ensures Progress(db, addingService, bundle, start, a, c)
  {
    hide Reaches, NamesService, NamesComponent;
  }

  /** Progress of a prototype one leads to is progress of one's own. */
  lemma ProgressThrough(db: Db, addingService: bool, bundle: int, start: int, q: int, a: State, b: State)
    requires Next(db, addingService, start, q) && Progress(db, addingService, bundle, q, a, b)
    requires q in b.checked && q !in a.checked
    ensures Progress(db, addingService, bundle, start, a, b)
  {
    forall p | p in b.checked && p !in a.checked ensures Reaches(db, addingService, start, p) {
      ReachesThrough(db, addingService, start, q, p);
    }
    hide Reaches, NamesService, NamesComponent, Next;
  }

  lemma DoneStays(db: Db, addingService: bool, bundle: int, b: State, c: State, p: int, k: nat)
    requires Done(db, addingService, bundle, b, p, k) && b.checked <= c.checked && Grows(b.dict, c.dict)
    ensures Done(db, addingService, bundle, c, p, k)
  {
    hide Leads, Resolves;
  }

  lemma AllDoneStays(db: Db, addingService: bool, bundle: int, a: set<int>, b: State, c: State, but: set<int>,
      more: set<int>)
    requires AllDone(db, addingService, bundle, a, b, but) && AllDone(db, addingService, bundle, b.checked, c, more)
    requires more <= but
    requires b.checked <= c.checked && Grows(b.dict, c.dict)
    ensures AllDone(db, addingService, bundle, a, c, but)
  {
    forall p | p in c.checked && p !in a && p !in but
      ensures p in db.protos && Done(db, addingService, bundle, c, p, |db.protos[p].needs|)
    {
      if p in b.checked {
        DoneStays(db, addingService, bundle, b, c, p, |db.protos[p].needs|);
      }
    }
  }

  lemma AllDoneWith(db: Db, addingService: bool, bundle: int, a: set<int>, b: State, p: int)
    requires AllDone(db, addingService, bundle, a, b, {p}) && p in db.protos
    requires Done(db, addingService, bundle, b, p, |db.protos[p].needs|)
    ensures AllDone(db, addingService, bundle, a, b, {})
  {
  }

  lemma DoneOneMore(db: Db, addingService: bool, bundle: int, st: State, p: int, k: nat)
    requires Done(db, addingService, bundle, st, p, k) && k < |db.protos[p].needs|
    requires Written(db, addingService, bundle, st, db.protos[p].needs[k])
    ensures Done(db, addingService, bundle, st, p, k + 1)
  {
  }

  lemma VisitedStays(db: Db, a: State, b: State, q: int)
    requires Visited(db, a, q) && a.checked <= b.checked
    ensures Visited(db, b, q)
  {
  }

  lemma WrittenWhen(db: Db, addingService: bool, bundle: int, a: State, b: State, need: Require)
    requires Recorded(db, a.dict, bundle, need) && Grows(a.dict, b.dict)
    requires Visited(db, b, ServiceOf(db, bundle, need).value)
    requires need.component != "" && !addingService ==> Visited(db, b, ComponentOf(db, bundle, need).value)
    ensures Written(db, addingService, bundle, b, need)
  {
  }

  lemma NoProgress(db: Db, addingService: bool, bundle: int, start: int, a: State)
    ensures Progress(db, addingService, bundle, start, a, a)
  {
  }

  lemma StartsVisit(db: Db, addingService: bool, bundle: int, start: int, a: State)
    requires Sound(db, bundle, a) && start in db.protos && db.protos[start].bundle == bundle
    ensures var b := a.(checked := a.checked + {start});
            && Sound(db, bundle, b)
            && Progress(db, addingService, bundle, start, a, b)
            && AllDone(db, addingService, bundle, a.checked, b, {start})
            && Done(db, addingService, bundle, b, start, 0)
  {
    ReachesSelf(db, addingService, start);
  }

  lemma FailsHere(db: Db, addingService: bool, start: int)
    requires Unresolved(db, start)
    ensures FailsBelow(db, addingService, start)
  {
    ReachesSelf(db, addingService, start);
  }

  lemma TargetsAreNext(db: Db, addingService: bool, bundle: int, st: State, p: int, i: nat)
    requires Sound(db, bundle, st) && p in db.protos && db.protos[p].bundle == bundle && i < |db.protos[p].needs|
    requires Recorded(db, st.dict, bundle, db.protos[p].needs[i])
    ensures ServiceOf(db, bundle, db.protos[p].needs[i]).Some?
    ensures db.protos[p].needs[i].component != "" ==> ComponentOf(db, bundle, db.protos[p].needs[i]).Some?
    ensures var q := ServiceOf(db, bundle, db.protos[p].needs[i]).value;
            Next(db, addingService, p, q) && q in db.protos && db.protos[q].bundle == bundle
    ensures db.protos[p].needs[i].component != "" && !addingService ==>
              var q := ComponentOf(db, bundle, db.protos[p].needs[i]).value;
              Next(db, addingService, p, q) && q in db.protos && db.protos[q].bundle == bundle
  {
    var need := db.protos[p].needs[i];
    assert Leads(db, addingService, bundle, need, ServiceOf(db, bundle, need).value);
    if need.component != "" && !addingService {
      assert Leads(db, addingService, bundle, need, ComponentOf(db, bundle, need).value);
    }
  }

  lemma AddService(db: Db, addingService: bool, bundle: int, p: int, i: nat, a: State)
    requires Sound(db, bundle, a)
    requires p in db.protos && db.protos[p].bundle == bundle && i < |db.protos[p].needs|
    requires ServiceOf(db, bundle, db.protos[p].needs[i]).Some?
    ensures var need := db.protos[p].needs[i];
            var b := if need.service in a.dict then a
                     else a.(dict := a.dict[need.service := Item(ServiceOf(db, bundle, need).value, map[])]);
            Sound(db, bundle, b) && Progress(db, addingService, bundle, p, a, b)
  {
    hide Reaches;
    assert NamesService(db, p, db.protos[p].needs[i].service);
  }

  lemma AddComponent(db: Db, addingService: bool, bundle: int, p: int, i: nat, a: State)
    requires Sound(db, bundle, a)
    requires p in db.protos && db.protos[p].bundle == bundle && i < |db.protos[p].needs|
    requires db.protos[p].needs[i].component != "" && ComponentOf(db, bundle, db.protos[p].needs[i]).Some?
    requires db.protos[p].needs[i].service in a.dict
    ensures var need := db.protos[p].needs[i];
            var item := a.dict[need.service];
            var b := a.(dict := a.dict[need.service :=
              item.(components := item.components[need.component := ComponentOf(db, bundle, need).value])]);
            && Sound(db, bundle, b) && Progress(db, addingService, bundle, p, a, b)
            && Recorded(db, b.dict, bundle, need)
  {
    hide Reaches;
    var need := db.protos[p].needs[i];
    assert Require(need.service, need.component) == need;
    assert NamesComponent(db, p, need.service, need.component);
  }

  class Walk {
    const db: Db
    const addingService: bool
    ghost const bundle: int
    var compDict: map<string, Item>
    var checked: set<int>

    constructor (db: Db, addingService: bool, ghost bundle: int)
      ensures this.db == db && this.addingService == addingService && this.bundle == bundle
      ensures View() == State(map[], {})
    {
      this.db := db;
      this.addingService := addingService;
      this.bundle := bundle;
      compDict := map[];
      checked := {};
    }

    ghost function View(): State
      reads this
    {
      State(compDict, checked)
    }

    method ProcessRequires(proto: int) returns (ok: bool)
      requires Sound(db, bundle, View())
      requires proto in db.protos && db.protos[proto].bundle == bundle && proto !in checked
      modifies this
      ensures Sound(db, bundle, View())
      ensures Progress(db, addingService, bundle, proto, old(View()), View())
      ensures proto in checked
      ensures ok ==> AllDone(db, addingService, bundle, old(checked), View(), {})
      ensures !ok ==> FailsBelow(db, addingService, proto)
      decreases db.protos.Keys - checked, 0
    {
      ghost var before := View();
      checked := checked + {proto};
      StartsVisit(db, addingService, bundle, proto, before);
      hide *;
      for i := 0 to |db.protos[proto].needs|
        invariant Sound(db, bundle, View()) && proto in checked && checked >= before.checked
        invariant Progress(db, addingService, bundle, proto, before, View())
        invariant AllDone(db, addingService, bundle, before.checked, View(), {proto})
        invariant Done(db, addingService, bundle, View(), proto, i)
      {
        ghost var mid := View();
        ok := Follow(proto, i);
        ProgressTransitive(db, addingService, bundle, proto, before, mid, View());
        ProgressGrows(db, addingService, bundle, proto, mid, View());
        if !ok {
          return;
        }
        AllDoneStays(db, addingService, bundle, before.checked, mid, View(), {proto}, {});
        DoneStays(db, addingService, bundle, mid, View(), proto, i);
        DoneOneMore(db, addingService, bundle, View(), proto, i);
      }
      AllDoneWith(db, addingService, bundle, before.checked, View(), proto);
      ok := true;
    }

    /** One requirement: write it down, then visit its service and its component. */
    method Follow(proto: int, i: nat) returns (ok: bool)
      requires Sound(db, bundle, View())
      requires proto in db.protos && proto in checked && db.protos[proto].bundle == bundle
               && i < |db.protos[proto].needs|
      modifies this
      ensures Sound(db, bundle, View())
      ensures Progress(db, addingService, bundle, proto, old(View()), View())
      ensures ok ==> AllDone(db, addingService, bundle, old(checked), View(), {})
      ensures ok ==> Written(db, addingService, bundle, View(), db.protos[proto].needs[i])
      ensures !ok ==> FailsBelow(db, addingService, proto)
      decreases db.protos.Keys - checked, 2
    {
      hide Sound, Progress, Recorded, Written, Visited, Next, FailsBelow, Unresolved, AllDone, ServiceOf, ComponentOf,
           Grows;
      ghost var before := View();
      var need := db.protos[proto].needs[i];
      ok := Record(proto, i);
      ghost var recorded := View();
      if !ok {
        FailsHere(db, addingService, proto);
        return;
      }
      TargetsAreNext(db, addingService, bundle, recorded, proto, i);
      var service := ServiceOf(db, db.protos[proto].bundle, need).value;
      ok := Visit(proto, service);
      ghost var halfway := View();
      ProgressTransitive(db, addingService, bundle, proto, before, recorded, halfway);
      ProgressGrows(db, addingService, bundle, proto, recorded, halfway);
      if ok && need.component != "" && !addingService {
        var component := ComponentOf(db, db.protos[proto].bundle, need).value;
        ok := Visit(proto, component);
        ProgressTransitive(db, addingService, bundle, proto, before, halfway, View());
        ProgressTransitive(db, addingService, bundle, proto, recorded, halfway, View());
        ProgressGrows(db, addingService, bundle, proto, halfway, View());
        ProgressGrows(db, addingService, bundle, proto, recorded, View());
        if ok {
          AllDoneStays(db, addingService, bundle, before.checked, halfway, View(), {}, {});
          VisitedStays(db, halfway, View(), service);
        }
      }
      if ok {
        WrittenWhen(db, addingService, bundle, recorded, View(), need);
      }
    }

    method Record(proto: int, i: nat) returns (ok: bool)
      requires Sound(db, bundle, View())
      requires proto in db.protos && proto in checked && db.protos[proto].bundle == bundle
               && i < |db.protos[proto].needs|
      modifies this`compDict
      ensures Sound(db, bundle, View())
      ensures Progress(db, addingService, bundle, proto, old(View()), View())
      ensures ok ==> Recorded(db, compDict, bundle, db.protos[proto].needs[i])
      ensures !ok ==> Unresolved(db, proto)
    {
      ghost var before := View();
      var need := db.protos[proto].needs[i];
      var service := ServiceOf(db, db.protos[proto].bundle, need);
      if service.None? {
        NoProgress(db, addingService, bundle, proto, before);
        return false;
      }
      AddService(db, addingService, bundle, proto, i, before);
      if need.service !in compDict {
        compDict := compDict[need.service := Item(service.value, map[])];
      }
      ghost var mid := View();
      if need.component != "" {
        var component := ComponentOf(db, db.protos[proto].bundle, need);
        if component.None? {
          return false;
        }
        AddComponent(db, addingService, bundle, proto, i, mid);
        var item := compDict[need.service];
        compDict := compDict[need.service := item.(components := item.components[need.component := component.value])];
        hide *;
        ProgressTransitive(db, addingService, bundle, proto, before, mid, View());
      }
      ok := true;
    }

    /** Walk on from `q`, unless it requires nothing or was visited before. */
    method Visit(proto: int, q: int) returns (ok: bool)
      requires Sound(db, bundle, View())
      requires proto in db.protos && proto in checked && Next(db, addingService, proto, q)
      requires q in db.protos && db.protos[q].bundle == bundle
      modifies this
      ensures Sound(db, bundle, View())
      ensures Progress(db, addingService, bundle, proto, old(View()), View())
      ensures ok ==> Visited(db, View(), q)
      ensures ok ==> AllDone(db, addingService, bundle, old(checked), View(), {})
      ensures !ok ==> FailsBelow(db, addingService, proto)
      decreases db.protos.Keys - checked, 1
    {
      ok := true;
      if db.protos[q].needs != [] && q !in checked {
        ok := ProcessRequires(q);
        ProgressThrough(db, addingService, bundle, proto, q, old(View()), View());
        if !ok {
          ghost var p :| Reaches(db, addingService, q, p) && Unresolved(db, p);
          ReachesThrough(db, addingService, proto, q, p);
        }
      }
    }
  }

  lemma ProgressGrows(db: Db, addingService: bool, bundle: int, start: int, a: State, b: State)
    requires Progress(db, addingService, bundle, start, a, b)
    ensures a.checked <= b.checked && Grows(a.dict, b.dict)
  {
  }

  // ---------- the answer ----------

  datatype Answer = Nothing | Found(dict: map<string, Item>) | Missing

  /** The dictionary of everything named by some prototype `start` reaches. */
  ghost predicate IsClosure(db: Db, addingService: bool, start: int, dict: map<string, Item>)
    requires start in db.protos
  {
    && (forall n :: n in dict <==> exists p :: Reaches(db, addingService, start, p) && NamesService(db, p, n))
    && (forall n, c :: n in dict && c in dict[n].components <==>
          exists p :: Reaches(db, addingService, start, p) && NamesComponent(db, p, n, c))
    && EntriesResolve(db, dict, db.protos[start].bundle)
  }

  method GetRequires(db: Db, start: int, addingService: bool) returns (r: Answer)
    requires WellFormed(db) && start in db.protos
    ensures r.Nothing? <==> db.protos[start].needs == []
    ensures r.Missing? <==> FailsBelow(db, addingService, start)
    ensures r.Found? ==> IsClosure(db, addingService, start, r.dict)
  {
    if db.protos[start].needs == [] {
      NothingBelow(db, addingService, start);
      return Nothing;
    }
    var walk := new Walk(db, addingService, db.protos[start].bundle);
    var ok := walk.ProcessRequires(start);
    if !ok {
      return Missing;
    }
    WalkIsClosure(db, addingService, start, walk.View());
    r := Found(walk.compDict);
  }

  lemma NothingBelow(db: Db, addingService: bool, start: int)
    requires start in db.protos && db.protos[start].needs == []
    ensures !FailsBelow(db, addingService, start)
  {
    forall p | Reaches(db, addingService, start, p) ensures !Unresolved(db, p) {
      var steps: nat :| ReachesIn(db, addingService, start, p, steps);
      ClosedSetHoldsReached(db, addingService, {start}, start, p, steps);
    }
  }

  lemma WalkIsClosure(db: Db, addingService: bool, start: int, st: State)
    requires start in db.protos && start in st.checked
    requires Progress(db, addingService, db.protos[start].bundle, start, State(map[], {}), st)
    requires AllDone(db, addingService, db.protos[start].bundle, {}, st, {})
    requires Sound(db, db.protos[start].bundle, st)
    ensures IsClosure(db, addingService, start, st.dict)
    ensures !FailsBelow(db, addingService, start)
  {
    hide Reaches, NamesService, NamesComponent, Unresolved, EntriesResolve, AllDone, Progress, WellFormed;
    OnlyReachedIsNamed(db, addingService, start, st);
    forall p, n | Reaches(db, addingService, start, p) && NamesService(db, p, n) ensures n in st.dict {
      NamedIsWritten(db, addingService, start, st, p, n, "");
    }
    forall p, n, c | Reaches(db, addingService, start, p) && NamesComponent(db, p, n, c)
      ensures n in st.dict && c in st.dict[n].components
    {
      NamedIsWritten(db, addingService, start, st, p, n, c);
    }
    forall p | Reaches(db, addingService, start, p) ensures !Unresolved(db, p) {
      ReachedResolves(db, addingService, start, st, p);
    }
  }

  lemma NamedIsWritten(db: Db, addingService: bool, start: int, st: State, p: int, n: string, c: string)
    requires start in db.protos && start in st.checked
    requires Progress(db, addingService, db.protos[start].bundle, start, State(map[], {}), st)
    requires AllDone(db, addingService, db.protos[start].bundle, {}, st, {})
    requires Reaches(db, addingService, start, p)
    ensures NamesService(db, p, n) ==> n in st.dict
    ensures NamesComponent(db, p, n, c) ==> n in st.dict && c in st.dict[n].components
  {
    if NamesService(db, p, n) {
      var i :| 0 <= i < |db.protos[p].needs| && db.protos[p].needs[i].service == n;
      ReachedIsWritten(db, addingService, start, st, p, i);
    }
    if NamesComponent(db, p, n, c) {
      var i :| 0 <= i < |db.protos[p].needs| && db.protos[p].needs[i] == Require(n, c);
      ReachedIsWritten(db, addingService, start, st, p, i);
    }
  }

  lemma ReachedResolves(db: Db, addingService: bool, start: int, st: State, p: int)
    requires start in db.protos && start in st.checked
    requires Progress(db, addingService, db.protos[start].bundle, start, State(map[], {}), st)
    requires AllDone(db, addingService, db.protos[start].bundle, {}, st, {})
    requires Reaches(db, addingService, start, p)
    ensures !Unresolved(db, p)
  {
    if p in db.protos {
      forall i | 0 <= i < |db.protos[p].needs| ensures Resolves(db, db.protos[p].bundle, db.protos[p].needs[i]) {
        ReachedIsWritten(db, addingService, start, st, p, i);
      }
    }
  }

  lemma OnlyReachedIsNamed(db: Db, addingService: bool, start: int, st: State)
    requires start in db.protos && start in st.checked
    requires Progress(db, addingService, db.protos[start].bundle, start, State(map[], {}), st)
    requires AllDone(db, addingService, db.protos[start].bundle, {}, st, {})
    ensures forall n :: n in st.dict ==> exists p :: Reaches(db, addingService, start, p) && NamesService(db, p, n)
    ensures forall n, c :: n in st.dict && c in st.dict[n].components ==>
              exists p :: Reaches(db, addingService, start, p) && NamesComponent(db, p, n, c)
  {
    ReachesSelf(db, addingService, start);
    hide Reaches, NamesService, NamesComponent, AllDone;
  }

  lemma ReachedIsWritten(db: Db, addingService: bool, start: int, st: State, p: int, i: nat)
    requires start in db.protos && start in st.checked
    requires Progress(db, addingService, db.protos[start].bundle, start, State(map[], {}), st)
    requires AllDone(db, addingService, db.protos[start].bundle, {}, st, {})
    requires Reaches(db, addingService, start, p) && p in db.protos && i < |db.protos[p].needs|
    ensures Written(db, addingService, db.protos[p].bundle, st, db.protos[p].needs[i])
  {
    var steps: nat :| ReachesIn(db, addingService, start, p, steps);
    WalkIsClosed(db, addingService, db.protos[start].bundle, start, st);
    ClosedSetHoldsReached(db, addingService, st.checked, start, p, steps);
  }

  lemma WalkIsClosed(db: Db, addingService: bool, bundle: int, start: int, st: State)
    requires start in db.protos && db.protos[start].bundle == bundle
    requires Progress(db, addingService, bundle, start, State(map[], {}), st)
    requires AllDone(db, addingService, bundle, {}, st, {})
    ensures forall a, b :: a in st.checked && Next(db, addingService, a, b) ==>
              b in st.checked || b !in db.protos || db.protos[b].needs == []
  {
    forall a, b | a in st.checked && Next(db, addingService, a, b)
      ensures b in st.checked || b !in db.protos || db.protos[b].needs == []
    {
      var i :| 0 <= i < |db.protos[a].needs| && Leads(db, addingService, db.protos[a].bundle, db.protos[a].needs[i], b);
      assert Written(db, addingService, bundle, st, db.protos[a].needs[i]);
    }
  }

  // ---------- the graph and the answer, row by row ----------

  /** The service of that name in the bundle, or the component of that name of it. */
  predicate Points(db: Db, addingService: bool, at: (int, string), component: string, q: int) {
    && at in db.serviceByName
    && (|| q == db.serviceByName[at]
        || (!addingService && component != "" && (db.serviceByName[at], component) in db.componentByName
            && q == db.componentByName[(db.serviceByName[at], component)]))
  }

  /** The bundle has no service of that name, or the service no component of that name. */
  predicate Broken(db: Db, at: (int, string), component: string) {
    at !in db.serviceByName || (component != "" && (db.serviceByName[at], component) !in db.componentByName)
  }

  lemma NextByRow(db: Db, addingService: bool, p: int, q: int)
    ensures Next(db, addingService, p, q) <==>
            p in db.protos
            && exists i :: 0 <= i < |db.protos[p].needs|
                           && Points(db, addingService, (db.protos[p].bundle, db.protos[p].needs[i].service),
                                     db.protos[p].needs[i].component, q)
  {
    if p in db.protos {
      forall i | 0 <= i < |db.protos[p].needs|
        ensures Leads(db, addingService, db.protos[p].bundle, db.protos[p].needs[i], q) <==>
                Points(db, addingService, (db.protos[p].bundle, db.protos[p].needs[i].service),
                       db.protos[p].needs[i].component, q)
      {
      }
      hide Leads, Points;
    }
  }

  lemma UnresolvedByRow(db: Db, p: int)
    ensures Unresolved(db, p) <==>
            p in db.protos
            && exists i :: 0 <= i < |db.protos[p].needs|
                           && Broken(db, (db.protos[p].bundle, db.protos[p].needs[i].service),
                                     db.protos[p].needs[i].component)
  {
    if p in db.protos {
      forall i | 0 <= i < |db.protos[p].needs|
        ensures Resolves(db, db.protos[p].bundle, db.protos[p].needs[i]) <==>
                !Broken(db, (db.protos[p].bundle, db.protos[p].needs[i].service), db.protos[p].needs[i].component)
      {
      }
      hide Resolves, Broken;
    }
  }

  /** The prototypes an answer shows are those the bundle has under the names it shows. */
  lemma FoundByRow(db: Db, addingService: bool, start: int, dict: map<string, Item>, n: string)
    requires start in db.protos && IsClosure(db, addingService, start, dict) && n in dict
    ensures var at := (db.protos[start].bundle, n);
            && at in db.serviceByName && dict[n].service == db.serviceByName[at]
            && forall c :: c in dict[n].components ==>
                 (dict[n].service, c) in db.componentByName
                 && dict[n].components[c] == db.componentByName[(dict[n].service, c)]
  {
    var bundle := db.protos[start].bundle;
    assert EntriesResolve(db, dict, bundle);
    assert Some(dict[n].service) == ServiceOf(db, bundle, Require(n, ""));
    forall c | c in dict[n].components
      ensures (dict[n].service, c) in db.componentByName
      ensures dict[n].components[c] == db.componentByName[(dict[n].service, c)]
    {
      assert Some(dict[n].components[c]) == ComponentOf(db, bundle, Require(n, c));
      assert ServiceOf(db, bundle, Require(n, c)) == ServiceOf(db, bundle, Require(n, ""));
    }
  }
}
