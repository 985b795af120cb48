/** The solver of host predicates: and, or, and the membership tests of a cluster's mapping. */
module HostVariants {
  import opened Common
  import TextOrder

  type HostName = string

  datatype HcRow = HcRow(service: int, component: int, host: HostName)

  /** One cluster as the queries see it: hosts by name, mapping rows by the name of their host. */
  datatype Cluster = Cluster(
    hosts: seq<HostName>,
    hcs: seq<HcRow>,
    services: map<string, int>,
    components: map<(int, string), int>)    // service, name

  /** The order of host names. */
  predicate Before(g: HostName, h: HostName) {
    TextOrder.Compare(g, h) < 0
  }

  ghost predicate WellFormed(cl: Cluster) {
    && Strict(cl.hosts)
    && (forall i, j :: 0 <= i < j < |cl.hcs| ==> !Before(cl.hcs[j].host, cl.hcs[i].host))
    && (forall i :: 0 <= i < |cl.hcs| ==> cl.hcs[i].host in cl.hosts)
  }

  ghost predicate Ascending(names: seq<HostName>) {
    forall i, j :: 0 <= i < j < |names| ==> !Before(names[j], names[i])
  }

  ghost predicate Strict(names: seq<HostName>) {
    forall i, j :: 0 <= i < j < |names| ==> Before(names[i], names[j])
  }

  function AsSet(names: seq<HostName>): set<HostName> {
    set h | h in names
  }

  // ---------- arguments as they are written ----------

  datatype Args =
    | Null
    | Dict(service: Option<string>, component: Option<string>)
    | Predicate(name: string, args: Option<Args>)
    | Items(items: seq<Args>)
    | Scalar

  datatype Tag = And | Or | InCluster | InService | NotInService | InComponent | NotInComponent | InHc | NotInHc

  function NameOf(tag: Tag): string {
    match tag
    case And => "and"
    case Or => "or"
    case InCluster => "in_cluster"
    case InService => "in_service"
    case NotInService => "not_in_service"
    case InComponent => "in_component"
    case NotInComponent => "not_in_component"
    case InHc => "in_hc"
    case NotInHc => "not_in_hc"
  }

  function TagOf(name: string): Option<Tag> {
    if name == NameOf(And) then Some(And)
    else if name == NameOf(Or) then Some(Or)
    else if name == NameOf(InCluster) then Some(InCluster)
    else if name == NameOf(InService) then Some(InService)
    else if name == NameOf(NotInService) then Some(NotInService)
    else if name == NameOf(InComponent) then Some(InComponent)
    else if name == NameOf(NotInComponent) then Some(NotInComponent)
    else if name == NameOf(InHc) then Some(InHc)
    else if name == NameOf(NotInHc) then Some(NotInHc)
    else None
  }

  lemma TagOfName(tag: Tag)
    ensures TagOf(NameOf(tag)) == Some(tag)
  {
    assert NameOf(And)[0] == 'a' && NameOf(Or)[0] == 'o' && NameOf(InCluster)[3] == 'c' && NameOf(InService)[3] == 's';
    assert NameOf(InHc)[3] == 'h' && NameOf(InCluster)[4] == 'l' && NameOf(InComponent)[4] == 'o';
    assert NameOf(NotInService)[7] == 's' && NameOf(NotInComponent)[7] == 'c' && NameOf(NotInHc)[7] == 'h';
    assert NameOf(InCluster)[0] == 'i' && NameOf(InService)[0] == 'i' && NameOf(InComponent)[0] == 'i'
           && NameOf(InHc)[0] == 'i';
    assert NameOf(NotInService)[0] == 'n' && NameOf(NotInComponent)[0] == 'n' && NameOf(NotInHc)[0] == 'n';
  }

  /** The nine names as they are written. */
  lemma TagOfText()
    ensures TagOf("and") == Some(And) && TagOf("or") == Some(Or)
    ensures TagOf("in_cluster") == Some(InCluster)
    ensures TagOf("in_service") == Some(InService) && TagOf("not_in_service") == Some(NotInService)
    ensures TagOf("in_component") == Some(InComponent) && TagOf("not_in_component") == Some(NotInComponent)
    ensures TagOf("in_hc") == Some(InHc) && TagOf("not_in_hc") == Some(NotInHc)
  {
    hide TagOf;
    TagOfName(And);
    TagOfName(Or);
    TagOfName(InCluster);
    TagOfName(InService);
    TagOfName(NotInService);
    TagOfName(InComponent);
    TagOfName(NotInComponent);
    TagOfName(InHc);
    TagOfName(NotInHc);
  }

  // ---------- what an argument means ----------

  /** Nothing, a dictionary as it is, a set of hosts, several of them, or an error. */
  datatype Meaning =
    | Nothing
    | Given(dict: Args)
    | Names(hosts: set<HostName>)
    | Several(lists: seq<set<HostName>>)
    | Error

  datatype Target = Wrong | Absent | Present(service: int, component: Option<int>)

  predicate AboutComponent(tag: Tag) {
    tag == InComponent || tag == NotInComponent
  }

  function Find(cl: Cluster, service: string, component: Option<string>): Target {
    if service !in cl.services then Absent
    else if component.None? then Present(cl.services[service], None)
    else if (cl.services[service], component.value) !in cl.components then Absent
    else Present(cl.services[service], Some(cl.components[(cl.services[service], component.value)]))
  }

  /** The object a membership test names; an unknown service is noticed before a missing component. */
  function TargetOf(cl: Cluster, tag: Tag, args: Meaning): Target {
    if !args.Given? || !args.dict.Dict? || args.dict.service.None? then Wrong
    else if !AboutComponent(tag) then Find(cl, args.dict.service.value, None)
    else if args.dict.service.value in cl.services && args.dict.component.None? then Wrong
    else Find(cl, args.dict.service.value, args.dict.component)
  }

  predicate OnTarget(t: Target, row: HcRow)
    requires t.Present?
  {
    row.service == t.service && (t.component.Some? ==> row.component == t.component.value)
  }

  /** Exclusion from a component looks at the component only. */
  predicate Excludes(t: Target, row: HcRow)
    requires t.Present?
  {
    if t.component.Some? then row.component == t.component.value else row.service == t.service
  }

  function HostsOn(cl: Cluster, t: Target): set<HostName>
    requires t.Present?
  {
    set row | row in cl.hcs && OnTarget(t, row) :: row.host
  }

  function ExcludedHosts(cl: Cluster, t: Target): set<HostName>
    requires t.Present?
  {
    set row | row in cl.hcs && Excludes(t, row) :: row.host
  }

  function MappedHosts(cl: Cluster): set<HostName> {
    set row | row in cl.hcs :: row.host
  }

  function Union(lists: seq<set<HostName>>): set<HostName> {
    if lists == [] then {} else Union(lists[..|lists| - 1]) + lists[|lists| - 1]
  }

  function Shared(lists: seq<set<HostName>>): set<HostName>
    requires lists != []
  {
    if |lists| == 1 then lists[0] else Shared(lists[..|lists| - 1]) * lists[|lists| - 1]
  }

  /** What iterating over a name gives: its letters, each a text of its own. */
  function Letters(h: HostName): (letters: seq<HostName>)
    ensures |letters| == |h|
  {
    seq(|h|, i requires 0 <= i < |h| => [h[i]])
  }

  function SomeLetters(hosts: set<HostName>): set<HostName> {
    set h, c | h in hosts && c in Letters(h) :: c
  }

  function CommonLetters(hosts: set<HostName>): set<HostName> {
    set c | c in SomeLetters(hosts) && forall h :: h in hosts ==> c in Letters(h)
  }

  /** And and or expect several lists; given one list of hosts they take each name for a list. */
  function Apply(cl: Cluster, tag: Tag, args: Meaning): Meaning {
    if args.Error? then Error
    else
      match tag
      case And =>
        if args.Several? then Names(if args.lists == [] then {} else Shared(args.lists))
        else if args.Names? then Names(CommonLetters(args.hosts))
        else Error
      case Or =>
        if args.Several? then Names(Union(args.lists))
        else if args.Names? then Names(SomeLetters(args.hosts))
        else Error
      case InCluster => Names(AsSet(cl.hosts))
      case InHc => Names(MappedHosts(cl))
      case NotInHc => Names(AsSet(cl.hosts) - MappedHosts(cl))
      case InService | InComponent =>
        var t := TargetOf(cl, tag, args);
        if t.Wrong? then Error else if t.Absent? then Names({}) else Names(HostsOn(cl, t))
      case NotInService | NotInComponent =>
        var t := TargetOf(cl, tag, args);
        if t.Wrong? then Error else if t.Absent? then Names({}) else Names(AsSet(cl.hosts) - ExcludedHosts(cl, t))
  }

  function Eval(cl: Cluster, a: Args): Meaning
    decreases a, 1
  {
    match a
    case Null => Nothing
    case Dict(_, _) => Given(a)
    case Scalar => Error
    case Predicate(name, args) =>
      if TagOf(name).None? || args.None? then Error else Apply(cl, TagOf(name).value, Eval(cl, args.value))
    case Items(items) => EvalItems(cl, a, |items|)
  }

  /** The first `k` items, up to the first that is not a predicate or is wrong. */
  function EvalItems(cl: Cluster, a: Args, k: nat): (m: Meaning)
    requires a.Items? && k <= |a.items|
    ensures m.Error? || (m.Several? && |m.lists| == k)
    decreases a, 0, k
  {
    if k == 0 then Several([])
    else
      var earlier := EvalItems(cl, a, k - 1);
      if earlier.Error? || !a.items[k - 1].Predicate? then Error
      else
        var m := Eval(cl, a.items[k - 1]);
        if m.Names? then Several(earlier.lists + [m.hosts]) else Error
  }

  // ---------- the solver ----------

  /** The lists the original works with. */
  datatype Answer =
    | NoAnswer
    | TheDict(dict: Args)
    | HostList(names: seq<HostName>)
    | HostLists(lists: seq<seq<HostName>>)
    | Failure

  ghost predicate Lists(names: seq<HostName>, hosts: set<HostName>) {
    AsSet(names) == hosts && Ascending(names)
  }

  ghost predicate Represents(r: Answer, m: Meaning) {
    match m
    case Nothing => r == NoAnswer
    case Given(d) => r == TheDict(d)
    case Names(hosts) => r.HostList? && Lists(r.names, hosts)
    case Several(lists) =>
      r.HostLists? && |r.lists| == |lists| && forall i :: 0 <= i < |lists| ==> Lists(r.lists[i], lists[i])
    case Error => r == Failure
  }

  /** Only a list of the hosts of mapping rows may repeat a host. */
  predicate MayRepeat(tag: Tag) {
    tag == InService || tag == InComponent || tag == InHc
  }

  method VarHostSolver(cl: Cluster, a: Args) returns (r: Answer)
    requires WellFormed(cl)
    ensures Represents(r, Eval(cl, a))
    ensures a.Predicate? && r.HostList? ==> TagOf(a.name).Some? && (!MayRepeat(TagOf(a.name).value) ==> Strict(r.names))
    decreases a
  {
    hide WellFormed, TagOf, MayRepeat, Strict, TargetOf;
    match a
    case Null => r := NoAnswer;
    case Dict(_, _) => r := TheDict(a);
    case Scalar => r := Failure;
    case Predicate(name, args) =>
      if TagOf(name).None? || args.None? {
        return Failure;
      }
      var inner := VarHostSolver(cl, args.value);
      if inner.Failure? {
        return Failure;
      }
      r := CallFunction(cl, TagOf(name).value, inner, Eval(cl, args.value));
    case Items(items) =>
      var res: seq<seq<HostName>> := [];
      for k := 0 to |items|
        invariant Represents(HostLists(res), EvalItems(cl, a, k))
      {
        if !items[k].Predicate? {
          ErrorStays(cl, a, k + 1, |items|);
          return Failure;
        }
        var one := VarHostSolver(cl, items[k]);
        if !one.HostList? {
          ErrorStays(cl, a, k + 1, |items|);
          return Failure;
        }
        res := res + [one.names];
      }
      r := HostLists(res);
  }

  lemma {:induction false} ErrorStays(cl: Cluster, a: Args, i: nat, k: nat)
    requires a.Items? && i <= k <= |a.items| && EvalItems(cl, a, i).Error?
    ensures EvalItems(cl, a, k).Error?
    decreases k
  {
    if i < k {
      ErrorStays(cl, a, i, k - 1);
    }
  }

  method CallFunction(cl: Cluster, tag: Tag, args: Answer, ghost m: Meaning) returns (r: Answer)
    requires WellFormed(cl) && Represents(args, m) && !args.Failure?
    ensures Represents(r, Apply(cl, tag, m))
    ensures r.HostList? && !MayRepeat(tag) ==> Strict(r.names)
  {
    hide HostsOn, ExcludedHosts, MappedHosts, WellFormed, Ascending, Strict, AsSet, Shared, Union;
    match tag
    case And | Or =>
      if args.HostLists? {
        var names := VarHostAndOr(tag == And, args.lists, m.lists);
        r := HostList(names);
      } else if args.HostList? {
        var lists := seq(|args.names|, i requires 0 <= i < |args.names| => Letters(args.names[i]));
        ghost var sets := LetterSets(args.names);
        var names := VarHostAndOr(tag == And, lists, sets);
        LettersOfAll(args.names);
        r := HostList(names);
      } else {
        r := Failure;
      }
    case InCluster | InHc | NotInHc =>
      var names := AllHosts(cl, tag);
      r := HostList(names);
    case _ =>
      if !args.TheDict? {
        return Failure;
      }
      var t := TargetOf(cl, tag, Given(args.dict));
      if t.Wrong? {
        return Failure;
      }
      var names := MemberHosts(cl, tag == InService || tag == InComponent, t);
      r := HostList(names);
  }

  function LetterSets(names: seq<HostName>): (sets: seq<set<HostName>>)
    ensures |sets| == |names| && forall i :: 0 <= i < |names| ==> sets[i] == AsSet(Letters(names[i]))
  {
    seq(|names|, i requires 0 <= i < |names| => AsSet(Letters(names[i])))
  }

  lemma LettersOfAll(names: seq<HostName>)
    ensures Union(LetterSets(names)) == SomeLetters(AsSet(names))
    ensures names != [] ==> Shared(LetterSets(names)) == CommonLetters(AsSet(names))
    ensures names == [] ==> CommonLetters(AsSet(names)) == {}
  {
    hide Letters, Union, Shared;
    var sets := LetterSets(names);
    forall c ensures c in Union(sets) <==> c in SomeLetters(AsSet(names)) {
      UnionMeaning(sets, c);
      assert forall i :: 0 <= i < |names| ==> names[i] in AsSet(names);
    }
    if names != [] {
      forall c ensures c in Shared(sets) <==> c in CommonLetters(AsSet(names)) {
        SharedMeaning(sets, c);
        assert forall i :: 0 <= i < |names| ==> names[i] in AsSet(names);
        assert c in Shared(sets) ==> c in Letters(names[0]);
      }
    }
  }

  method VarHostAndOr(conjunction: bool, lists: seq<seq<HostName>>, ghost sets: seq<set<HostName>>)
    returns (names: seq<HostName>)
    requires |lists| == |sets| && forall i :: 0 <= i < |lists| ==> AsSet(lists[i]) == sets[i]
    ensures Strict(names)
    ensures Lists(names, if !conjunction then Union(sets) else if sets == [] then {} else Shared(sets))
  {
    if lists == [] {
      return [];
    }
    var s := AsSet(lists[0]);
    assert sets[..1][..0] == [] && sets[..1][0] == sets[0];
    for i := 1 to |lists|
      invariant s == if conjunction then Shared(sets[..i]) else Union(sets[..i])
    {
      s := if conjunction then s * AsSet(lists[i]) else s + AsSet(lists[i]);
      assert sets[..i + 1][..i] == sets[..i];
    }
    assert sets[..|sets|] == sets;
    names := SortedSet(s);
  }

  method SortedSet(s: set<HostName>) returns (names: seq<HostName>)
    ensures Strict(names) && Lists(names, s)
  {
    hide TextOrder.Compare;
    names := [];
    var rest := s;
    while rest != {}
      invariant rest <= s
      invariant Strict(names) && AsSet(names) == s - rest
      invariant forall h, g :: h in names && g in rest ==> Before(h, g)
    {
      var h := Least(rest);
      AppendStrict(names, h);
      forall g | g in rest && g != h ensures Before(h, g) {
        TextOrder.EqualIff(g, h);
        TextOrder.Swap(g, h);
      }
      names := names + [h];
      rest := rest - {h};
    }
    StrictAscends(names);
  }

  method Least(s: set<HostName>) returns (least: HostName)
    requires s != {}
    ensures least in s && forall h :: h in s ==> !Before(h, least)
  {
    hide TextOrder.Compare;
    least := PickOne(s);
    TextOrder.EqualIff(least, least);
    var rest := s - {least};
    while rest != {}
      invariant rest <= s && least in s
      invariant forall h :: h in s && h !in rest ==> !Before(h, least)
    {
      var h := PickOne(rest);
      if Before(h, least) {
        forall g | !Before(g, least) ensures !Before(g, h) {
          BeforeAll(h, least, g);
        }
        TextOrder.EqualIff(h, h);
        least := h;
      }
      rest := rest - {h};
    }
  }

  lemma BeforeAll(h: HostName, least: HostName, g: HostName)
    requires Before(h, least) && !Before(g, least)
    ensures !Before(g, h)
  {
    TextOrder.Swap(g, least);
    TextOrder.Swap(g, h);
    TextOrder.Transitive(h, least, g);
  }

  lemma AppendStrict(names: seq<HostName>, h: HostName)
    requires Strict(names) && forall g :: g in names ==> Before(g, h)
    ensures Strict(names + [h]) && AsSet(names + [h]) == AsSet(names) + {h}
    ensures Ascending(names + [h])
  {
    assert forall i :: 0 <= i < |names| ==> names[i] in names;
    StrictAscends(names + [h]);
  }

  lemma StrictAscends(names: seq<HostName>)
    requires Strict(names)
    ensures Ascending(names)
  {
    hide TextOrder.Compare;
    forall i, j | 0 <= i < j < |names| ensures !Before(names[j], names[i]) {
      TextOrder.Swap(names[i], names[j]);
    }
  }

  lemma AppendAscending(names: seq<HostName>, h: HostName)
    requires Ascending(names) && forall g :: g in names ==> !Before(h, g)
    ensures Ascending(names + [h]) && AsSet(names + [h]) == AsSet(names) + {h}
  {
    assert forall i :: 0 <= i < |names| ==> names[i] in names;
  }

  method AllHosts(cl: Cluster, tag: Tag) returns (names: seq<HostName>)
    requires WellFormed(cl) && (tag == InCluster || tag == InHc || tag == NotInHc)
    ensures Lists(names, if tag == InCluster then AsSet(cl.hosts)
                         else if tag == InHc then MappedHosts(cl)
                         else AsSet(cl.hosts) - MappedHosts(cl))
    ensures tag != InHc ==> Strict(names)
  {
    if tag == InHc {
      names := RowHosts(cl, row => true);
    } else {
      names := HostsExcept(cl, if tag == InCluster then {} else MappedHosts(cl));
    }
  }

  method MemberHosts(cl: Cluster, inside: bool, t: Target) returns (names: seq<HostName>)
    requires WellFormed(cl) && !t.Wrong?
    ensures Lists(names, if t.Absent? then {}
                         else if inside then HostsOn(cl, t)
                         else AsSet(cl.hosts) - ExcludedHosts(cl, t))
    ensures !inside ==> Strict(names)
  {
    if t.Absent? {
      names := [];
    } else if inside {
      names := RowHosts(cl, row => OnTarget(t, row));
    } else {
      names := HostsExcept(cl, ExcludedHosts(cl, t));
    }
  }

  /** The rows that pass, in their order. */
  method RowHosts(cl: Cluster, passes: HcRow -> bool) returns (names: seq<HostName>)
    requires WellFormed(cl)
    ensures Lists(names, set row | row in cl.hcs && passes(row) :: row.host)
  {
    names := [];
    for i := 0 to |cl.hcs|
      invariant Lists(names, set row | row in cl.hcs[..i] && passes(row) :: row.host)
    {
      var row := cl.hcs[i];
      assert cl.hcs[..i + 1] == cl.hcs[..i] + [row];
      if passes(row) {
        forall g | g in names ensures !Before(row.host, g) {
          assert g in AsSet(names);
        }
        AppendAscending(names, row.host);
        names := names + [row.host];
      }
    }
    assert cl.hcs[..|cl.hcs|] == cl.hcs;
  }

  method HostsExcept(cl: Cluster, excluded: set<HostName>) returns (names: seq<HostName>)
    requires WellFormed(cl)
    ensures Strict(names) && Lists(names, AsSet(cl.hosts) - excluded)
  {
    names := [];
    for i := 0 to |cl.hosts|
      invariant Strict(names) && Ascending(names) && AsSet(names) == AsSet(cl.hosts[..i]) - excluded
    {
      assert cl.hosts[..i + 1] == cl.hosts[..i] + [cl.hosts[i]];
      if cl.hosts[i] !in excluded {
        forall g | g in names ensures Before(g, cl.hosts[i]) {
          assert g in AsSet(names);
        }
        AppendStrict(names, cl.hosts[i]);
        names := names + [cl.hosts[i]];
      }
    }
    assert cl.hosts[..|cl.hosts|] == cl.hosts;
  }

  // ---------- expressions and what they denote ----------

  datatype Expr =
    | AndE(parts: seq<Expr>)
    | OrE(parts: seq<Expr>)
    | InClusterE
    | InServiceE(service: string)
    | NotInServiceE(service: string)
    | InComponentE(service: string, component: string)
    | NotInComponentE(service: string, component: string)
    | InHcE
    | NotInHcE

  function Written(tag: Tag, args: Args): Args {
    Predicate(NameOf(tag), Some(args))
  }

  function Write(e: Expr): (a: Args)
    ensures a.Predicate?
    decreases e, 1
  {
    match e
    case AndE(parts) => Predicate("and", Some(Items(WriteAll(e, |parts|))))
    case OrE(parts) => Predicate("or", Some(Items(WriteAll(e, |parts|))))
    case InClusterE => Predicate("in_cluster", Some(Null))
    case InServiceE(s) => Predicate("in_service", Some(Dict(Some(s), None)))
    case NotInServiceE(s) => Predicate("not_in_service", Some(Dict(Some(s), None)))
    case InComponentE(s, c) => Predicate("in_component", Some(Dict(Some(s), Some(c))))
    case NotInComponentE(s, c) => Predicate("not_in_component", Some(Dict(Some(s), Some(c))))
    case InHcE => Predicate("in_hc", Some(Null))
    case NotInHcE => Predicate("not_in_hc", Some(Null))
  }

  function WriteAll(e: Expr, k: nat): (items: seq<Args>)
    requires (e.AndE? || e.OrE?) && k <= |e.parts|
    ensures |items| == k && forall i :: 0 <= i < k ==> items[i] == Write(e.parts[i])
    decreases e, 0, k
  {
    if k == 0 then [] else WriteAll(e, k - 1) + [Write(e.parts[k - 1])]
  }

  ghost predicate OnService(cl: Cluster, service: int, h: HostName) {
    exists row :: row in cl.hcs && row.host == h && row.service == service
  }

  ghost predicate OnComponent(cl: Cluster, component: int, h: HostName) {
    exists row :: row in cl.hcs && row.host == h && row.component == component
  }

  ghost predicate Mapped(cl: Cluster, h: HostName) {
    exists row :: row in cl.hcs && row.host == h
  }

  function ComponentId(cl: Cluster, s: string, c: string): Option<int> {
    if s in cl.services && (cl.services[s], c) in cl.components then Some(cl.components[(cl.services[s], c)]) else None
  }

  /** Whether an expression picks a host of the cluster. */
  ghost predicate Picks(cl: Cluster, e: Expr, h: HostName) {
    match e
    case AndE(parts) => parts != [] && forall i :: 0 <= i < |parts| ==> Picks(cl, parts[i], h)
    case OrE(parts) => exists i :: 0 <= i < |parts| && Picks(cl, parts[i], h)
    case InClusterE => h in cl.hosts
    case InServiceE(s) => h in cl.hosts && s in cl.services && OnService(cl, cl.services[s], h)
    case NotInServiceE(s) => h in cl.hosts && s in cl.services && !OnService(cl, cl.services[s], h)
    case InComponentE(s, c) =>
      h in cl.hosts && ComponentId(cl, s, c).Some? && OnComponent(cl, ComponentId(cl, s, c).value, h)
    case NotInComponentE(s, c) =>
      h in cl.hosts && ComponentId(cl, s, c).Some? && !OnComponent(cl, ComponentId(cl, s, c).value, h)
    case InHcE => h in cl.hosts && Mapped(cl, h)
    case NotInHcE => h in cl.hosts && !Mapped(cl, h)
  }

  /** A component's rows are rows of its service. */
  ghost predicate RowsOfService(cl: Cluster) {
    forall k, row :: k in cl.components && row in cl.hcs && row.component == cl.components[k] ==> row.service == k.0
  }

  lemma {:induction false} SharedMeaning(lists: seq<set<HostName>>, h: HostName)
    requires lists != []
    ensures h in Shared(lists) <==> forall i :: 0 <= i < |lists| ==> h in lists[i]
  {
    if |lists| > 1 {
      SharedMeaning(lists[..|lists| - 1], h);
      assert lists == lists[..|lists| - 1] + [lists[|lists| - 1]];
    }
  }

  lemma {:induction false} UnionMeaning(lists: seq<set<HostName>>, h: HostName)
    ensures h in Union(lists) <==> exists i :: 0 <= i < |lists| && h in lists[i]
  {
    if lists != [] {
      UnionMeaning(lists[..|lists| - 1], h);
      assert lists == lists[..|lists| - 1] + [lists[|lists| - 1]];
    }
  }

  /** Every written expression is solved, and to the hosts it picks. */
  lemma {:induction false} SolverPicks(cl: Cluster, e: Expr)
    requires WellFormed(cl) && RowsOfService(cl)
    ensures Eval(cl, Write(e)).Names?
    ensures IsPicked(cl, e, Eval(cl, Write(e)).hosts)
    decreases e, 1
  {
    match e
    case AndE(parts) =>
      PartsPick(cl, e, |parts|);
      AllPick(cl, e, EvalItems(cl, Items(WriteAll(e, |parts|)), |parts|).lists);
    case OrE(parts) =>
      PartsPick(cl, e, |parts|);
      AnyPicks(cl, e, EvalItems(cl, Items(WriteAll(e, |parts|)), |parts|).lists);
    case _ => LeafPicks(cl, e);
  }

  lemma AllPick(cl: Cluster, e: Expr, lists: seq<set<HostName>>)
    requires e.AndE? && |lists| == |e.parts| && forall i :: 0 <= i < |lists| ==> IsPicked(cl, e.parts[i], lists[i])
    requires EvalItems(cl, Items(WriteAll(e, |e.parts|)), |e.parts|) == Several(lists)
    ensures Eval(cl, Write(e)).Names? && IsPicked(cl, e, Eval(cl, Write(e)).hosts)
  {
    TagOfText();
    assert Eval(cl, Write(e)) == Apply(cl, And, Several(lists));
    hide Eval, EvalItems, TagOf, NameOf, WriteAll, Shared;
    forall h ensures h in Eval(cl, Write(e)).hosts <==> Picks(cl, e, h) {
      if lists != [] {
        SharedMeaning(lists, h);
        assert forall i :: 0 <= i < |lists| ==> (h in lists[i] <==> Picks(cl, e.parts[i], h));
      }
    }
  }

  lemma AnyPicks(cl: Cluster, e: Expr, lists: seq<set<HostName>>)
    requires e.OrE? && |lists| == |e.parts| && forall i :: 0 <= i < |lists| ==> IsPicked(cl, e.parts[i], lists[i])
    requires EvalItems(cl, Items(WriteAll(e, |e.parts|)), |e.parts|) == Several(lists)
    ensures Eval(cl, Write(e)).Names? && IsPicked(cl, e, Eval(cl, Write(e)).hosts)
  {
    TagOfText();
    assert Eval(cl, Write(e)) == Apply(cl, Or, Several(lists));
    hide Eval, EvalItems, TagOf, NameOf, WriteAll, Union;
    forall h ensures h in Eval(cl, Write(e)).hosts <==> Picks(cl, e, h) {
      UnionMeaning(lists, h);
      assert forall i :: 0 <= i < |lists| ==> (h in lists[i] <==> Picks(cl, e.parts[i], h));
    }
  }

  lemma LeafPicks(cl: Cluster, e: Expr)
    requires WellFormed(cl) && RowsOfService(cl) && !e.AndE? && !e.OrE?
    ensures Eval(cl, Write(e)).Names? && IsPicked(cl, e, Eval(cl, Write(e)).hosts)
  {
    TagOfText();
    hide NameOf, TagOf, Strict;
  }

  lemma {:induction false} PartsPick(cl: Cluster, e: Expr, k: nat)
    requires WellFormed(cl) && RowsOfService(cl) && (e.AndE? || e.OrE?) && k <= |e.parts|
    ensures var m := EvalItems(cl, Items(WriteAll(e, |e.parts|)), k);
            m.Several? && |m.lists| == k && forall i :: 0 <= i < k ==> IsPicked(cl, e.parts[i], m.lists[i])
    decreases e, 0, k
  {
    hide Eval, Picks, IsPicked, WellFormed, RowsOfService, Write, WriteAll;
    if k > 0 {
      PartsPick(cl, e, k - 1);
      SolverPicks(cl, e.parts[k - 1]);
    }
  }

  ghost predicate IsPicked(cl: Cluster, e: Expr, hosts: set<HostName>) {
    forall h :: h in hosts <==> Picks(cl, e, h)
  }

  /** Only hosts of the cluster are picked; the two sides of a membership test part them all when
      what they test for exists, and pick none when it does not. */
  lemma InOrNotIn(cl: Cluster, h: HostName, s: string, c: string)
    ensures Picks(cl, InServiceE(s), h) != Picks(cl, NotInServiceE(s), h) <==> h in cl.hosts && s in cl.services
    ensures !(Picks(cl, InServiceE(s), h) && Picks(cl, NotInServiceE(s), h))
    ensures Picks(cl, InComponentE(s, c), h) != Picks(cl, NotInComponentE(s, c), h) <==>
            h in cl.hosts && ComponentId(cl, s, c).Some?
    ensures !(Picks(cl, InComponentE(s, c), h) && Picks(cl, NotInComponentE(s, c), h))
    ensures Picks(cl, InHcE, h) != Picks(cl, NotInHcE, h) <==> h in cl.hosts
    ensures !(Picks(cl, InHcE, h) && Picks(cl, NotInHcE, h))
  {
  }

  lemma {:induction false} PicksWithinCluster(cl: Cluster, e: Expr, h: HostName)
    ensures Picks(cl, e, h) ==> h in cl.hosts
  {
    match e
    case AndE(parts) =>
      if parts != [] {
        PicksWithinCluster(cl, parts[0], h);
      }
    case OrE(parts) =>
      forall i | 0 <= i < |parts| ensures Picks(cl, parts[i], h) ==> h in cl.hosts {
        PicksWithinCluster(cl, parts[i], h);
      }
    case _ =>
  }

  /** An and or an or given one predicate picks names inside the cluster only as far as their
      letters are names of its hosts. */
  lemma SinglePredicateIff(cl: Cluster, a: Args)
    requires Eval(cl, a).Names?
    ensures Eval(cl, Written(Or, a)).Names? && Eval(cl, Written(And, a)).Names?
    ensures Eval(cl, Written(Or, a)).hosts <= AsSet(cl.hosts) <==>
            forall h, c :: h in Eval(cl, a).hosts && c in Letters(h) ==> c in cl.hosts
    ensures Eval(cl, Written(And, a)).hosts <= AsSet(cl.hosts) <==>
            Eval(cl, a).hosts == {} ||
            forall c :: (forall h :: h in Eval(cl, a).hosts ==> c in Letters(h)) ==> c in cl.hosts
  {
    TagOfName(And);
    TagOfName(Or);
    assert Eval(cl, Written(Or, a)) == Apply(cl, Or, Eval(cl, a));
    assert Eval(cl, Written(And, a)) == Apply(cl, And, Eval(cl, a));
    hide Eval, TagOf, NameOf, Letters;
    var some := SomeLetters(Eval(cl, a).hosts);
    assert some <= AsSet(cl.hosts) <==> forall c :: c in some ==> c in cl.hosts;
    var common := CommonLetters(Eval(cl, a).hosts);
    assert common <= AsSet(cl.hosts) <==> forall c :: c in common ==> c in cl.hosts;
    if Eval(cl, a).hosts != {} {
      forall c ensures c in common <==> forall h :: h in Eval(cl, a).hosts ==> c in Letters(h) {
        var g :| g in Eval(cl, a).hosts;
        assert c in Letters(g) ==> c in some;
      }
    }
  }

  /** A failing case: an or over the only host of a cluster picks its letters, which are no hosts. */
  lemma SinglePredicateLeaves()
    ensures var cl := Cluster(["h1"], [], map[], map[]);
            var a := Written(Or, Written(InCluster, Null));
            WellFormed(cl) && Eval(cl, a).Names? && "h" in Eval(cl, a).hosts && "h" !in cl.hosts
  {
    var cl := Cluster(["h1"], [], map[], map[]);
    TagOfName(Or);
    TagOfName(InCluster);
    hide NameOf, TagOf;
    assert Eval(cl, Written(InCluster, Null)) == Names(AsSet(cl.hosts));
    assert Eval(cl, Written(Or, Written(InCluster, Null))) == Names(SomeLetters(AsSet(cl.hosts)));
    assert "h1" in AsSet(cl.hosts) && Letters("h1")[0] == "h" && "h" in Letters("h1");
    assert "h" in SomeLetters(AsSet(cl.hosts));
    assert |"h"| == 1 && |"h1"| == 2;
  }

  /** What a membership test makes of its arguments: nothing without a service name; no hosts for a service
      that is not there, whatever else is given; and for a test of a component, an error without its name
      and no hosts if it is not there. */
  lemma MembershipArguments(cl: Cluster, tag: Tag, a: Meaning)
    requires tag in {InService, NotInService, InComponent, NotInComponent}
    ensures !a.Given? || !a.dict.Dict? || a.dict.service.None? ==> Apply(cl, tag, a).Error?
    ensures a.Given? && a.dict.Dict? && a.dict.service.Some? ==>
              && (a.dict.service.value !in cl.services ==> Apply(cl, tag, a) == Names({}))
              && (a.dict.service.value in cl.services ==>
                    if tag == InService || tag == NotInService then Apply(cl, tag, a).Names?
                    else if a.dict.component.None? then Apply(cl, tag, a).Error?
                    else if (cl.services[a.dict.service.value], a.dict.component.value) !in cl.components
                      then Apply(cl, tag, a) == Names({})
                    else Apply(cl, tag, a).Names?)
  {
  }

  /** Anything but nine names, a predicate without arguments, and a scalar are errors. */
  lemma UnknownIsError(cl: Cluster, name: string, args: Args)
    requires name !in ["and", "or", "in_cluster", "in_service", "not_in_service", "in_component", "not_in_component",
                       "in_hc", "not_in_hc"]
    ensures Eval(cl, Predicate(name, Some(args))).Error?
    ensures Eval(cl, Predicate(name, None)).Error? && Eval(cl, Scalar).Error?
    ensures Eval(cl, Null) == Nothing
  {
  }

  /** And and or take a list of predicates or one predicate, and nothing else. */
  lemma AndOrArguments(cl: Cluster, a: Meaning)
    ensures Apply(cl, And, a).Error? <==> !a.Several? && !a.Names?
    ensures Apply(cl, Or, a).Error? <==> !a.Several? && !a.Names?
  {
  }

  /** A list is solved iff every item is a predicate that picks hosts, and then item by item. */
  lemma {:induction false} ListIff(cl: Cluster, a: Args, k: nat)
    requires a.Items? && k <= |a.items|
    ensures var m := EvalItems(cl, a, k);
            && (m.Several? <==> forall i :: 0 <= i < k ==> a.items[i].Predicate? && Eval(cl, a.items[i]).Names?)
            && (m.Several? ==> |m.lists| == k && forall i :: 0 <= i < k ==> m.lists[i] == Eval(cl, a.items[i]).hosts)
    decreases k
  {
    hide Eval;
    if k > 0 {
      ListIff(cl, a, k - 1);
    }
  }
}
