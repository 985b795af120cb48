/** The recursive schema checker for parsed YAML: what it accepts, what it raises, and where the
    errors it raises point. */
module Checker {
  import opened Common

  /** A hashable value up to Python equality: `True`, `1` and `1.0` are one atom. */
  datatype Atom = NullAtom | NumberAtom(n: real) | TextAtom(s: string)

  datatype Value =
    | Null
    | Bool(b: bool)
    | Int(n: int)
    | Float(r: real)
    | Text(s: string)
    | List(items: seq<Value>)
    | Dict(entries: seq<Entry>)

  datatype Entry = Entry(key: Atom, value: Value)

  datatype Spec =
    | NoMatch          // the rule has no `match`
    | UnknownMatch     // its `match` is not in the table
    | AnyRule
    | NoneRule
    | StringRule
    | BoolRule
    | IntRule
    | FloatRule
    | SetRule(allowed: seq<Value>)
    | ListRule(item: string)
    | DictRule(required: seq<Atom>, items: map<Atom, string>, defaultItem: Option<string>)
    | OneOfRule(alternatives: seq<string>)
    | SelectionRule(selector: Atom, variants: map<Atom, string>, defaultVariant: Option<string>)

  datatype Rule = Rule(spec: Spec, invisibleItems: bool)

  type Schema = map<string, Rule>

  datatype Step = Index(i: nat) | MapKey(key: Atom)

  type Path = seq<Step>

  datatype FormatError = FormatError(path: Path, data: Value, rule: string, causes: seq<FormatError>)

  datatype Outcome =
    | Passed
    | Failed(error: FormatError)
    | SchemaError(rule: string)
    | TypeError(unhashable: Value)
    | KeyError(rule: string)

  // ---------- Python equality ----------

  /** The atom of a scalar; lists and dictionaries are not hashable. */
  function AtomOf(v: Value): Option<Atom> {
    match v
    case Null => Some(NullAtom)
    case Bool(b) => Some(NumberAtom(if b then 1.0 else 0.0))
    case Int(n) => Some(NumberAtom(n as real))
    case Float(r) => Some(NumberAtom(r))
    case Text(s) => Some(TextAtom(s))
    case _ => None
  }

  /** `data in variants` for a list of scalars. */
  predicate InSet(v: Value, allowed: seq<Value>) {
    AtomOf(v).Some? && exists i :: 0 <= i < |allowed| && AtomOf(allowed[i]) == AtomOf(v)
  }

  // ---------- looking into a document ----------

  predicate HasKey(v: Value, k: Atom)
    requires v.Dict?
  {
    exists i :: 0 <= i < |v.entries| && v.entries[i].key == k
  }

  function Get(entries: seq<Entry>, k: Atom): (r: Option<Value>)
    ensures r.Some? <==> exists i :: 0 <= i < |entries| && entries[i].key == k
    ensures r.Some? ==> exists i :: 0 <= i < |entries| && entries[i].key == k && entries[i].value == r.value
  {
    if entries == [] then None
    else if entries[|entries| - 1].key == k then Some(entries[|entries| - 1].value)
    else Get(entries[..|entries| - 1], k)
  }

  /** A dictionary has one entry for a key. */
  ghost predicate DistinctKeys(v: Value) {
    match v
    case List(items) => forall i :: 0 <= i < |items| ==> DistinctKeys(items[i])
    case Dict(entries) =>
      && (forall i, j :: 0 <= i < j < |entries| ==> entries[i].key != entries[j].key)
      && forall i :: 0 <= i < |entries| ==> DistinctKeys(entries[i].value)
    case _ => true
  }

  function Child(v: Value, step: Step): Option<Value> {
    match step
    case Index(i) => if v.List? && i < |v.items| then Some(v.items[i]) else None
    case MapKey(k) => if v.Dict? then Get(v.entries, k) else None
  }

  /** Following a path from the document down. */
  function At(root: Value, path: Path): Option<Value> {
    if path == [] then Some(root)
    else
      match At(root, path[..|path| - 1])
      case None => None
      case Some(v) => Child(v, path[|path| - 1])
  }

  // ---------- schemas ----------

  /** Rules a rule hands the same value to. */
  function SameValueRefs(rule: Rule): set<string> {
    match rule.spec
    case OneOfRule(alternatives) => set a | a in alternatives
    case SelectionRule(_, variants, defaultVariant) =>
      variants.Values + (if defaultVariant.Some? then {defaultVariant.value} else {})
    case _ => {}
  }

  ghost predicate Ranks(s: Schema, rank: map<string, nat>) {
    && rank.Keys == s.Keys
    && forall name, ref :: name in s && ref in SameValueRefs(s[name]) && ref in s ==> rank[ref] < rank[name]
  }

  /** Without this the original recurses for ever on some input. */
  ghost predicate Layered(s: Schema) {
    exists rank :: Ranks(s, rank)
  }

  ghost function Rank(s: Schema, name: string): nat
    requires Layered(s)
  {
    var rank :| Ranks(s, rank);
    if name in rank then rank[name] + 1 else 0
  }

  predicate Contains(text: string, part: string) {
    exists i :: 0 <= i <= |text| - |part| && text[i..][..|part|] == part
  }

  /** The test for a default looks at the rule's name, not at the rule. */
  predicate LooksForDefault(name: string) {
    Contains(name, "default_variant")
  }

  function RuleForKey(spec: Spec, k: Atom): Option<string>
    requires spec.DictRule?
  {
    if k in spec.items then Some(spec.items[k]) else spec.defaultItem
  }

  /** The rule a selection hands its value to, if its selector value is hashable. */
  function Selected(spec: Spec, name: string, chosen: Atom): Option<string>
    requires spec.SelectionRule?
  {
    if chosen in spec.variants then Some(spec.variants[chosen])
    else if LooksForDefault(name) then spec.defaultVariant
    else None
  }

  // ---------- what a schema means ----------

  predicate ScalarConforms(spec: Spec, data: Value) {
    match spec
    case NoneRule => data.Null?
    case StringRule => data.Text?
    case BoolRule => data.Bool?
    case IntRule => data.Int?                              // a boolean is not an int
    case FloatRule => data.Float? || data.Int? || data.Bool?   // but it is a float
    case SetRule(allowed) => InSet(data, allowed)
    case _ => false
  }

  ghost predicate Conforms(s: Schema, data: Value, name: string)
    requires Layered(s)
    decreases data, Rank(s, name), 1
  {
    name in s &&
    var rule := s[name];
    match rule.spec
    case NoMatch => false
    case UnknownMatch => false
    case AnyRule => true
    case ListRule(item) =>
      !rule.invisibleItems && data.List? && forall i :: 0 <= i < |data.items| ==> Conforms(s, data.items[i], item)
    case DictRule(required, _, _) =>
      && data.Dict?
      && (forall k :: k in required ==> HasKey(data, k))
      && forall i :: 0 <= i < |data.entries| ==> EntryConforms(s, data, name, i)
    case OneOfRule(alternatives) =>
      !rule.invisibleItems && exists i :: 0 <= i < |alternatives| && Conforms(s, data, alternatives[i])
    case SelectionRule(selector, _, _) =>
      !rule.invisibleItems && data.Dict? && HasKey(data, selector) &&
      var chosen := AtomOf(Get(data.entries, selector).value);
      chosen.Some? &&
      var r := Selected(rule.spec, name, chosen.value);
      r.Some? && Conforms(s, data, r.value)
    case _ => !rule.invisibleItems && ScalarConforms(rule.spec, data)
  }

  ghost predicate EntryConforms(s: Schema, data: Value, name: string, i: nat)
    requires Layered(s) && name in s && s[name].spec.DictRule? && data.Dict? && i < |data.entries|
    decreases data, Rank(s, name), 0
  {
    var r := RuleForKey(s[name].spec, data.entries[i].key);
    r.Some? && Conforms(s, data.entries[i].value, r.value)
  }

  // ---------- what the checker does ----------

  /** One value against one rule. */
  function Check(s: Schema, data: Value, name: string, path: Path): Outcome
    requires Layered(s)
    decreases data, Rank(s, name), 1, 0
  {
    var refuse := Failed(FormatError(path, data, name, []));
    if name !in s || s[name].spec.NoMatch? || s[name].spec.UnknownMatch? then SchemaError(name)
    else if s[name].spec.AnyRule? then Passed
    else if s[name].invisibleItems && !s[name].spec.DictRule? then refuse
    else
      match s[name].spec
      case ListRule(_) => if data.List? then CheckItems(s, data, name, path, |data.items|) else refuse
      case DictRule(required, _, _) =>
        if !data.Dict? || exists k :: k in required && !HasKey(data, k) then refuse
        else CheckEntries(s, data, name, path, |data.entries|)
      case OneOfRule(alternatives) =>
        var tried := CheckAlternatives(s, data, name, path, |alternatives|);
        if tried.abort.Some? then tried.abort.value
        else if |tried.errors| == |alternatives|
          then Failed(FormatError(path, data, name, tried.errors + Nested(tried.errors)))
        else Passed
      case SelectionRule(selector, _, _) =>
        if !data.Dict? || !HasKey(data, selector) then refuse
        else
          var value := Get(data.entries, selector).value;
          var chosen := AtomOf(value);
          if chosen.None? then TypeError(value)
          else
            var r := Selected(s[name].spec, name, chosen.value);
            if r.Some? then Check(s, data, r.value, path)
            else if LooksForDefault(name) then KeyError(name)
            else refuse
      case _ => if ScalarConforms(s[name].spec, data) then Passed else refuse
  }

  /** The first `k` items, up to the first that is not fine. */
  function CheckItems(s: Schema, data: Value, name: string, path: Path, k: nat): Outcome
    requires Layered(s) && name in s && s[name].spec.ListRule? && data.List? && k <= |data.items|
    decreases data, Rank(s, name), 0, k
  {
    if k == 0 then Passed
    else
      var earlier := CheckItems(s, data, name, path, k - 1);
      if !earlier.Passed? then earlier
      else Check(s, data.items[k - 1], s[name].spec.item, path + [Index(k - 1)])
  }

  function CheckEntries(s: Schema, data: Value, name: string, path: Path, k: nat): Outcome
    requires Layered(s) && name in s && s[name].spec.DictRule? && data.Dict? && k <= |data.entries|
    decreases data, Rank(s, name), 0, k
  {
    if k == 0 then Passed
    else
      var earlier := CheckEntries(s, data, name, path, k - 1);
      var entry := data.entries[k - 1];
      var r := RuleForKey(s[name].spec, entry.key);
      if !earlier.Passed? then earlier
      else if r.None? then Failed(FormatError(path, data, name, []))
      else Check(s, entry.value, r.value, path + [MapKey(entry.key)])
  }

  datatype Tries = Tries(errors: seq<FormatError>, abort: Option<Outcome>)

  /** The first `k` alternatives: all of them are tried, only format errors are caught. */
  function CheckAlternatives(s: Schema, data: Value, name: string, path: Path, k: nat): (r: Tries)
    requires Layered(s) && name in s && s[name].spec.OneOfRule? && k <= |s[name].spec.alternatives|
    ensures |r.errors| <= k
    ensures r.abort.Some? ==> !r.abort.value.Passed? && !r.abort.value.Failed?
    decreases data, Rank(s, name), 0, k
  {
    if k == 0 then Tries([], None)
    else
      var earlier := CheckAlternatives(s, data, name, path, k - 1);
      if earlier.abort.Some? then earlier
      else
        RankDrops(s, name, s[name].spec.alternatives[k - 1]);
        match Check(s, data, s[name].spec.alternatives[k - 1], path)
        case Passed => earlier
        case Failed(e) => Tries(earlier.errors + [e], None)
        case other => Tries(earlier.errors, Some(other))
  }

  function Nested(errors: seq<FormatError>): seq<FormatError> {
    if errors == [] then []
    else Nested(errors[..|errors| - 1]) + errors[|errors| - 1].causes
  }

  lemma NestedAppend(errors: seq<FormatError>, e: FormatError)
    ensures Nested(errors + [e]) == Nested(errors) + e.causes
  {
    assert (errors + [e])[..|errors|] == errors;
  }

  lemma OneOfOutcome(s: Schema, data: Value, name: string, path: Path)
    requires Layered(s) && name in s && s[name].spec.OneOfRule? && !s[name].invisibleItems
    ensures var tried := CheckAlternatives(s, data, name, path, |s[name].spec.alternatives|);
            Check(s, data, name, path) ==
            if tried.abort.Some? then tried.abort.value
            else if |tried.errors| == |s[name].spec.alternatives|
              then Failed(FormatError(path, data, name, tried.errors + Nested(tried.errors)))
            else Passed
    ensures CheckAlternatives(s, data, name, path, 0) == Tries([], None) && Nested([]) == []
  {
  }

  lemma TryOne(s: Schema, data: Value, name: string, path: Path, i: nat)
    requires Layered(s) && name in s && s[name].spec.OneOfRule? && i < |s[name].spec.alternatives|
    requires CheckAlternatives(s, data, name, path, i).abort.None?
    ensures var r := Check(s, data, s[name].spec.alternatives[i], path);
            var earlier := CheckAlternatives(s, data, name, path, i).errors;
            CheckAlternatives(s, data, name, path, i + 1) ==
            if r.Passed? then Tries(earlier, None)
            else if r.Failed? then Tries(earlier + [r.error], None)
            else Tries(earlier, Some(r))
  {
  }

  lemma AlternativeDrops(s: Schema, name: string, i: nat)
    requires Layered(s) && name in s && s[name].spec.OneOfRule? && i < |s[name].spec.alternatives|
    ensures Rank(s, s[name].spec.alternatives[i]) < Rank(s, name)
  {
    RankDrops(s, name, s[name].spec.alternatives[i]);
  }

  lemma RankDrops(s: Schema, name: string, ref: string)
    requires Layered(s) && name in s && ref in SameValueRefs(s[name])
    ensures Rank(s, ref) < Rank(s, name)
  {
  }

  // ---------- the checker's loops ----------

  method ProcessRule(s: Schema, data: Value, name: string, path: Path) returns (r: Outcome)
    requires Layered(s)
    ensures r == Check(s, data, name, path)
    decreases data, Rank(s, name), 1
  {
    hide Layered, Rank;
    if name !in s || s[name].spec.NoMatch? || s[name].spec.UnknownMatch? {
      return SchemaError(name);
    }
    var rule := s[name];
    var refuse := Failed(FormatError(path, data, name, []));
    if rule.spec.AnyRule? {
      return Passed;
    }
    if rule.spec.DictRule? {
      r := MatchDict(s, data, name, path);
      return;
    }
    if rule.invisibleItems {
      return refuse;
    }
    match rule.spec
    case ListRule(_) => r := MatchList(s, data, name, path);
    case OneOfRule(_) => r := MatchOneOf(s, data, name, path);
    case SelectionRule(selector, variants, defaultVariant) =>
      if !data.Dict? || !HasKey(data, selector) {
        return refuse;
      }
      var value := Get(data.entries, selector).value;
      var chosen := AtomOf(value);
      if chosen.None? {
        return TypeError(value);
      }
      if chosen.value in variants {
        RankDrops(s, name, variants[chosen.value]);
        r := ProcessRule(s, data, variants[chosen.value], path);
      } else if LooksForDefault(name) {
        if defaultVariant.None? {
          return KeyError(name);
        }
        RankDrops(s, name, defaultVariant.value);
        r := ProcessRule(s, data, defaultVariant.value, path);
      } else {
        r := refuse;
      }
    case _ => r := if ScalarConforms(rule.spec, data) then Passed else refuse;
  }

  method MatchList(s: Schema, data: Value, name: string, path: Path) returns (r: Outcome)
    requires Layered(s) && name in s && s[name].spec.ListRule? && !s[name].invisibleItems
    ensures r == Check(s, data, name, path)
    decreases data, Rank(s, name), 0
  {
    hide Layered, Rank;
    if !data.List? {
      return Failed(FormatError(path, data, name, []));
    }
    for i := 0 to |data.items|
      invariant CheckItems(s, data, name, path, i) == Passed
    {
      r := ProcessRule(s, data.items[i], s[name].spec.item, path + [Index(i)]);
      if !r.Passed? {
        ItemsStop(s, data, name, path, i + 1, |data.items|);
        return;
      }
    }
    r := Passed;
  }

  method MatchDict(s: Schema, data: Value, name: string, path: Path) returns (r: Outcome)
    requires Layered(s) && name in s && s[name].spec.DictRule?
    ensures r == Check(s, data, name, path)
    decreases data, Rank(s, name), 0
  {
    hide Layered, Rank;
    var refuse := Failed(FormatError(path, data, name, []));
    if !data.Dict? {
      return refuse;
    }
    var spec := s[name].spec;
    for i := 0 to |spec.required|
      invariant forall k :: k in spec.required[..i] ==> HasKey(data, k)
    {
      if !HasKey(data, spec.required[i]) {
        return refuse;
      }
    }
    assert spec.required[..|spec.required|] == spec.required;
    for i := 0 to |data.entries|
      invariant CheckEntries(s, data, name, path, i) == Passed
    {
      var entry := data.entries[i];
      var newPath := path + [MapKey(entry.key)];
      if entry.key in spec.items {
        r := ProcessRule(s, entry.value, spec.items[entry.key], newPath);
      } else if spec.defaultItem.Some? {
        r := ProcessRule(s, entry.value, spec.defaultItem.value, newPath);
      } else {
        r := refuse;
      }
      if !r.Passed? {
        EntriesStop(s, data, name, path, i + 1, |data.entries|);
        return;
      }
    }
    r := Passed;
  }

  method MatchOneOf(s: Schema, data: Value, name: string, path: Path) returns (r: Outcome)
    requires Layered(s) && name in s && s[name].spec.OneOfRule? && !s[name].invisibleItems
    ensures r == Check(s, data, name, path)
    decreases data, Rank(s, name), 0
  {
    hide Check, CheckAlternatives, Nested, Rank, Layered, SameValueRefs;
    OneOfOutcome(s, data, name, path);
    var errors: seq<FormatError> := [];
    var subErrors: seq<FormatError> := [];
    var alternatives := s[name].spec.alternatives;
    for i := 0 to |alternatives|
      invariant CheckAlternatives(s, data, name, path, i) == Tries(errors, None)
      invariant subErrors == Nested(errors)
    {
      AlternativeDrops(s, name, i);
      r := ProcessRule(s, data, alternatives[i], path);
      TryOne(s, data, name, path, i);
      if r.Failed? {
        NestedAppend(errors, r.error);
        subErrors := subErrors + r.error.causes;
        errors := errors + [r.error];
      } else if !r.Passed? {
        AlternativesStop(s, data, name, path, i + 1, |alternatives|);
        return;
      }
    }
    r := if |errors| == |alternatives| then Failed(FormatError(path, data, name, errors + subErrors)) else Passed;
  }

  lemma {:induction false} ItemsStop(s: Schema, data: Value, name: string, path: Path, i: nat, k: nat)
    requires Layered(s) && name in s && s[name].spec.ListRule? && data.List? && i <= k <= |data.items|
    requires !CheckItems(s, data, name, path, i).Passed?
    ensures CheckItems(s, data, name, path, k) == CheckItems(s, data, name, path, i)
    decreases k
  {
    if i < k {
      ItemsStop(s, data, name, path, i, k - 1);
    }
  }

  lemma {:induction false} EntriesStop(s: Schema, data: Value, name: string, path: Path, i: nat, k: nat)
    requires Layered(s) && name in s && s[name].spec.DictRule? && data.Dict? && i <= k <= |data.entries|
    requires !CheckEntries(s, data, name, path, i).Passed?
    ensures CheckEntries(s, data, name, path, k) == CheckEntries(s, data, name, path, i)
    decreases k
  {
    if i < k {
      EntriesStop(s, data, name, path, i, k - 1);
    }
  }

  lemma {:induction false} AlternativesStop(s: Schema, data: Value, name: string, path: Path, i: nat, k: nat)
    requires Layered(s) && name in s && s[name].spec.OneOfRule? && i <= k <= |s[name].spec.alternatives|
    requires CheckAlternatives(s, data, name, path, i).abort.Some?
    ensures CheckAlternatives(s, data, name, path, k) == CheckAlternatives(s, data, name, path, i)
    decreases k
  {
    if i < k {
      AlternativesStop(s, data, name, path, i, k - 1);
    }
  }

  // ---------- acceptance is conformance ----------

  /** A value that is accepted conforms; a value that is refused does not.  No assumption on the
      schema or the data: a broken rule conforms to nothing. */
  lemma {:induction false} VerdictIsConformance(s: Schema, data: Value, name: string, path: Path)
    requires Layered(s)
    ensures Check(s, data, name, path).Passed? ==> Conforms(s, data, name)
    ensures Check(s, data, name, path).Failed? ==> !Conforms(s, data, name)
    decreases data, Rank(s, name), 1, 0
  {
    hide Layered, Rank, CheckItems, CheckEntries, CheckAlternatives, EntryConforms, InSet;
    if name in s {
      match s[name].spec
      case ListRule(_) =>
        if data.List? {
          ItemsVerdict(s, data, name, path, |data.items|);
        }
      case DictRule(_, _, _) =>
        if data.Dict? {
          EntriesVerdict(s, data, name, path, |data.entries|);
        }
      case OneOfRule(alternatives) => AlternativesVerdict(s, data, name, path, |alternatives|);
      case SelectionRule(selector, _, _) =>
        if data.Dict? && HasKey(data, selector) {
          var chosen := AtomOf(Get(data.entries, selector).value);
          if chosen.Some? && Selected(s[name].spec, name, chosen.value).Some? {
            RankDrops(s, name, Selected(s[name].spec, name, chosen.value).value);
            VerdictIsConformance(s, data, Selected(s[name].spec, name, chosen.value).value, path);
          }
        }
      case _ =>
    }
  }

  lemma {:induction false} ItemsVerdict(s: Schema, data: Value, name: string, path: Path, k: nat)
    requires Layered(s) && name in s && s[name].spec.ListRule? && data.List? && k <= |data.items|
    ensures CheckItems(s, data, name, path, k).Passed? ==>
              forall i :: 0 <= i < k ==> Conforms(s, data.items[i], s[name].spec.item)
    ensures CheckItems(s, data, name, path, k).Failed? ==>
              exists i :: 0 <= i < k && !Conforms(s, data.items[i], s[name].spec.item)
    decreases data, Rank(s, name), 0, k
  {
    hide Layered, Rank;
    if k > 0 {
      ItemsVerdict(s, data, name, path, k - 1);
      VerdictIsConformance(s, data.items[k - 1], s[name].spec.item, path + [Index(k - 1)]);
    }
  }

  lemma {:induction false} EntriesVerdict(s: Schema, data: Value, name: string, path: Path, k: nat)
    requires Layered(s) && name in s && s[name].spec.DictRule? && data.Dict? && k <= |data.entries|
    ensures CheckEntries(s, data, name, path, k).Passed? ==> forall i :: 0 <= i < k ==> EntryConforms(s, data, name, i)
    ensures CheckEntries(s, data, name, path, k).Failed? ==> exists i :: 0 <= i < k && !EntryConforms(s, data, name, i)
    decreases data, Rank(s, name), 0, k
  {
    hide Layered, Rank;
    if k > 0 {
      EntriesVerdict(s, data, name, path, k - 1);
      var entry := data.entries[k - 1];
      var r := RuleForKey(s[name].spec, entry.key);
      if r.Some? {
        VerdictIsConformance(s, entry.value, r.value, path + [MapKey(entry.key)]);
      }
      assert EntryConforms(s, data, name, k - 1) <==> r.Some? && Conforms(s, entry.value, r.value);
    }
  }

  lemma {:induction false} AlternativesVerdict(s: Schema, data: Value, name: string, path: Path, k: nat)
    requires Layered(s) && name in s && s[name].spec.OneOfRule? && k <= |s[name].spec.alternatives|
    ensures var t := CheckAlternatives(s, data, name, path, k);
            t.abort.None? ==>
              (|t.errors| < k <==> exists i :: 0 <= i < k && Conforms(s, data, s[name].spec.alternatives[i]))
    decreases data, Rank(s, name), 0, k
  {
    hide Layered, Rank, Check, Conforms;
    if k > 0 {
      AlternativesVerdict(s, data, name, path, k - 1);
      RankDrops(s, name, s[name].spec.alternatives[k - 1]);
      VerdictIsConformance(s, data, s[name].spec.alternatives[k - 1], path);
    }
  }

  // ---------- nothing but conformance decides ----------

  function AllRefs(rule: Rule): set<string> {
    match rule.spec
    case ListRule(item) => {item}
    case DictRule(_, items, defaultItem) => items.Values + (if defaultItem.Some? then {defaultItem.value} else {})
    case _ => SameValueRefs(rule)
  }

  /** Every rule has a known match, every reference leads to a rule, and a selection whose name asks
      for a default has one. */
  ghost predicate Closed(s: Schema) {
    forall name :: name in s ==>
      && !s[name].spec.NoMatch? && !s[name].spec.UnknownMatch?
      && AllRefs(s[name]) <= s.Keys
      && (s[name].spec.SelectionRule? && LooksForDefault(name) ==> s[name].spec.defaultVariant.Some?)
  }

  /** Under a selector key the data has a scalar. */
  ghost predicate ScalarSelectors(s: Schema, data: Value) {
    match data
    case List(items) => forall i :: 0 <= i < |items| ==> ScalarSelectors(s, items[i])
    case Dict(entries) =>
      && (forall name :: name in s && s[name].spec.SelectionRule? ==>
            var v := Get(entries, s[name].spec.selector);
            v.Some? ==> AtomOf(v.value).Some?)
      && forall i :: 0 <= i < |entries| ==> ScalarSelectors(s, entries[i].value)
    case _ => true
  }

  /** On a closed schema the checker ends with a verdict, and the verdict is conformance. */
  lemma CheckDecides(s: Schema, data: Value, name: string, path: Path)
    requires Layered(s) && Closed(s) && name in s && ScalarSelectors(s, data)
    ensures Check(s, data, name, path).Passed? <==> Conforms(s, data, name)
    ensures Check(s, data, name, path).Failed? <==> !Conforms(s, data, name)
  {
    VerdictIsConformance(s, data, name, path);
    VerdictReached(s, data, name, path);
  }

  lemma {:induction false} VerdictReached(s: Schema, data: Value, name: string, path: Path)
    requires Layered(s) && Closed(s) && name in s && ScalarSelectors(s, data)
    ensures Check(s, data, name, path).Passed? || Check(s, data, name, path).Failed?
    decreases data, Rank(s, name), 1, 0
  {
    hide Layered, Rank;
    match s[name].spec
    case ListRule(_) =>
      if data.List? {
        ItemsReached(s, data, name, path, |data.items|);
      }
    case DictRule(_, _, _) =>
      if data.Dict? {
        EntriesReached(s, data, name, path, |data.entries|);
      }
    case OneOfRule(alternatives) => AlternativesReached(s, data, name, path, |alternatives|);
    case SelectionRule(selector, _, _) =>
      if data.Dict? && HasKey(data, selector) {
        var r := Selected(s[name].spec, name, AtomOf(Get(data.entries, selector).value).value);
        if r.Some? {
          RankDrops(s, name, r.value);
          VerdictReached(s, data, r.value, path);
        }
      }
    case _ =>
  }

  lemma {:induction false} ItemsReached(s: Schema, data: Value, name: string, path: Path, k: nat)
    requires Layered(s) && Closed(s) && ScalarSelectors(s, data)
    requires name in s && s[name].spec.ListRule? && data.List? && k <= |data.items|
    ensures CheckItems(s, data, name, path, k).Passed? || CheckItems(s, data, name, path, k).Failed?
    decreases data, Rank(s, name), 0, k
  {
    hide Layered, Rank;
    if k > 0 {
      ItemsReached(s, data, name, path, k - 1);
      VerdictReached(s, data.items[k - 1], s[name].spec.item, path + [Index(k - 1)]);
    }
  }

  lemma {:induction false} EntriesReached(s: Schema, data: Value, name: string, path: Path, k: nat)
    requires Layered(s) && Closed(s) && ScalarSelectors(s, data)
    requires name in s && s[name].spec.DictRule? && data.Dict? && k <= |data.entries|
    ensures CheckEntries(s, data, name, path, k).Passed? || CheckEntries(s, data, name, path, k).Failed?
    decreases data, Rank(s, name), 0, k
  {
    hide Layered, Rank;
    if k > 0 {
      EntriesReached(s, data, name, path, k - 1);
      var entry := data.entries[k - 1];
      var r := RuleForKey(s[name].spec, entry.key);
      if r.Some? {
        assert r.value in AllRefs(s[name]);
        VerdictReached(s, entry.value, r.value, path + [MapKey(entry.key)]);
      }
    }
  }

  lemma {:induction false} AlternativesReached(s: Schema, data: Value, name: string, path: Path, k: nat)
    requires Layered(s) && Closed(s) && ScalarSelectors(s, data)
    requires name in s && s[name].spec.OneOfRule? && k <= |s[name].spec.alternatives|
    ensures CheckAlternatives(s, data, name, path, k).abort.None?
    decreases data, Rank(s, name), 0, k
  {
    hide Layered, Rank, Check, Conforms;
    if k > 0 {
      AlternativesReached(s, data, name, path, k - 1);
      RankDrops(s, name, s[name].spec.alternatives[k - 1]);
      VerdictReached(s, data, s[name].spec.alternatives[k - 1], path);
    }
  }

  // ---------- errors point at what they are about ----------

  /** An error and all its causes: the path leads to the stored value, which breaks the named rule. */
  ghost predicate Grounded(s: Schema, root: Value, base: Path, e: FormatError)
    requires Layered(s)
    decreases e
  {
    && base <= e.path
    && At(root, e.path) == Some(e.data)
    && !Conforms(s, e.data, e.rule)
    && forall i :: 0 <= i < |e.causes| ==> Grounded(s, root, base, e.causes[i])
  }

  ghost predicate AllGrounded(s: Schema, root: Value, base: Path, errors: seq<FormatError>)
    requires Layered(s)
  {
    forall i :: 0 <= i < |errors| ==> Grounded(s, root, base, errors[i])
  }

  lemma {:induction false} ErrorsAreGrounded(s: Schema, root: Value, data: Value, name: string, path: Path)
    requires Layered(s) && At(root, path) == Some(data) && DistinctKeys(data)
    ensures var r := Check(s, data, name, path);
            r.Failed? ==> Grounded(s, root, path, r.error)
    decreases data, Rank(s, name), 1, 0
  {
    hide Layered, Rank, CheckItems, CheckEntries, CheckAlternatives, At, Conforms, ScalarConforms, InSet, DistinctKeys;
    VerdictIsConformance(s, data, name, path);
    if name in s {
      match s[name].spec
      case ListRule(_) =>
        if data.List? {
          ItemErrorsGrounded(s, root, data, name, path, |data.items|);
        }
      case DictRule(_, _, _) =>
        if data.Dict? {
          EntryErrorsGrounded(s, root, data, name, path, |data.entries|);
        }
      case OneOfRule(alternatives) =>
        AlternativeErrorsGrounded(s, root, data, name, path, |alternatives|);
        NestedGrounded(s, root, path, CheckAlternatives(s, data, name, path, |alternatives|).errors);
      case SelectionRule(selector, _, _) =>
        if data.Dict? && HasKey(data, selector) {
          var chosen := AtomOf(Get(data.entries, selector).value);
          if chosen.Some? && Selected(s[name].spec, name, chosen.value).Some? {
            RankDrops(s, name, Selected(s[name].spec, name, chosen.value).value);
            ErrorsAreGrounded(s, root, data, Selected(s[name].spec, name, chosen.value).value, path);
          }
        }
      case _ =>
    }
  }

  lemma {:induction false} ItemErrorsGrounded(s: Schema, root: Value, data: Value, name: string, path: Path, k: nat)
    requires Layered(s) && At(root, path) == Some(data) && DistinctKeys(data)
    requires name in s && s[name].spec.ListRule? && data.List? && k <= |data.items|
    ensures var r := CheckItems(s, data, name, path, k);
            r.Failed? ==> Grounded(s, root, path, r.error)
    decreases data, Rank(s, name), 0, k
  {
    hide Layered, Rank;
    if k > 0 {
      ItemErrorsGrounded(s, root, data, name, path, k - 1);
      OneStepDown(root, path, Index(k - 1));
      ErrorsAreGrounded(s, root, data.items[k - 1], s[name].spec.item, path + [Index(k - 1)]);
      var r := Check(s, data.items[k - 1], s[name].spec.item, path + [Index(k - 1)]);
      if r.Failed? {
        GroundedAbove(s, root, path, Index(k - 1), r.error);
      }
    }
  }

  lemma {:induction false} EntryErrorsGrounded(s: Schema, root: Value, data: Value, name: string, path: Path, k: nat)
    requires Layered(s) && At(root, path) == Some(data) && DistinctKeys(data)
    requires name in s && s[name].spec.DictRule? && data.Dict? && k <= |data.entries|
    ensures var r := CheckEntries(s, data, name, path, k);
            r.Failed? ==> Grounded(s, root, path, r.error)
    decreases data, Rank(s, name), 0, k
  {
    if k > 0 {
      hide Layered, Rank, Check, CheckEntries, RuleForKey, HasKey, At, Conforms, DistinctKeys, Grounded;
      EntryErrorsGrounded(s, root, data, name, path, k - 1);
      EntriesStep(s, data, name, path, k);
      var entry := data.entries[k - 1];
      var rule := RuleForKey(s[name].spec, entry.key);
      if rule.None? {
        UnruledEntry(s, root, data, name, path, k - 1);
      } else {
        EntryDown(root, data, path, k - 1);
        ErrorsAreGrounded(s, root, entry.value, rule.value, path + [MapKey(entry.key)]);
        var r := Check(s, entry.value, rule.value, path + [MapKey(entry.key)]);
        if r.Failed? {
          GroundedAbove(s, root, path, MapKey(entry.key), r.error);
        }
      }
    }
  }

  lemma EntriesStep(s: Schema, data: Value, name: string, path: Path, k: nat)
    requires Layered(s) && name in s && s[name].spec.DictRule? && data.Dict? && 0 < k <= |data.entries|
    ensures var earlier, entry := CheckEntries(s, data, name, path, k - 1), data.entries[k - 1];
            var r := RuleForKey(s[name].spec, entry.key);
            CheckEntries(s, data, name, path, k) ==
              if !earlier.Passed? then earlier
              else if r.None? then Failed(FormatError(path, data, name, []))
              else Check(s, entry.value, r.value, path + [MapKey(entry.key)])
  {
    hide Layered, Check, RuleForKey;
  }

  lemma UnruledEntry(s: Schema, root: Value, data: Value, name: string, path: Path, i: nat)
    requires Layered(s) && name in s && s[name].spec.DictRule? && data.Dict? && i < |data.entries|
    requires RuleForKey(s[name].spec, data.entries[i].key).None? && At(root, path) == Some(data)
    ensures Grounded(s, root, path, FormatError(path, data, name, []))
  {
    assert !EntryConforms(s, data, name, i);
  }

  lemma EntryDown(root: Value, data: Value, path: Path, i: nat)
    requires At(root, path) == Some(data) && DistinctKeys(data) && data.Dict? && i < |data.entries|
    ensures At(root, path + [MapKey(data.entries[i].key)]) == Some(data.entries[i].value)
    ensures DistinctKeys(data.entries[i].value)
  {
    OneStepDown(root, path, MapKey(data.entries[i].key));
    GetEntry(data.entries, i);
  }

  lemma {:induction false} AlternativeErrorsGrounded(s: Schema, root: Value, data: Value, name: string,
      path: Path, k: nat)
    requires Layered(s) && At(root, path) == Some(data) && DistinctKeys(data)
    requires name in s && s[name].spec.OneOfRule? && k <= |s[name].spec.alternatives|
    ensures AllGrounded(s, root, path, CheckAlternatives(s, data, name, path, k).errors)
    decreases data, Rank(s, name), 0, k
  {
    hide Layered, Rank, Check, Conforms, At;
    if k > 0 {
      AlternativeErrorsGrounded(s, root, data, name, path, k - 1);
      RankDrops(s, name, s[name].spec.alternatives[k - 1]);
      ErrorsAreGrounded(s, root, data, s[name].spec.alternatives[k - 1], path);
    }
  }

  lemma {:induction false} NestedGrounded(s: Schema, root: Value, base: Path, errors: seq<FormatError>)
    requires Layered(s) && AllGrounded(s, root, base, errors)
    ensures AllGrounded(s, root, base, Nested(errors))
  {
    if errors != [] {
      NestedGrounded(s, root, base, errors[..|errors| - 1]);
    }
  }

  lemma OneStepDown(root: Value, path: Path, step: Step)
    requires At(root, path).Some?
    ensures At(root, path + [step]) == Child(At(root, path).value, step)
  {
    assert (path + [step])[..|path|] == path;
  }

  lemma {:induction false} GroundedAbove(s: Schema, root: Value, path: Path, step: Step, e: FormatError)
    requires Layered(s) && Grounded(s, root, path + [step], e)
    ensures Grounded(s, root, path, e)
    decreases e
  {
    hide Layered, Rank;
    forall i | 0 <= i < |e.causes| ensures Grounded(s, root, path, e.causes[i]) {
      GroundedAbove(s, root, path, step, e.causes[i]);
    }
  }

  lemma {:induction false} GetEntry(entries: seq<Entry>, i: nat)
    requires i < |entries| && forall a, b :: 0 <= a < b < |entries| ==> entries[a].key != entries[b].key
    ensures Get(entries, entries[i].key) == Some(entries[i].value)
  {
    if i < |entries| - 1 {
      GetEntry(entries[..|entries| - 1], i);
    }
  }

  /** A failed one_of blames every alternative, in order, before what those errors collected. */
  lemma OneOfExplains(s: Schema, data: Value, name: string, path: Path)
    requires Layered(s) && name in s && s[name].spec.OneOfRule? && !s[name].invisibleItems
    requires Check(s, data, name, path).Failed?
    ensures var alternatives, e := s[name].spec.alternatives, Check(s, data, name, path).error;
            && |alternatives| <= |e.causes|
            && (forall i :: 0 <= i < |alternatives| ==> Check(s, data, alternatives[i], path) == Failed(e.causes[i]))
            && e.causes[|alternatives|..] == Nested(e.causes[..|alternatives|])
  {
    var n := |s[name].spec.alternatives|;
    var errors := CheckAlternatives(s, data, name, path, n).errors;
    OneOfOutcome(s, data, name, path);
    AlternativeErrorsInOrder(s, data, name, path, n);
    assert (errors + Nested(errors))[..n] == errors;
  }

  /** The nested errors of an alternative come behind those of the alternatives before it, in order. */
  lemma {:induction false} NestedAt(errors: seq<FormatError>, i: nat, j: nat)
    requires i < |errors| && j < |errors[i].causes|
    ensures var before, all := |Nested(errors[..i])|, Nested(errors);
            before + j < |all| && all[before + j] == errors[i].causes[j]
    ensures |Nested(errors)| >= |Nested(errors[..i])| + |errors[i].causes|
    decreases |errors|
  {
    var n := |errors| - 1;
    if i < n {
      assert errors[..n][..i] == errors[..i];
      NestedAt(errors[..n], i, j);
    }
  }

  lemma {:induction false} NestedCount(errors: seq<FormatError>)
    ensures |Nested(errors)| == CauseCount(errors)
  {
    if errors != [] {
      NestedCount(errors[..|errors| - 1]);
    }
  }

  function CauseCount(errors: seq<FormatError>): nat {
    if errors == [] then 0 else |errors[|errors| - 1].causes| + CauseCount(errors[..|errors| - 1])
  }

  lemma {:induction false} AlternativeErrorsInOrder(s: Schema, data: Value, name: string, path: Path, k: nat)
    requires Layered(s) && name in s && s[name].spec.OneOfRule? && k <= |s[name].spec.alternatives|
    requires |CheckAlternatives(s, data, name, path, k).errors| == k
    ensures forall i :: 0 <= i < k ==>
              Check(s, data, s[name].spec.alternatives[i], path) ==
                Failed(CheckAlternatives(s, data, name, path, k).errors[i])
    decreases k
  {
    hide Layered, Rank, Check;
    if k > 0 {
      TryOne(s, data, name, path, k - 1);
      AlternativeErrorsInOrder(s, data, name, path, k - 1);
    }
  }

  // ---------- the default of a selection ----------

  /** The selector value is a scalar the selection does not list. */
  predicate Unlisted(spec: Spec, data: Value)
    requires spec.SelectionRule?
  {
    data.Dict? && HasKey(data, spec.selector) &&
    var chosen := AtomOf(Get(data.entries, spec.selector).value);
    chosen.Some? && chosen.value !in spec.variants
  }

  /** An error a rule raises about the value it was given blames that rule or one it handed the value
      to; errors about parts of the value have longer paths. */
  lemma {:induction false} BlameGoesDown(s: Schema, data: Value, name: string, path: Path)
    requires Layered(s)
    ensures var r := Check(s, data, name, path);
            r.Failed? ==> path <= r.error.path && (r.error.path == path ==> Rank(s, r.error.rule) <= Rank(s, name))
    decreases data, Rank(s, name), 1, 0
  {
    hide Layered, Rank, CheckItems, CheckEntries, CheckAlternatives, InSet, ScalarConforms, LooksForDefault;
    if name in s {
      match s[name].spec
      case ListRule(_) =>
        if data.List? {
          ItemBlameGoesDown(s, data, name, path, |data.items|);
        }
      case DictRule(_, _, _) =>
        if data.Dict? {
          EntryBlameGoesDown(s, data, name, path, |data.entries|);
        }
      case SelectionRule(selector, _, _) =>
        if data.Dict? && HasKey(data, selector) {
          var chosen := AtomOf(Get(data.entries, selector).value);
          if chosen.Some? && Selected(s[name].spec, name, chosen.value).Some? {
            RankDrops(s, name, Selected(s[name].spec, name, chosen.value).value);
            BlameGoesDown(s, data, Selected(s[name].spec, name, chosen.value).value, path);
          }
        }
      case _ =>
    }
  }

  lemma {:induction false} ItemBlameGoesDown(s: Schema, data: Value, name: string, path: Path, k: nat)
    requires Layered(s) && name in s && s[name].spec.ListRule? && data.List? && k <= |data.items|
    ensures var r := CheckItems(s, data, name, path, k);
            r.Failed? ==> path < r.error.path
    decreases data, Rank(s, name), 0, k
  {
    hide Layered, Rank, Check;
    if k > 0 {
      ItemBlameGoesDown(s, data, name, path, k - 1);
      BlameGoesDown(s, data.items[k - 1], s[name].spec.item, path + [Index(k - 1)]);
    }
  }

  lemma {:induction false} EntryBlameGoesDown(s: Schema, data: Value, name: string, path: Path, k: nat)
    requires Layered(s) && name in s && s[name].spec.DictRule? && data.Dict? && k <= |data.entries|
    ensures var r := CheckEntries(s, data, name, path, k);
            r.Failed? ==> path <= r.error.path && (r.error.path == path ==> r.error.rule == name)
    decreases data, Rank(s, name), 0, k
  {
    hide Layered, Rank, Check;
    if k > 0 {
      EntryBlameGoesDown(s, data, name, path, k - 1);
      var entry := data.entries[k - 1];
      var r := RuleForKey(s[name].spec, entry.key);
      if r.Some? {
        BlameGoesDown(s, entry.value, r.value, path + [MapKey(entry.key)]);
      }
    }
  }

  /** For an unlisted selector value the checker answers as the declared default would exactly when
      the name of the rule contains the words; whether the rule declares one is not what is tested. */
  lemma DefaultServesIff(s: Schema, data: Value, name: string, path: Path)
    requires Layered(s) && name in s && s[name].spec.SelectionRule? && !s[name].invisibleItems
    requires s[name].spec.defaultVariant.Some? && Unlisted(s[name].spec, data)
    ensures Check(s, data, name, path) == Check(s, data, s[name].spec.defaultVariant.value, path) <==>
            LooksForDefault(name)
  {
    hide LooksForDefault;
    var default_ := s[name].spec.defaultVariant.value;
    RankDrops(s, name, default_);
    if !LooksForDefault(name) {
      BlameGoesDown(s, data, default_, path);
      assert Check(s, data, name, path) == Failed(FormatError(path, data, name, []));
    }
  }

  /** What a schema means to its author: a declared default serves every unlisted selector value. */
  ghost predicate Declared(s: Schema, data: Value, name: string)
    requires Layered(s)
    decreases data, Rank(s, name), 1
  {
    name in s &&
    var rule := s[name];
    match rule.spec
    case NoMatch => false
    case UnknownMatch => false
    case AnyRule => true
    case ListRule(item) =>
      !rule.invisibleItems && data.List? && forall i :: 0 <= i < |data.items| ==> Declared(s, data.items[i], item)
    case DictRule(required, _, _) =>
      && data.Dict?
      && (forall k :: k in required ==> HasKey(data, k))
      && forall i :: 0 <= i < |data.entries| ==> EntryDeclared(s, data, name, i)
    case OneOfRule(alternatives) =>
      !rule.invisibleItems && exists i :: 0 <= i < |alternatives| && Declared(s, data, alternatives[i])
    case SelectionRule(selector, variants, defaultVariant) =>
      !rule.invisibleItems && data.Dict? && HasKey(data, selector) &&
      var chosen := AtomOf(Get(data.entries, selector).value);
      chosen.Some? &&
      if chosen.value in variants then Declared(s, data, variants[chosen.value])
      else defaultVariant.Some? && Declared(s, data, defaultVariant.value)
    case _ => !rule.invisibleItems && ScalarConforms(rule.spec, data)
  }

  ghost predicate EntryDeclared(s: Schema, data: Value, name: string, i: nat)
    requires Layered(s) && name in s && s[name].spec.DictRule? && data.Dict? && i < |data.entries|
    decreases data, Rank(s, name), 0
  {
    var r := RuleForKey(s[name].spec, data.entries[i].key);
    r.Some? && Declared(s, data.entries[i].value, r.value)
  }

  /** The rule's default is never asked for, although some data it would have to serve passes it. */
  ghost predicate WastesDefault(s: Schema, name: string)
    requires Layered(s) && name in s
  {
    && s[name].spec.SelectionRule? && !s[name].invisibleItems
    && s[name].spec.defaultVariant.Some? && !LooksForDefault(name)
    && exists data :: ScalarSelectors(s, data) && Unlisted(s[name].spec, data)
                      && Check(s, data, s[name].spec.defaultVariant.value, []).Passed?
  }

  ghost predicate DecidesDeclared(s: Schema)
    requires Layered(s)
  {
    forall data, name :: name in s && ScalarSelectors(s, data) ==>
      (Check(s, data, name, []).Passed? <==> Declared(s, data, name))
  }

  /** The checker accepts exactly what the author of a closed schema declared if and only if no rule
      wastes its default. */
  lemma DeclaredIsDecidedIff(s: Schema)
    requires Layered(s) && Closed(s)
    ensures DecidesDeclared(s) <==> forall name :: name in s ==> !WastesDefault(s, name)
  {
    hide Layered, Rank, Closed, ScalarSelectors, LooksForDefault, Check, Conforms, Declared, Unlisted;
    if forall name :: name in s ==> !WastesDefault(s, name) {
      forall data, name | name in s && ScalarSelectors(s, data)
        ensures Check(s, data, name, []).Passed? <==> Declared(s, data, name)
      {
        CheckDecides(s, data, name, []);
        ConformsAsDeclared(s, data, name);
      }
    } else {
      var name :| name in s && WastesDefault(s, name);
      var default_ := s[name].spec.defaultVariant.value;
      var data :| ScalarSelectors(s, data) && Unlisted(s[name].spec, data) && Check(s, data, default_, []).Passed?;
      WasteShows(s, data, name);
    }
  }

  /** What the author of a schema can see: a default only where the name of the rule has the words. */
  predicate DefaultsAreNamed(s: Schema) {
    forall name :: name in s && s[name].spec.SelectionRule? && s[name].spec.defaultVariant.Some? ==>
      LooksForDefault(name)
  }

  /** That is enough for the checker to decide what the schema declares. */
  lemma NamedDefaultsAreDecided(s: Schema)
    requires Layered(s) && Closed(s) && DefaultsAreNamed(s)
    ensures DecidesDeclared(s)
  {
    hide DecidesDeclared, Layered, Closed, Check, LooksForDefault;
    DeclaredIsDecidedIff(s);
  }

  lemma WasteShows(s: Schema, data: Value, name: string)
    requires Layered(s) && Closed(s) && name in s && s[name].spec.SelectionRule? && !s[name].invisibleItems
    requires s[name].spec.defaultVariant.Some? && !LooksForDefault(name) && ScalarSelectors(s, data)
    requires Unlisted(s[name].spec, data) && Check(s, data, s[name].spec.defaultVariant.value, []).Passed?
    ensures !DecidesDeclared(s)
  {
    var default_ := s[name].spec.defaultVariant.value;
    assert default_ in AllRefs(s[name]) && default_ in s;
    RankDrops(s, name, default_);
    assert Check(s, data, name, []).Failed?;
    assert Declared(s, data, name) <==> Declared(s, data, default_);
  }

  lemma {:induction false} ConformsAsDeclared(s: Schema, data: Value, name: string)
    requires Layered(s) && Closed(s) && name in s && ScalarSelectors(s, data)
    requires forall n :: n in s ==> !WastesDefault(s, n)
    ensures Conforms(s, data, name) <==> Declared(s, data, name)
    decreases data, Rank(s, name)
  {
    hide Layered, Rank, LooksForDefault, Check, WastesDefault;
    match s[name].spec
    case ListRule(item) =>
      assert item in AllRefs(s[name]);
      if data.List? {
        forall i | 0 <= i < |data.items|
          ensures Conforms(s, data.items[i], item) <==> Declared(s, data.items[i], item)
        {
          ConformsAsDeclared(s, data.items[i], item);
        }
      }
    case DictRule(_, _, _) =>
      if data.Dict? {
        forall i | 0 <= i < |data.entries|
          ensures EntryConforms(s, data, name, i) <==> EntryDeclared(s, data, name, i)
        {
          var r := RuleForKey(s[name].spec, data.entries[i].key);
          if r.Some? {
            assert r.value in AllRefs(s[name]);
            ConformsAsDeclared(s, data.entries[i].value, r.value);
          }
        }
      }
    case OneOfRule(alternatives) =>
      forall i | 0 <= i < |alternatives|
        ensures Conforms(s, data, alternatives[i]) <==> Declared(s, data, alternatives[i])
      {
        AlternativeDrops(s, name, i);
        assert alternatives[i] in AllRefs(s[name]);
        ConformsAsDeclared(s, data, alternatives[i]);
      }
    case SelectionRule(_, _, _) =>
      if data.Dict? && HasKey(data, s[name].spec.selector) {
        SelectionAsDeclared(s, data, name);
      }
    case _ =>
  }

  lemma {:induction false} SelectionAsDeclared(s: Schema, data: Value, name: string)
    requires Layered(s) && Closed(s) && name in s && ScalarSelectors(s, data)
    requires forall n :: n in s ==> !WastesDefault(s, n)
    requires s[name].spec.SelectionRule? && data.Dict? && HasKey(data, s[name].spec.selector)
    ensures Conforms(s, data, name) <==> Declared(s, data, name)
    decreases data, Rank(s, name), 0
  {
    hide Layered, Rank, LooksForDefault, Check;
    var spec := s[name].spec;
    var chosen := AtomOf(Get(data.entries, spec.selector).value).value;
    if chosen in spec.variants {
      RankDrops(s, name, spec.variants[chosen]);
      assert spec.variants[chosen] in AllRefs(s[name]);
      ConformsAsDeclared(s, data, spec.variants[chosen]);
    } else if spec.defaultVariant.Some? {
      var default_ := spec.defaultVariant.value;
      RankDrops(s, name, default_);
      assert default_ in AllRefs(s[name]);
      ConformsAsDeclared(s, data, default_);
      CheckDecides(s, data, default_, []);
      assert !WastesDefault(s, name);
    }
  }

  function RootSchema(): Schema {
    map["root" := Rule(SelectionRule(TextAtom("type"), map[], Some("other")), false), "other" := Rule(AnyRule, false)]
  }

  lemma RootSchemaRules()
    ensures RootSchema().Keys == {"root", "other"}
    ensures RootSchema()["root"] == Rule(SelectionRule(TextAtom("type"), map[], Some("other")), false)
    ensures RootSchema()["other"] == Rule(AnyRule, false)
  {
    assert |"root"| == 4 && |"other"| == 5;
  }

  lemma RootHasNoWords()
    ensures !LooksForDefault("root")
  {
    assert |"root"| == 4 && |"default_variant"| == 15;
  }

  lemma RootSchemaIsSound()
    ensures Layered(RootSchema()) && Closed(RootSchema()) && !LooksForDefault("root")
    ensures "root" in RootSchema() && "other" in RootSchema()
    ensures RootSchema()["root"] == Rule(SelectionRule(TextAtom("type"), map[], Some("other")), false)
    ensures RootSchema()["other"] == Rule(AnyRule, false)
  {
    RootSchemaRules();
    RootHasNoWords();
    hide RootSchema, LooksForDefault;
    var rank: map<string, nat> := map["root" := 1, "other" := 0];
    assert |"root"| == 4 && |"other"| == 5;
    assert rank.Keys == {"root", "other"};
    assert Ranks(RootSchema(), rank);
  }

  /** A selection named "root" declares a default for a type it does not list: the default would take
      the value, the checker refuses it. */
  lemma DefaultRefused()
    ensures var s, data := RootSchema(), Dict([Entry(TextAtom("type"), Text("x"))]);
            && Layered(s) && Closed(s) && ScalarSelectors(s, data)
            && Check(s, data, "root", []) == Failed(FormatError([], data, "root", []))
            && Check(s, data, "other", []) == Passed
            && !DecidesDeclared(s)
  {
    var s, data := RootSchema(), Dict([Entry(TextAtom("type"), Text("x"))]);
    RootSchemaIsSound();
    hide RootSchema, LooksForDefault, Layered, Closed, Rank, Contains;
    assert data.entries[0].key == TextAtom("type");
    assert Unlisted(s["root"].spec, data);
    WasteShows(s, data, "root");
  }

  function WithoutDefaults(s: Schema): (t: Schema)
    ensures Layered(s) ==> Layered(t)
  {
    var t: Schema := map name | name in s ::
      if s[name].spec.SelectionRule? then s[name].(spec := s[name].spec.(defaultVariant := None)) else s[name];
    assert forall rank :: Ranks(s, rank) ==> Ranks(t, rank);
    t
  }

  /** So in a schema whose rule names avoid the words, declaring defaults changes no outcome. */
  lemma {:induction false} DefaultsIgnored(s: Schema, data: Value, name: string, path: Path)
    requires Layered(s) && forall n :: n in s ==> !LooksForDefault(n)
    ensures Check(s, data, name, path) == Check(WithoutDefaults(s), data, name, path)
    decreases data, Rank(s, name), 1, 0
  {
    hide LooksForDefault, Layered, Rank, CheckItems, CheckEntries, CheckAlternatives, InSet, ScalarConforms;
    if name in s {
      match s[name].spec
      case ListRule(_) =>
        if data.List? {
          DefaultsIgnoredInItems(s, data, name, path, |data.items|);
        }
      case DictRule(_, _, _) =>
        if data.Dict? {
          DefaultsIgnoredInEntries(s, data, name, path, |data.entries|);
        }
      case OneOfRule(alternatives) =>
        DefaultsIgnoredInAlternatives(s, data, name, path, |alternatives|);
        SameTriesSameOutcome(s, data, name, path);
      case SelectionRule(selector, variants, _) =>
        if data.Dict? && HasKey(data, selector) {
          var chosen := AtomOf(Get(data.entries, selector).value);
          if chosen.Some? && chosen.value in variants {
            RankDrops(s, name, variants[chosen.value]);
            DefaultsIgnored(s, data, variants[chosen.value], path);
          }
        }
      case _ =>
    }
  }

  lemma SameTriesSameOutcome(s: Schema, data: Value, name: string, path: Path)
    requires Layered(s) && name in s && s[name].spec.OneOfRule?
    requires var n := |s[name].spec.alternatives|;
             CheckAlternatives(s, data, name, path, n) == CheckAlternatives(WithoutDefaults(s), data, name, path, n)
    ensures Check(s, data, name, path) == Check(WithoutDefaults(s), data, name, path)
  {
    if !s[name].invisibleItems {
      OneOfOutcome(s, data, name, path);
      OneOfOutcome(WithoutDefaults(s), data, name, path);
      hide Check;
    }
  }

  lemma {:induction false} DefaultsIgnoredInItems(s: Schema, data: Value, name: string, path: Path, k: nat)
    requires Layered(s) && forall n :: n in s ==> !LooksForDefault(n)
    requires name in s && s[name].spec.ListRule? && data.List? && k <= |data.items|
    ensures CheckItems(s, data, name, path, k) == CheckItems(WithoutDefaults(s), data, name, path, k)
    decreases data, Rank(s, name), 0, k
  {
    if k > 0 {
      DefaultsIgnoredInItems(s, data, name, path, k - 1);
      DefaultsIgnored(s, data.items[k - 1], s[name].spec.item, path + [Index(k - 1)]);
    }
  }

  lemma {:induction false} DefaultsIgnoredInEntries(s: Schema, data: Value, name: string, path: Path, k: nat)
    requires Layered(s) && forall n :: n in s ==> !LooksForDefault(n)
    requires name in s && s[name].spec.DictRule? && data.Dict? && k <= |data.entries|
    ensures CheckEntries(s, data, name, path, k) == CheckEntries(WithoutDefaults(s), data, name, path, k)
    decreases data, Rank(s, name), 0, k
  {
    if k > 0 {
      DefaultsIgnoredInEntries(s, data, name, path, k - 1);
      var entry := data.entries[k - 1];
      var r := RuleForKey(s[name].spec, entry.key);
      if r.Some? {
        DefaultsIgnored(s, entry.value, r.value, path + [MapKey(entry.key)]);
      }
    }
  }

  lemma {:induction false} DefaultsIgnoredInAlternatives(s: Schema, data: Value, name: string, path: Path, k: nat)
    requires Layered(s) && forall n :: n in s ==> !LooksForDefault(n)
    requires name in s && s[name].spec.OneOfRule? && k <= |s[name].spec.alternatives|
    ensures CheckAlternatives(s, data, name, path, k) == CheckAlternatives(WithoutDefaults(s), data, name, path, k)
    decreases data, Rank(s, name), 0, k
  {
    hide Layered, Rank, Check;
    if k > 0 {
      DefaultsIgnoredInAlternatives(s, data, name, path, k - 1);
      RankDrops(s, name, s[name].spec.alternatives[k - 1]);
      DefaultsIgnored(s, data, s[name].spec.alternatives[k - 1], path);
    }
  }

  // ---------- single rules in plain terms ----------

  /** A boolean is the number 0 or 1, an integer is the float of the same value. */
  function NumberOf(v: Value): Option<real> {
    match v
    case Int(n) => Some(n as real)
    case Float(r) => Some(r)
    case Bool(b) => if b then Some(1.0) else Some(0.0)
    case _ => None
  }

  /** Equality of scalars as the language has it. */
  predicate EqualScalars(a: Value, b: Value) {
    || (a.Null? && b.Null?)
    || (a.Text? && b.Text? && a.s == b.s)
    || (NumberOf(a).Some? && NumberOf(a) == NumberOf(b))
  }

  lemma SameAtomIff(a: Value, b: Value)
    ensures AtomOf(a).Some? && AtomOf(a) == AtomOf(b) <==> EqualScalars(a, b)
  {
  }

  /** What each rule on scalars accepts; whatever else it is given is refused at the path of the value. */
  lemma ScalarRules(s: Schema, data: Value, name: string, path: Path)
    requires Layered(s) && name in s && !s[name].invisibleItems
    ensures var spec, passed, refused :=
              s[name].spec, Check(s, data, name, path) == Passed,
              Check(s, data, name, path) == Failed(FormatError(path, data, name, []));
            match spec
            case AnyRule => passed
            case NoneRule => if data.Null? then passed else refused
            case StringRule => if data.Text? then passed else refused
            case BoolRule => if data.Bool? then passed else refused
            case IntRule => if data.Int? then passed else refused
            case FloatRule => if data.Float? || data.Int? || data.Bool? then passed else refused
            case SetRule(allowed) => if exists v :: v in allowed && EqualScalars(v, data) then passed else refused
            case _ => true
  {
    if s[name].spec.SetRule? {
      InSetIff(data, s[name].spec.allowed);
    }
    hide AtomOf, InSet, EqualScalars, Layered;
  }

  lemma InSetIff(data: Value, allowed: seq<Value>)
    ensures InSet(data, allowed) <==> exists v :: v in allowed && EqualScalars(v, data)
  {
    forall i | 0 <= i < |allowed|
      ensures AtomOf(data).Some? && AtomOf(allowed[i]) == AtomOf(data) <==> EqualScalars(allowed[i], data)
    {
      SameAtomIff(allowed[i], data);
      SameAtomIff(data, allowed[i]);
    }
    hide AtomOf, EqualScalars;
    if InSet(data, allowed) {
      var i :| 0 <= i < |allowed| && AtomOf(allowed[i]) == AtomOf(data);
      assert allowed[i] in allowed;
    }
  }

  /** A dictionary has its required keys, and each entry the rule listed for its key, or else the default
      rule, if there is one. */
  lemma DictRuleConforms(s: Schema, data: Value, name: string)
    requires Layered(s) && name in s && s[name].spec.DictRule?
    ensures Conforms(s, data, name) <==>
            && data.Dict?
            && (forall k :: k in s[name].spec.required ==>
                  exists i :: 0 <= i < |data.entries| && data.entries[i].key == k)
            && forall i :: 0 <= i < |data.entries| ==>
                 if data.entries[i].key in s[name].spec.items
                 then Conforms(s, data.entries[i].value, s[name].spec.items[data.entries[i].key])
                 else s[name].spec.defaultItem.Some?
                      && Conforms(s, data.entries[i].value, s[name].spec.defaultItem.value)
  {
    hide Layered;
    if data.Dict? {
      forall i | 0 <= i < |data.entries|
        ensures EntryConforms(s, data, name, i) <==>
                if data.entries[i].key in s[name].spec.items
                then Conforms(s, data.entries[i].value, s[name].spec.items[data.entries[i].key])
                else s[name].spec.defaultItem.Some?
                     && Conforms(s, data.entries[i].value, s[name].spec.defaultItem.value)
      {
      }
    }
  }

  /** A selection hands the value over to the variant listed for what the selector holds. */
  lemma SelectionByVariant(s: Schema, data: Value, name: string, path: Path, i: nat, a: Atom)
    requires Layered(s) && name in s && s[name].spec.SelectionRule? && !s[name].invisibleItems
    requires data.Dict? && i < |data.entries| && data.entries[i].key == s[name].spec.selector
    requires forall j :: i < j < |data.entries| ==> data.entries[j].key != s[name].spec.selector
    requires AtomOf(data.entries[i].value) == Some(a) && a in s[name].spec.variants
    ensures Check(s, data, name, path) == Check(s, data, s[name].spec.variants[a], path)
  {
    LastEntry(data.entries, s[name].spec.selector, i);
    hide LooksForDefault, AtomOf, Get;
    RankDrops(s, name, s[name].spec.variants[a]);
    hide Layered;
  }

  lemma {:induction false} LastEntry(entries: seq<Entry>, k: Atom, i: nat)
    requires i < |entries| && entries[i].key == k && forall j :: i < j < |entries| ==> entries[j].key != k
    ensures Get(entries, k) == Some(entries[i].value)
    decreases |entries|
  {
    if i < |entries| - 1 {
      LastEntry(entries[..|entries| - 1], k, i);
    }
  }

  /** The words are looked for anywhere in the name of the rule. */
  lemma LooksForDefaultIff(name: string)
    ensures LooksForDefault(name) <==> exists a, b :: name == a + "default_variant" + b
  {
    ContainsIff(name, "default_variant");
  }

  lemma ContainsIff(text: string, part: string)
    ensures Contains(text, part) <==> exists a, b :: text == a + part + b
  {
    if Contains(text, part) {
      var i :| 0 <= i <= |text| - |part| && text[i..][..|part|] == part;
      assert text == text[..i] + part + text[i + |part|..];
    }
    if a, b :| text == a + part + b {
      assert text[|a|..][..|part|] == part;
    }
  }

  /** The outcomes that are no verdict on the data: a rule that is not there or has no known match, a
      selector value that cannot be a key, and a default that is looked for but not declared. */
  lemma NoVerdict(s: Schema, data: Value, name: string, path: Path)
    requires Layered(s)
    ensures name !in s ==> Check(s, data, name, path) == SchemaError(name)
    ensures name in s && (s[name].spec.NoMatch? || s[name].spec.UnknownMatch?) ==>
              Check(s, data, name, path) == SchemaError(name)
    ensures name in s && s[name].spec.SelectionRule? && !s[name].invisibleItems && data.Dict? ==>
              match Get(data.entries, s[name].spec.selector)
              case None => Check(s, data, name, path) == Failed(FormatError(path, data, name, []))
              case Some(v) =>
                && (v.List? || v.Dict? ==> Check(s, data, name, path) == TypeError(v))
                && (AtomOf(v).Some? && AtomOf(v).value !in s[name].spec.variants && LooksForDefault(name)
                    && s[name].spec.defaultVariant.None? ==>
                      Check(s, data, name, path) == KeyError(name))
    ensures name in s && s[name].invisibleItems && !s[name].spec.AnyRule? && !s[name].spec.DictRule?
            && !s[name].spec.NoMatch? && !s[name].spec.UnknownMatch? ==>
              Check(s, data, name, path) == Failed(FormatError(path, data, name, []))
  {
    hide LooksForDefault, Layered;
  }

  /** A list is judged by its first item that is not fine. */
  lemma {:induction false} FirstBadItem(s: Schema, data: Value, name: string, path: Path, i: nat)
    requires Layered(s) && name in s && s[name].spec.ListRule? && !s[name].invisibleItems
    requires data.List? && i < |data.items| && !Check(s, data.items[i], s[name].spec.item, path + [Index(i)]).Passed?
    requires forall j :: 0 <= j < i ==> Check(s, data.items[j], s[name].spec.item, path + [Index(j)]).Passed?
    ensures Check(s, data, name, path) == Check(s, data.items[i], s[name].spec.item, path + [Index(i)])
  {
    ItemsUpTo(s, data, name, path, i, |data.items|);
    hide Layered;
  }

  lemma {:induction false} ItemsUpTo(s: Schema, data: Value, name: string, path: Path, i: nat, k: nat)
    requires Layered(s) && name in s && s[name].spec.ListRule? && data.List? && i < |data.items| && k <= |data.items|
    requires !Check(s, data.items[i], s[name].spec.item, path + [Index(i)]).Passed?
    requires forall j :: 0 <= j < i ==> Check(s, data.items[j], s[name].spec.item, path + [Index(j)]).Passed?
    ensures CheckItems(s, data, name, path, k) ==
            if k <= i then Passed else Check(s, data.items[i], s[name].spec.item, path + [Index(i)])
    decreases k
  {
    if k > 0 {
      ItemsUpTo(s, data, name, path, i, k - 1);
      hide Check, Layered;
    }
  }

  /** What the entry at `j` of a dictionary comes to. */
  function EntryOutcome(s: Schema, data: Value, name: string, path: Path, j: nat): Outcome
    requires Layered(s) && name in s && s[name].spec.DictRule? && data.Dict? && j < |data.entries|
  {
    var entry, spec := data.entries[j], s[name].spec;
    if entry.key in spec.items then Check(s, entry.value, spec.items[entry.key], path + [MapKey(entry.key)])
    else if spec.defaultItem.Some? then Check(s, entry.value, spec.defaultItem.value, path + [MapKey(entry.key)])
    else Failed(FormatError(path, data, name, []))
  }

  /** A dictionary with its required keys is judged by its first entry that is not fine. */
  lemma FirstBadEntry(s: Schema, data: Value, name: string, path: Path, i: nat)
    requires Layered(s) && name in s && s[name].spec.DictRule? && data.Dict? && i < |data.entries|
    requires forall k :: k in s[name].spec.required ==> exists j :: 0 <= j < |data.entries| && data.entries[j].key == k
    requires !EntryOutcome(s, data, name, path, i).Passed?
    requires forall j :: 0 <= j < i ==> EntryOutcome(s, data, name, path, j).Passed?
    ensures Check(s, data, name, path) == EntryOutcome(s, data, name, path, i)
  {
    EntriesUpTo(s, data, name, path, i, |data.entries|);
    hide Layered, EntryOutcome;
  }

  lemma {:induction false} EntriesUpTo(s: Schema, data: Value, name: string, path: Path, i: nat, k: nat)
    requires Layered(s) && name in s && s[name].spec.DictRule? && data.Dict?
    requires i < |data.entries| && k <= |data.entries|
    requires !EntryOutcome(s, data, name, path, i).Passed?
    requires forall j :: 0 <= j < i ==> EntryOutcome(s, data, name, path, j).Passed?
    ensures CheckEntries(s, data, name, path, k) ==
            if k <= i then Passed else EntryOutcome(s, data, name, path, i)
    decreases k
  {
    if k > 0 {
      EntriesUpTo(s, data, name, path, i, k - 1);
      assert k - 1 < i ==> EntryOutcome(s, data, name, path, k - 1).Passed?;
      hide Check, Layered;
    }
  }
}
