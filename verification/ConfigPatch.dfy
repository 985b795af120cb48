/** Comparing two configurations and patching one in place, by the flat keys of their common
    specification: "name/" for a parameter or a group, "group/name" for a parameter of a group. */
module ConfigPatch {
  import opened Common
  import opened ConfigValues
  import Keys

  /** `active` of each group that has it. */
  datatype Pair = Pair(config: map<string, Value>, attr: map<string, bool>)

  datatype Kind = IntegerKind | FloatKind | OptionKind(options: seq<Value>) | OtherKind

  datatype SpecEntry = SpecEntry(isGroup: bool, activatable: Option<bool>, kind: Kind)

  type Spec = map<string, SpecEntry>

  /** `cast_to_type` by flat key; None where it raises. */
  type Cast = (string, Value) -> Option<Value>

  // ---------- casts ----------

  /** What `int` and `float` make of a text; None where they raise. */
  datatype Texts = Texts(toInt: string -> Option<int>, toFloat: string -> Option<real>)

  /** `int` of a number cuts towards zero. */
  function Truncated(r: real): int {
    if r >= 0.0 then r.Floor else -((-r).Floor)
  }

  predicate IsNatural(s: string) {
    s != "" && Keys.AllDigits(s)
  }

  predicate IsDecimal(s: string) {
    exists i :: 0 < i < |s| - 1 && s[i] == '.' && Keys.AllDigits(s[..i]) && Keys.AllDigits(s[i + 1..])
  }

  function AsNumber(n: Option<int>): Option<Value> {
    if n.Some? then Some(Number(n.value as real)) else None
  }

  function AsFloat(r: Option<real>): Option<Value> {
    if r.Some? then Some(Number(r.value)) else None
  }

  /** None where the original raises, whatever the exception. */
  function CastToType(texts: Texts, kind: Kind, v: Value): Option<Value> {
    match kind
    case FloatKind =>
      (match v
       case Number(_) => Some(v)
       case Text(s) => AsFloat(texts.toFloat(s))
       case _ => None)
    case IntegerKind =>
      (match v
       case Number(n) => Some(Number(Truncated(n) as real))
       case Text(s) => AsNumber(texts.toInt(s))
       case _ => None)
    case OptionKind(options) =>
      if v in options then Some(v)
      else if v.Text? && IsNatural(v.s) then AsNumber(texts.toInt(v.s))
      else if v.Text? && IsDecimal(v.s) then AsFloat(texts.toFloat(v.s))
      else None
    case OtherKind => Some(v)
  }

  function CastOf(texts: Texts, spec: Spec): Cast {
    (key, v) => if key in spec then CastToType(texts, spec[key].kind, v) else None
  }

  // ---------- flat keys ----------

  function FlatKey(name: string, sub: string): string {
    name + "/" + sub
  }

  /** `key.split("/", maxsplit=1)`, with "" for a part that is not there. */
  function ParseKey(key: string): (string, string) {
    if key == "" then ("", "")
    else if key[0] == '/' then ("", key[1..])
    else
      var (name, sub) := ParseKey(key[1..]);
      ([key[0]] + name, sub)
  }

  function StripSlashes(s: string): string {
    if s != "" && s[|s| - 1] == '/' then StripSlashes(s[..|s| - 1]) else s
  }

  lemma {:induction false} ParseFlatKey(name: string, sub: string)
    requires '/' !in name
    ensures ParseKey(FlatKey(name, sub)) == (name, sub)
  {
    var key := FlatKey(name, sub);
    if name == "" {
      assert key[1..] == sub;
    } else {
      assert key[1..] == FlatKey(name[1..], sub);
      ParseFlatKey(name[1..], sub);
      assert [name[0]] + name[1..] == name;
    }
  }

  lemma StripGroupKey(name: string)
    requires '/' !in name
    ensures StripSlashes(FlatKey(name, "")) == name
  {
    assert FlatKey(name, "")[..|name|] == name;
    assert name != "" ==> name[|name| - 1] in name;
  }

  // ---------- configurations of a specification ----------

  ghost predicate SpecValid(spec: Spec) {
    forall key :: key in spec ==>
      var (name, sub) := ParseKey(key);
      && key == FlatKey(name, sub) && '/' !in name
      && (spec[key].isGroup ==> sub == "")
      && (sub != "" ==> FlatKey(name, "") in spec && spec[FlatKey(name, "")].isGroup)
  }

  predicate IsGroup(spec: Spec, name: string) {
    FlatKey(name, "") in spec && spec[FlatKey(name, "")].isGroup
  }

  predicate IsActivatable(spec: Spec, name: string) {
    IsGroup(spec, name) && spec[FlatKey(name, "")].activatable == Some(true)
  }

  /** A key of a single parameter, not of a group. */
  predicate IsLeafKey(spec: Spec, key: string) {
    key in spec && !spec[key].isGroup
  }

  /** A group has the parameters the specification gives it. */
  ghost predicate GroupShape(spec: Spec, name: string, v: Value) {
    v.Dict? && forall s :: s in v.entries <==> s != "" && FlatKey(name, s) in spec
  }

  ghost predicate Conforms(spec: Spec, p: Pair) {
    && SpecValid(spec)
    && (forall n :: n in p.config ==> '/' !in n)
    && (forall n :: '/' !in n ==> (n in p.config <==> FlatKey(n, "") in spec))
    && (forall n :: n in p.config && IsGroup(spec, n) ==> GroupShape(spec, n, p.config[n]))
    && (forall g :: g in p.attr <==> '/' !in g && IsActivatable(spec, g))
  }

  /** The value under a flat key. */
  function Get(config: map<string, Value>, key: string): Option<Value> {
    var (name, sub) := ParseKey(key);
    if name !in config then None
    else if sub == "" then Some(config[name])
    else if config[name].Dict? && sub in config[name].entries then Some(config[name].entries[sub])
    else None
  }

  /** Overwrite the value under a flat key that is there. */
  function Put(config: map<string, Value>, key: string, v: Value): map<string, Value>
    requires Get(config, key).Some?
  {
    var (name, sub) := ParseKey(key);
    if sub == "" then config[name := v]
    else config[name := Dict(config[name].entries[sub := v])]
  }

  // ---------- patching ----------

  datatype Change<T> = Change(key: string, value: T)

  datatype Patched = Patched(pair: Pair, changed: bool) | Refused

  function PatchConfig(cast: Cast, spec: Spec, p: Pair, changes: seq<Change<Value>>): Patched {
    if changes == [] then Patched(p, false)
    else
      var earlier := PatchConfig(cast, spec, p, changes[..|changes| - 1]);
      var change := changes[|changes| - 1];
      if earlier.Refused? then Refused
      else
        var v := cast(change.key, change.value);
        var present := Get(earlier.pair.config, change.key);
        if v.None? || present.None? then Refused
        else if present == v then earlier
        else Patched(earlier.pair.(config := Put(earlier.pair.config, change.key, v.value)), true)
  }

  function PatchAttr(spec: Spec, start: Patched, changes: seq<Change<bool>>): Patched {
    if changes == [] then start
    else
      var earlier := PatchAttr(spec, start, changes[..|changes| - 1]);
      var change := changes[|changes| - 1];
      var group := StripSlashes(change.key);
      if earlier.Refused? || change.key !in spec || spec[change.key].activatable.None?
        || group !in earlier.pair.attr then Refused
      else if earlier.pair.attr[group] == change.value then earlier
      else Patched(earlier.pair.(attr := earlier.pair.attr[group := change.value]), true)
  }

  predicate KeysInSpec<T>(spec: Spec, changes: seq<Change<T>>) {
    forall i :: 0 <= i < |changes| ==> changes[i].key in spec
  }

  /** What a call of `_fill_config_and_attr` amounts to. */
  function Patch(cast: Cast, spec: Spec, p: Pair, config: seq<Change<Value>>, attr: seq<Change<bool>>): Patched {
    if !KeysInSpec(spec, config) || !KeysInSpec(spec, attr) then Refused
    else PatchAttr(spec, PatchConfig(cast, spec, p, config), attr)
  }

  class Target {
    var config: map<string, Value>
    var attr: map<string, bool>

    function View(): Pair
      reads this
    {
      Pair(config, attr)
    }

    constructor (p: Pair)
      ensures View() == p
    {
      config := p.config;
      attr := p.attr;
    }

    /** A refused call may leave the target half patched, as the original does. */
    method FillConfigAndAttr(texts: Texts, spec: Spec, configChanges: seq<Change<Value>>,
        attrChanges: seq<Change<bool>>)
      returns (ok: bool, changed: bool)
      modifies this
      ensures ok <==> Patch(CastOf(texts, spec), spec, old(View()), configChanges, attrChanges).Patched?
      ensures ok ==>
                Patched(View(), changed) == Patch(CastOf(texts, spec), spec, old(View()), configChanges, attrChanges)
    {
      hide Get, Put, StripSlashes, CastToType;
      ghost var cast := CastOf(texts, spec);
      changed := false;
      if !KeysInSpec(spec, configChanges) || !KeysInSpec(spec, attrChanges) {
        return false, false;
      }
      ghost var start := View();
      for i := 0 to |configChanges|
        invariant PatchConfig(cast, spec, start, configChanges[..i]) == Patched(View(), changed)
      {
        var key := configChanges[i].key;
        assert configChanges[..i + 1][..i] == configChanges[..i];
        var castValue := CastToType(texts, spec[key].kind, configChanges[i].value);
        var current := Get(config, key);
        if castValue.None? || current.None? {
          ConfigRefusalStays(cast, spec, start, configChanges, i + 1, |configChanges|);
          assert configChanges[..|configChanges|] == configChanges;
          AttrRefusalStays(spec, Refused, attrChanges, 0, |attrChanges|);
          assert attrChanges[..|attrChanges|] == attrChanges;
          return false, changed;
        }
        if current.value != castValue.value {
          config := Put(config, key, castValue.value);
          changed := true;
        }
      }
      assert configChanges[..|configChanges|] == configChanges;
      ghost var halfway := Patched(View(), changed);
      for i := 0 to |attrChanges|
        invariant PatchAttr(spec, halfway, attrChanges[..i]) == Patched(View(), changed)
      {
        var key := attrChanges[i].key;
        assert attrChanges[..i + 1][..i] == attrChanges[..i];
        var group := StripSlashes(key);
        if spec[key].activatable.None? || group !in attr {
          AttrRefusalStays(spec, halfway, attrChanges, i + 1, |attrChanges|);
          assert attrChanges[..|attrChanges|] == attrChanges;
          return false, changed;
        }
        if attr[group] != attrChanges[i].value {
          attr := attr[group := attrChanges[i].value];
          changed := true;
        }
      }
      assert attrChanges[..|attrChanges|] == attrChanges;
      ok := true;
    }
  }

  lemma {:induction false} ConfigRefusalStays(cast: Cast, spec: Spec, p: Pair, changes: seq<Change<Value>>,
      i: nat, k: nat)
    requires i <= k <= |changes| && PatchConfig(cast, spec, p, changes[..i]).Refused?
    ensures PatchConfig(cast, spec, p, changes[..k]).Refused?
    decreases k
  {
    if i < k {
      assert changes[..k][..k - 1] == changes[..k - 1];
      ConfigRefusalStays(cast, spec, p, changes, i, k - 1);
    }
  }

  lemma AttrRefusalStarts(spec: Spec, changes: seq<Change<bool>>)
    ensures PatchAttr(spec, Refused, changes[..0]).Refused?
  {
  }

  lemma {:induction false} AttrRefusalStays(spec: Spec, start: Patched, changes: seq<Change<bool>>, i: nat, k: nat)
    requires i <= k <= |changes| && PatchAttr(spec, start, changes[..i]).Refused?
    ensures PatchAttr(spec, start, changes[..k]).Refused?
    decreases k
  {
    if i < k {
      assert changes[..k][..k - 1] == changes[..k - 1];
      AttrRefusalStays(spec, start, changes, i, k - 1);
    }
  }

  // ---------- what a patch does ----------

  ghost predicate DistinctKeys<T>(changes: seq<Change<T>>) {
    forall i, j :: 0 <= i < j < |changes| ==> changes[i].key != changes[j].key
  }

  /** Single parameters only, each once, each castable. */
  ghost predicate LeafChanges(cast: Cast, spec: Spec, changes: seq<Change<Value>>) {
    && DistinctKeys(changes)
    && forall i :: 0 <= i < |changes| ==>
       IsLeafKey(spec, changes[i].key) && cast(changes[i].key, changes[i].value).Some?
  }

  ghost predicate Names<T>(changes: seq<Change<T>>, key: string) {
    exists i :: 0 <= i < |changes| && changes[i].key == key
  }

  lemma PutLeaf(spec: Spec, p: Pair, key: string, v: Value)
    requires Conforms(spec, p) && IsLeafKey(spec, key)
    ensures Get(p.config, key).Some?
    ensures Conforms(spec, p.(config := Put(p.config, key, v)))
    ensures forall other :: IsLeafKey(spec, other) ==>
              Get(Put(p.config, key, v), other) == if other == key then Some(v) else Get(p.config, other)
  {
    LeafIsThere(spec, p, key);
    PutConforms(spec, p, key, v);
    hide Put, Get, Conforms;
    forall other | IsLeafKey(spec, other)
      ensures Get(Put(p.config, key, v), other) == if other == key then Some(v) else Get(p.config, other)
    {
      PutGet(spec, p, key, v, other);
    }
  }

  lemma PutGet(spec: Spec, p: Pair, key: string, v: Value, other: string)
    requires Conforms(spec, p) && IsLeafKey(spec, key) && IsLeafKey(spec, other) && Get(p.config, key).Some?
    ensures Get(Put(p.config, key, v), other) == if other == key then Some(v) else Get(p.config, other)
  {
    LeafIsThere(spec, p, key);
    LeafIsThere(spec, p, other);
    hide Conforms, FlatKey, ParseKey;
  }

  lemma PutConforms(spec: Spec, p: Pair, key: string, v: Value)
    requires Conforms(spec, p) && IsLeafKey(spec, key) && Get(p.config, key).Some?
    ensures Conforms(spec, p.(config := Put(p.config, key, v)))
  {
    LeafIsThere(spec, p, key);
    var (name, sub) := ParseKey(key);
    if sub == "" {
      ReplaceConforms(spec, p, name, v);
    } else {
      ShapeStays(spec, name, p.config[name].entries, sub, v);
      assert GroupShape(spec, name, p.config[name]);
      ReplaceConforms(spec, p, name, Dict(p.config[name].entries[sub := v]));
    }
    hide Conforms;
  }

  lemma ReplaceConforms(spec: Spec, p: Pair, name: string, v: Value)
    requires Conforms(spec, p) && name in p.config && (IsGroup(spec, name) ==> GroupShape(spec, name, v))
    ensures Conforms(spec, p.(config := p.config[name := v]))
  {
    hide FlatKey, ParseKey, SpecValid, GroupShape, IsGroup, IsActivatable;
    assert p.config[name := v].Keys == p.config.Keys;
  }

  lemma ShapeStays(spec: Spec, name: string, entries: map<string, Value>, sub: string, v: Value)
    requires sub in entries
    ensures GroupShape(spec, name, Dict(entries)) ==> GroupShape(spec, name, Dict(entries[sub := v]))
  {
    assert entries[sub := v].Keys == entries.Keys;
  }

  lemma LeafIsThere(spec: Spec, p: Pair, key: string)
    requires Conforms(spec, p) && IsLeafKey(spec, key)
    ensures var (name, sub) := ParseKey(key);
            && key == FlatKey(name, sub) && '/' !in name && name in p.config
            && (sub == "" <==> !IsGroup(spec, name))
            && (sub != "" ==> p.config[name].Dict? && sub in p.config[name].entries)
            && Get(p.config, key).Some?
  {
  }

  /** Every named parameter gets its cast value, every other keeps its own; the flag says whether a
      value was different. */
  lemma {:induction false} PatchLeaves(cast: Cast, spec: Spec, p: Pair, changes: seq<Change<Value>>)
    requires Conforms(spec, p) && LeafChanges(cast, spec, changes)
    ensures var r := PatchConfig(cast, spec, p, changes);
            && r.Patched? && Conforms(spec, r.pair) && r.pair.attr == p.attr
            && (forall i :: 0 <= i < |changes| ==>
                  Get(r.pair.config, changes[i].key) == cast(changes[i].key, changes[i].value))
            && (forall key :: IsLeafKey(spec, key) && !Names(changes, key) ==>
                  Get(r.pair.config, key) == Get(p.config, key))
            && (r.changed <==>
                  exists i :: 0 <= i < |changes|
                    && Get(p.config, changes[i].key) != cast(changes[i].key, changes[i].value))
  {
    hide Conforms, Put, Get;
    if changes != [] {
      var init, change := changes[..|changes| - 1], changes[|changes| - 1];
      PatchLeaves(cast, spec, p, init);
      var earlier := PatchConfig(cast, spec, p, init).pair;
      PutLeaf(spec, earlier, change.key, cast(change.key, change.value).value);
      assert changes == init + [change];
      assert !Names(init, change.key);
      var r := PatchConfig(cast, spec, p, changes);
      forall key | IsLeafKey(spec, key) && !Names(changes, key) ensures Get(r.pair.config, key) == Get(p.config, key) {
        assert !Names(init, key) && key != change.key;
      }
    }
  }

  ghost predicate GroupKeyOf(spec: Spec, key: string, group: string) {
    '/' !in group && key == FlatKey(group, "") && IsActivatable(spec, group)
  }

  /** Switches of activatable groups, each once. */
  ghost predicate GroupSwitches(spec: Spec, changes: seq<Change<bool>>) {
    && DistinctKeys(changes)
    && forall i :: 0 <= i < |changes| ==> IsSwitchKey(spec, changes[i].key)
  }

  ghost predicate IsSwitchKey(spec: Spec, key: string) {
    exists g :: GroupKeyOf(spec, key, g)
  }

  /** Every named group has its switch, every other keeps its own. */
  ghost predicate Switched(spec: Spec, first: map<string, bool>, changes: seq<Change<bool>>, now: map<string, bool>) {
    && (forall g :: g in now <==> g in first)
    && (forall i, g :: 0 <= i < |changes| && GroupKeyOf(spec, changes[i].key, g) ==>
       g in now && now[g] == changes[i].value)
    && (forall g :: g in first && !Names(changes, FlatKey(g, "")) ==> g in now && now[g] == first[g])
  }

  lemma {:induction false} PatchSwitches(spec: Spec, start: Patched, changes: seq<Change<bool>>)
    requires start.Patched? && GroupSwitches(spec, changes)
    requires forall g :: '/' !in g && IsActivatable(spec, g) ==> g in start.pair.attr
    ensures var r := PatchAttr(spec, start, changes);
            && r.Patched? && r.pair.config == start.pair.config
            && Switched(spec, start.pair.attr, changes, r.pair.attr)
            && (r.changed <==> start.changed || r.pair.attr != start.pair.attr)
  {
    hide FlatKey, IsActivatable, StripSlashes;
    if changes == [] {
      assert Switched(spec, start.pair.attr, [], start.pair.attr);
    } else {
      var init, last := changes[..|changes| - 1], changes[|changes| - 1];
      assert changes == init + [last];
      PatchSwitches(spec, start, init);
      var g :| GroupKeyOf(spec, last.key, g);
      GroupKeyUnique(spec, last.key, g);
      assert g in start.pair.attr;
      var now := PatchAttr(spec, start, init).pair.attr;
      OneSwitch(spec, start.pair.attr, init, last, now, g);
      hide Switched, GroupSwitches, PatchAttr;
      LastSwitch(spec, start, init, last, g);
      FlagStep(start.pair.attr, now, g, last.value);
    }
  }

  lemma LastSwitch(spec: Spec, start: Patched, init: seq<Change<bool>>, last: Change<bool>, g: string)
    requires PatchAttr(spec, start, init).Patched? && g in PatchAttr(spec, start, init).pair.attr
    requires GroupKeyOf(spec, last.key, g)
    ensures var r, earlier := PatchAttr(spec, start, init + [last]), PatchAttr(spec, start, init);
            && r.Patched? && r.pair.config == earlier.pair.config
            && r.pair.attr == earlier.pair.attr[g := last.value]
            && (r.changed <==> earlier.changed || earlier.pair.attr[g] != last.value)
  {
    assert (init + [last])[..|init|] == init;
    GroupKeyUnique(spec, last.key, g);
    hide FlatKey, IsActivatable, StripSlashes, GroupKeyOf;
  }

  /** Whether the switches differ from the first ones is decided by one more switch alone. */
  lemma FlagStep(first: map<string, bool>, now: map<string, bool>, g: string, v: bool)
    requires g in first && g in now && first[g] == now[g]
    ensures now[g := v] != first <==> now != first || now[g] != v
  {
    if now != first {
      var h :| ((h in first) != (h in now)) || (h in first && h in now && first[h] != now[h]);
      assert h != g && (h in now[g := v] <==> h in now);
    } else {
      assert now[g := v][g] == v;
    }
  }

  lemma OneSwitch(spec: Spec, first: map<string, bool>, init: seq<Change<bool>>, last: Change<bool>,
                  now: map<string, bool>, g: string)
    requires Switched(spec, first, init, now) && g in first
    requires DistinctKeys(init + [last])
    requires GroupKeyOf(spec, last.key, g) && forall h :: GroupKeyOf(spec, last.key, h) ==> h == g
    ensures g in now && now[g] == first[g]
    ensures Switched(spec, first, init + [last], now[g := last.value])
  {
    hide FlatKey;
    var changes := init + [last];
    assert forall i :: 0 <= i < |init| ==> init[i] == changes[i];
    assert changes[|init|] == last && last.key == FlatKey(g, "") by { SwitchKey(spec, last.key, g); }
    assert !Names(init, last.key);
    forall i, h | 0 <= i < |init| && GroupKeyOf(spec, init[i].key, h) ensures h != g {
      if h == g {
        SameGroupSameKey(spec, last.key, init[i].key, g);
      }
    }
    forall h | h in first && !Names(changes, FlatKey(h, "")) ensures !Names(init, FlatKey(h, "")) && h != g {
    }
  }

  lemma SwitchKey(spec: Spec, key: string, g: string)
    requires GroupKeyOf(spec, key, g)
    ensures key == FlatKey(g, "")
  {
  }

  lemma SameGroupSameKey(spec: Spec, a: string, b: string, g: string)
    requires GroupKeyOf(spec, a, g) && GroupKeyOf(spec, b, g)
    ensures a == b
  {
  }

  lemma GroupKeyUnique(spec: Spec, key: string, g: string)
    requires GroupKeyOf(spec, key, g)
    ensures forall h :: GroupKeyOf(spec, key, h) ==> h == g
    ensures key in spec && spec[key].activatable.Some? && StripSlashes(key) == g && key == FlatKey(g, "")
  {
    StripGroupKey(g);
    forall h | GroupKeyOf(spec, key, h) ensures h == g {
      StripGroupKey(h);
    }
  }

  // ---------- comparing ----------

  datatype Diff = ValueDiff(before: Value, after: Value) | GroupDiff(subs: map<string, (Value, Value)>)

  function SubsDiff(before: map<string, Value>, after: map<string, Value>): map<string, (Value, Value)> {
    map s | s in before && s in after && before[s] != after[s] :: (before[s], after[s])
  }

  /** What the two differ in; nothing for what is equal. */
  function ParamDiff(isGroup: bool, before: Value, after: Value): Option<Diff> {
    if isGroup && before.Dict? && after.Dict? then
      var subs := SubsDiff(before.entries, after.entries);
      if subs == map[] then None else Some(GroupDiff(subs))
    else if before == after then None
    else Some(ValueDiff(before, after))
  }

  function ConfigDiff(spec: Spec, before: Pair, after: Pair): map<string, Diff> {
    map n | n in before.config && n in after.config
      && ParamDiff(IsGroup(spec, n), before.config[n], after.config[n]).Some?
      :: ParamDiff(IsGroup(spec, n), before.config[n], after.config[n]).value
  }

  function AttrDiff(spec: Spec, before: Pair, after: Pair): map<string, (bool, bool)> {
    map g | g in before.attr && g in after.attr && before.attr[g] != after.attr[g] :: (before.attr[g], after.attr[g])
  }

  /** The walk over the parameters of the old configuration. */
  method GetConfigsDiff(spec: Spec, before: Pair, after: Pair)
    returns (diff: map<string, Diff>, attrDiff: map<string, (bool, bool)>)
    requires Conforms(spec, before) && Conforms(spec, after)
    ensures diff == ConfigDiff(spec, before, after)
    ensures attrDiff == AttrDiff(spec, before, after)
  {
    diff, attrDiff := map[], map[];
    SameShape(spec, before, after);
    hide Conforms, ParamDiff, SubsDiff, FlatKey, ConfigDiff, AttrDiff, GroupShape, IsGroup;
    ghost var goal, attrGoal := ConfigDiff(spec, before, after), AttrDiff(spec, before, after);
    DiffKeys(spec, before, after);
    PartStarts(goal, before.config.Keys);
    PartStarts(attrGoal, before.config.Keys);
    hide PartOf;
    var rest := before.config.Keys;
    while rest != {}
      invariant rest <= before.config.Keys
      invariant PartOf(diff, goal, rest)
      invariant PartOf(attrDiff, attrGoal, rest)
    {
      var n := PickOne(rest);
      DiffAt(spec, before, after, n);
      PartGrows(diff, goal, rest, n);
      PartGrows(attrDiff, attrGoal, rest, n);
      var d := GetParamDiff(IsGroup(spec, n), before.config[n], after.config[n]);
      if d.Some? {
        diff := diff[n := d.value];
      }
      if IsGroup(spec, n) && IsActivatable(spec, n) {
        if before.attr[n] != after.attr[n] {
          attrDiff := attrDiff[n := (before.attr[n], after.attr[n])];
        }
      }
      rest := rest - {n};
    }
    PartEnds(diff, goal);
    PartEnds(attrDiff, attrGoal);
  }

  /** The entries of `goal` outside `rest`. */
  ghost predicate PartOf<V(!new)>(m: map<string, V>, goal: map<string, V>, rest: set<string>) {
    && (forall n :: n in m <==> n in goal && n !in rest)
    && (forall n :: n in m ==> n in goal && m[n] == goal[n])
  }

  lemma PartStarts<V(!new)>(goal: map<string, V>, rest: set<string>)
    requires goal.Keys <= rest
    ensures PartOf(map[], goal, rest)
  {
    assert forall n :: n in goal ==> n in goal.Keys;
  }

  lemma PartGrows<V(!new)>(m: map<string, V>, goal: map<string, V>, rest: set<string>, n: string)
    requires PartOf(m, goal, rest) && n in rest
    ensures PartOf(if n in goal then m[n := goal[n]] else m, goal, rest - {n})
  {
  }

  lemma PartEnds<V(!new)>(m: map<string, V>, goal: map<string, V>)
    requires PartOf(m, goal, {})
    ensures m == goal
  {
    assert m.Keys == goal.Keys;
  }

  lemma DiffKeys(spec: Spec, before: Pair, after: Pair)
    requires forall g :: g in before.attr ==> g in before.config
    ensures ConfigDiff(spec, before, after).Keys <= before.config.Keys
    ensures AttrDiff(spec, before, after).Keys <= before.config.Keys
  {
  }

  lemma DiffAt(spec: Spec, before: Pair, after: Pair, n: string)
    requires n in before.config && n in after.config
    ensures var d := ParamDiff(IsGroup(spec, n), before.config[n], after.config[n]);
            && (n in ConfigDiff(spec, before, after) <==> d.Some?)
            && (d.Some? ==> ConfigDiff(spec, before, after)[n] == d.value)
    ensures n in AttrDiff(spec, before, after) <==>
            n in before.attr && n in after.attr && before.attr[n] != after.attr[n]
    ensures n in AttrDiff(spec, before, after) ==> AttrDiff(spec, before, after)[n] == (before.attr[n], after.attr[n])
  {
  }

  method GetParamDiff(isGroup: bool, before: Value, after: Value) returns (diff: Option<Diff>)
    requires isGroup ==> before.Dict? && after.Dict? && before.entries.Keys == after.entries.Keys
    ensures diff == ParamDiff(isGroup, before, after)
  {
    if isGroup {
      var subs := GetGroupDiff(before.entries, after.entries);
      diff := if subs != map[] then Some(GroupDiff(subs)) else None;
    } else {
      diff := if before != after then Some(ValueDiff(before, after)) else None;
    }
  }

  method GetGroupDiff(before: map<string, Value>, after: map<string, Value>) returns (diff: map<string, (Value, Value)>)
    requires before.Keys == after.Keys
    ensures diff == SubsDiff(before, after)
  {
    diff := map[];
    var rest := before.Keys;
    while rest != {}
      invariant rest <= before.Keys
      invariant forall s :: s in diff <==> s !in rest && s in SubsDiff(before, after)
      invariant forall s :: s in diff ==> diff[s] == SubsDiff(before, after)[s]
    {
      var s := PickOne(rest);
      if before[s] != after[s] {
        diff := diff[s := (before[s], after[s])];
      }
      rest := rest - {s};
    }
  }

  lemma SameShape(spec: Spec, before: Pair, after: Pair)
    requires Conforms(spec, before) && Conforms(spec, after)
    ensures before.config.Keys == after.config.Keys && before.attr.Keys == after.attr.Keys
    ensures forall n :: n in before.config && IsGroup(spec, n) ==>
              before.config[n].Dict? && after.config[n].Dict?
                && before.config[n].entries.Keys == after.config[n].entries.Keys
    ensures forall g :: g in before.attr <==> g in before.config && IsActivatable(spec, g)
  {
    forall n | n in before.config && IsGroup(spec, n)
      ensures before.config[n].entries.Keys == after.config[n].entries.Keys
    {
      assert GroupShape(spec, n, before.config[n]) && GroupShape(spec, n, after.config[n]);
    }
  }

  // ---------- the new sides of a difference, as changes ----------

  function NewSides(diff: map<string, Diff>): set<Change<Value>> {
    (set n | n in diff && diff[n].ValueDiff? :: Change(FlatKey(n, ""), diff[n].after))
    + (set n, s | n in diff && diff[n].GroupDiff? && s in diff[n].subs :: Change(FlatKey(n, s), diff[n].subs[s].1))
  }

  function NewSwitches(diff: map<string, (bool, bool)>): set<Change<bool>> {
    set g | g in diff :: Change(FlatKey(g, ""), diff[g].1)
  }

  /** A dictionary of these changes, in some order. */
  ghost predicate Lists<T(!new)>(changes: seq<Change<T>>, s: set<Change<T>>) {
    DistinctKeys(changes) && forall c :: c in changes <==> c in s
  }

  /** The difference speaks of exactly the parameters whose values differ. */
  lemma NewSidesMeaning(spec: Spec, before: Pair, after: Pair, c: Change<Value>)
    requires Conforms(spec, before) && Conforms(spec, after)
    ensures c in NewSides(ConfigDiff(spec, before, after)) <==>
              IsLeafKey(spec, c.key) && Get(before.config, c.key) != Get(after.config, c.key)
              && Get(after.config, c.key) == Some(c.value)
  {
    var diff := ConfigDiff(spec, before, after);
    if c in NewSides(diff) {
      if n :| n in diff && diff[n].ValueDiff? && c == Change(FlatKey(n, ""), diff[n].after) {
        ValueSideIsLeaf(spec, before, after, n);
      } else {
        var n, s :| n in diff && diff[n].GroupDiff? && s in diff[n].subs
          && c == Change(FlatKey(n, s), diff[n].subs[s].1);
        GroupSideIsLeaf(spec, before, after, n, s);
      }
    }
    if IsLeafKey(spec, c.key) && Get(before.config, c.key) != Get(after.config, c.key)
       && Get(after.config, c.key) == Some(c.value) {
      LeafIsSide(spec, before, after, c);
    }
  }

  lemma LeafIsSide(spec: Spec, before: Pair, after: Pair, c: Change<Value>)
    requires Conforms(spec, before) && Conforms(spec, after)
    requires IsLeafKey(spec, c.key) && Get(before.config, c.key) != Get(after.config, c.key)
    requires Get(after.config, c.key) == Some(c.value)
    ensures c in NewSides(ConfigDiff(spec, before, after))
  {
    SameShape(spec, before, after);
    LeafIsThere(spec, before, c.key);
    LeafIsThere(spec, after, c.key);
    hide Conforms, FlatKey;
    var diff := ConfigDiff(spec, before, after);
    var (n, s) := ParseKey(c.key);
    if s == "" {
      assert n in diff && c == Change(FlatKey(n, ""), diff[n].after);
    } else {
      assert s in SubsDiff(before.config[n].entries, after.config[n].entries);
      assert n in diff && s in diff[n].subs && c == Change(FlatKey(n, s), diff[n].subs[s].1);
    }
  }

  lemma ValueSideIsLeaf(spec: Spec, before: Pair, after: Pair, n: string)
    requires Conforms(spec, before) && Conforms(spec, after)
    requires n in ConfigDiff(spec, before, after) && ConfigDiff(spec, before, after)[n].ValueDiff?
    ensures IsLeafKey(spec, FlatKey(n, "")) && Get(before.config, FlatKey(n, "")) != Get(after.config, FlatKey(n, ""))
    ensures Get(after.config, FlatKey(n, "")) == Some(ConfigDiff(spec, before, after)[n].after)
  {
    ParseFlatKey(n, "");
    SameShape(spec, before, after);
    hide ParseKey, FlatKey, SpecValid, GroupShape, SubsDiff;
  }

  lemma GroupSideIsLeaf(spec: Spec, before: Pair, after: Pair, n: string, s: string)
    requires Conforms(spec, before) && Conforms(spec, after)
    requires n in ConfigDiff(spec, before, after) && ConfigDiff(spec, before, after)[n].GroupDiff?
    requires s in ConfigDiff(spec, before, after)[n].subs
    ensures IsLeafKey(spec, FlatKey(n, s)) && Get(before.config, FlatKey(n, s)) != Get(after.config, FlatKey(n, s))
    ensures Get(after.config, FlatKey(n, s)) == Some(ConfigDiff(spec, before, after)[n].subs[s].1)
  {
    ParseFlatKey(n, s);
    assert GroupShape(spec, n, before.config[n]);
    assert FlatKey(n, s) in spec && !spec[FlatKey(n, s)].isGroup;
    hide ParseKey, FlatKey, SpecValid, GroupShape, Conforms;
  }

  /** Configurations of one specification are equal when all their parameters and switches are. */
  lemma SameLeaves(spec: Spec, a: Pair, b: Pair)
    requires Conforms(spec, a) && Conforms(spec, b) && a.attr == b.attr
    requires forall key :: IsLeafKey(spec, key) ==> Get(a.config, key) == Get(b.config, key)
    ensures a == b
  {
    SameShape(spec, a, b);
    forall n | n in a.config.Keys ensures a.config[n] == b.config[n] {
      SameParam(spec, a, b, n);
    }
    hide Conforms, Get, IsLeafKey;
    assert a.config == b.config;
  }

  lemma SameParam(spec: Spec, a: Pair, b: Pair, n: string)
    requires Conforms(spec, a) && Conforms(spec, b) && n in a.config && n in b.config
    requires forall key :: IsLeafKey(spec, key) ==> Get(a.config, key) == Get(b.config, key)
    ensures a.config[n] == b.config[n]
  {
    if IsGroup(spec, n) {
      var p, q := a.config[n].entries, b.config[n].entries;
      assert GroupShape(spec, n, a.config[n]) && GroupShape(spec, n, b.config[n]);
      assert p.Keys == q.Keys;
      forall s | s in p ensures p[s] == q[s] {
        ParseFlatKey(n, s);
        assert s != "" && IsLeafKey(spec, FlatKey(n, s));
        assert Get(a.config, FlatKey(n, s)) == Some(p[s]) && Get(b.config, FlatKey(n, s)) == Some(q[s]);
      }
      assert p == q;
    } else {
      ParseFlatKey(n, "");
      assert IsLeafKey(spec, FlatKey(n, ""));
      assert Get(a.config, FlatKey(n, "")) == Some(a.config[n]) && Get(b.config, FlatKey(n, "")) == Some(b.config[n]);
    }
  }

  // ---------- difference, then patch ----------

  /** The casts leave every new value of the difference as it is. */
  ghost predicate CastsKeep(cast: Cast, changes: seq<Change<Value>>) {
    forall i :: 0 <= i < |changes| ==> cast(changes[i].key, changes[i].value) == Some(changes[i].value)
  }

  lemma NoneDiffer(spec: Spec, before: Pair, after: Pair)
    requires Conforms(spec, before) && Conforms(spec, after)
    ensures ConfigDiff(spec, before, after) == map[] && AttrDiff(spec, before, after) == map[] <==> before == after
  {
    if before == after {
      NothingInItself(spec, before);
    } else if ConfigDiff(spec, before, after) == map[] && AttrDiff(spec, before, after) == map[] {
      NoAttrDiff(spec, before, after);
      assert NewSides(map[]) == {};
      hide ConfigDiff, AttrDiff, NewSides, Conforms, Get;
      forall key | IsLeafKey(spec, key) ensures Get(before.config, key) == Get(after.config, key) {
        LeafIsThere(spec, after, key);
        NewSidesMeaning(spec, before, after, Change(key, Get(after.config, key).value));
      }
      SameLeaves(spec, before, after);
    }
  }

  lemma NothingInItself(spec: Spec, p: Pair)
    ensures ConfigDiff(spec, p, p) == map[] && AttrDiff(spec, p, p) == map[]
  {
    forall n ensures n !in ConfigDiff(spec, p, p) {
      if n in p.config && p.config[n].Dict? {
        assert SubsDiff(p.config[n].entries, p.config[n].entries) == map[];
      }
    }
  }

  lemma NoAttrDiff(spec: Spec, before: Pair, after: Pair)
    requires before.attr.Keys == after.attr.Keys || (Conforms(spec, before) && Conforms(spec, after))
    requires AttrDiff(spec, before, after) == map[]
    ensures before.attr == after.attr
  {
    if Conforms(spec, before) && Conforms(spec, after) {
      SameShape(spec, before, after);
    }
    hide Conforms;
    forall g | g in before.attr ensures g in after.attr && before.attr[g] == after.attr[g] {
      assert g in after.attr.Keys;
      assert g !in AttrDiff(spec, before, after);
    }
  }

  lemma SwitchesReach(spec: Spec, before: Pair, after: Pair, switches: seq<Change<bool>>, now: map<string, bool>)
    requires Conforms(spec, before) && Conforms(spec, after)
    requires Lists(switches, NewSwitches(AttrDiff(spec, before, after)))
    requires Switched(spec, before.attr, switches, now)
    ensures now == after.attr
  {
    hide *;
    SameShape(spec, before, after);
    SwitchedKeys(spec, before.attr, switches, now);
    forall g | g in before.attr.Keys ensures '/' !in g {
      GroupsOfAttr(spec, before, g);
    }
    forall g | g in before.attr.Keys ensures now[g] == after.attr[g] {
      GroupsOfAttr(spec, before, g);
      if before.attr[g] != after.attr[g] {
        SwitchMoves(spec, before, after, switches, now, g);
      } else {
        SwitchStays(spec, before, after, switches, now, g);
      }
    }
  }

  lemma SwitchedKeys(spec: Spec, first: map<string, bool>, changes: seq<Change<bool>>, now: map<string, bool>)
    requires Switched(spec, first, changes, now)
    ensures now.Keys == first.Keys
  {
  }

  lemma GroupsOfAttr(spec: Spec, p: Pair, g: string)
    requires Conforms(spec, p) && g in p.attr
    ensures '/' !in g && IsActivatable(spec, g)
  {
  }

  lemma SwitchMoves(spec: Spec, before: Pair, after: Pair, switches: seq<Change<bool>>, now: map<string, bool>,
      g: string)
    requires g in before.attr && g in after.attr && before.attr[g] != after.attr[g]
    requires '/' !in g && IsActivatable(spec, g)
    requires Lists(switches, NewSwitches(AttrDiff(spec, before, after)))
    requires Switched(spec, before.attr, switches, now)
    ensures g in now && now[g] == after.attr[g]
  {
    hide FlatKey, IsActivatable;
    var diff := AttrDiff(spec, before, after);
    var c := Change(FlatKey(g, ""), diff[g].1);
    assert c in NewSwitches(diff);
    assert c in switches;
    var i :| 0 <= i < |switches| && switches[i] == c;
    assert GroupKeyOf(spec, switches[i].key, g);
  }

  lemma SwitchStays(spec: Spec, before: Pair, after: Pair, switches: seq<Change<bool>>, now: map<string, bool>,
      g: string)
    requires g in before.attr && g in after.attr && before.attr[g] == after.attr[g]
    requires '/' !in g && forall h :: h in before.attr ==> '/' !in h
    requires Lists(switches, NewSwitches(AttrDiff(spec, before, after)))
    requires Switched(spec, before.attr, switches, now)
    ensures g in now && now[g] == after.attr[g]
  {
    hide FlatKey, IsActivatable, StripSlashes;
    var diff := AttrDiff(spec, before, after);
    forall i | 0 <= i < |switches| ensures switches[i].key != FlatKey(g, "") {
      assert switches[i] in switches;
      assert switches[i] in NewSwitches(diff);
      var h :| h in diff && switches[i] == Change(FlatKey(h, ""), diff[h].1);
      StripGroupKey(g);
      StripGroupKey(h);
    }
    assert !Names(switches, FlatKey(g, ""));
  }

  lemma NewSwitchesAreSwitches(spec: Spec, before: Pair, after: Pair, switches: seq<Change<bool>>)
    requires Conforms(spec, before) && Conforms(spec, after)
    requires Lists(switches, NewSwitches(AttrDiff(spec, before, after)))
    ensures GroupSwitches(spec, switches) && KeysInSpec(spec, switches)
  {
    var diff := AttrDiff(spec, before, after);
    forall i | 0 <= i < |switches| ensures IsSwitchKey(spec, switches[i].key) && switches[i].key in spec {
      assert switches[i] in NewSwitches(diff);
      var g :| g in diff && switches[i] == Change(FlatKey(g, ""), diff[g].1);
      assert GroupKeyOf(spec, switches[i].key, g);
    }
  }

  /** The new sides of the difference, passed as changes to the old configuration, give the new one
      exactly when the casts keep them. */
  lemma DiffThenPatch(cast: Cast, spec: Spec, before: Pair, after: Pair,
                      changes: seq<Change<Value>>, switches: seq<Change<bool>>)
    requires Conforms(spec, before) && Conforms(spec, after)
    requires Lists(changes, NewSides(ConfigDiff(spec, before, after)))
    requires Lists(switches, NewSwitches(AttrDiff(spec, before, after)))
    ensures Patch(cast, spec, before, changes, switches) ==
              Patched(after, ConfigDiff(spec, before, after) != map[] || AttrDiff(spec, before, after) != map[])
            <==> CastsKeep(cast, changes)
  {
    hide Conforms, PatchConfig, PatchAttr, ConfigDiff, AttrDiff, NewSides, NewSwitches, Lists, KeysInSpec;
    SidesAreLeaves(spec, before, after, changes);
    NewSwitchesAreSwitches(spec, before, after, switches);
    NoneDiffer(spec, before, after);
    if CastsKeep(cast, changes) {
      PatchReaches(cast, spec, before, after, changes, switches);
    } else if forall i :: 0 <= i < |changes| ==> cast(changes[i].key, changes[i].value).Some? {
      CastMisses(cast, spec, before, after, changes, switches);
    } else {
      var i :| 0 <= i < |changes| && cast(changes[i].key, changes[i].value).None?;
      CastRefuses(cast, spec, before, changes, i, |changes|);
      assert changes[..|changes|] == changes && switches[..|switches|] == switches;
      AttrRefusalStarts(spec, switches);
      AttrRefusalStays(spec, Refused, switches, 0, |switches|);
    }
  }

  lemma SidesAreLeaves(spec: Spec, before: Pair, after: Pair, changes: seq<Change<Value>>)
    requires Conforms(spec, before) && Conforms(spec, after)
    requires Lists(changes, NewSides(ConfigDiff(spec, before, after)))
    ensures forall i :: 0 <= i < |changes| ==>
              && IsLeafKey(spec, changes[i].key)
              && Get(before.config, changes[i].key) != Get(after.config, changes[i].key)
              && Get(after.config, changes[i].key) == Some(changes[i].value)
    ensures forall key :: IsLeafKey(spec, key) && !Names(changes, key) ==>
            Get(before.config, key) == Get(after.config, key)
    ensures KeysInSpec(spec, changes)
  {
    forall i | 0 <= i < |changes|
      ensures IsLeafKey(spec, changes[i].key)
      ensures Get(before.config, changes[i].key) != Get(after.config, changes[i].key)
      ensures Get(after.config, changes[i].key) == Some(changes[i].value)
    {
      assert changes[i] in changes;
      NewSidesMeaning(spec, before, after, changes[i]);
    }
    forall key | IsLeafKey(spec, key) && !Names(changes, key)
      ensures Get(before.config, key) == Get(after.config, key)
    {
      LeafIsThere(spec, after, key);
      var c := Change(key, Get(after.config, key).value);
      NewSidesMeaning(spec, before, after, c);
      assert forall i :: 0 <= i < |changes| ==> changes[i] != c;
    }
  }

  lemma SwitchesCover(spec: Spec, p: Pair)
    requires Conforms(spec, p)
    ensures forall g :: '/' !in g && IsActivatable(spec, g) ==> g in p.attr
  {
  }

  lemma PatchReaches(cast: Cast, spec: Spec, before: Pair, after: Pair,
                     changes: seq<Change<Value>>, switches: seq<Change<bool>>)
    requires Conforms(spec, before) && Conforms(spec, after) && CastsKeep(cast, changes)
    requires Lists(changes, NewSides(ConfigDiff(spec, before, after)))
    requires Lists(switches, NewSwitches(AttrDiff(spec, before, after)))
    ensures Patch(cast, spec, before, changes, switches) == Patched(after, before != after)
  {
    SidesAreLeaves(spec, before, after, changes);
    NewSwitchesAreSwitches(spec, before, after, switches);
    ConfigReaches(cast, spec, before, after, changes);
    var r := PatchConfig(cast, spec, before, changes);
    SwitchesCover(spec, before);
    hide Conforms, PatchConfig, PatchAttr, Switched, ConfigDiff, AttrDiff, NewSides, NewSwitches, Lists, KeysInSpec,
      GroupSwitches, IsActivatable, IsLeafKey, Get, CastsKeep;
    PatchSwitches(spec, r, switches);
    SwitchesReach(spec, before, after, switches, PatchAttr(spec, r, switches).pair.attr);
  }

  lemma ConfigReaches(cast: Cast, spec: Spec, before: Pair, after: Pair, changes: seq<Change<Value>>)
    requires Conforms(spec, before) && Conforms(spec, after) && CastsKeep(cast, changes) && DistinctKeys(changes)
    requires forall i :: 0 <= i < |changes| ==>
              && IsLeafKey(spec, changes[i].key)
              && Get(before.config, changes[i].key) != Get(after.config, changes[i].key)
              && Get(after.config, changes[i].key) == Some(changes[i].value)
    requires forall key :: IsLeafKey(spec, key) && !Names(changes, key) ==>
             Get(before.config, key) == Get(after.config, key)
    ensures var r := PatchConfig(cast, spec, before, changes);
            r == Patched(Pair(after.config, before.attr), before.config != after.config)
  {
    SameShape(spec, before, after);
    hide Conforms, Get, PatchConfig, IsLeafKey;
    PatchLeaves(cast, spec, before, changes);
    var r := PatchConfig(cast, spec, before, changes);
    forall key | IsLeafKey(spec, key) ensures Get(r.pair.config, key) == Get(after.config, key) {
      if Names(changes, key) {
        var i :| 0 <= i < |changes| && changes[i].key == key;
      }
    }
    SameConfig(spec, r.pair, after);
    if changes == [] {
      assert forall key :: !Names(changes, key);
      SameConfig(spec, before, after);
    } else {
      assert Get(before.config, changes[0].key) != cast(changes[0].key, changes[0].value);
    }
  }

  lemma SameConfig(spec: Spec, a: Pair, b: Pair)
    requires Conforms(spec, a) && Conforms(spec, b)
    requires forall key :: IsLeafKey(spec, key) ==> Get(a.config, key) == Get(b.config, key)
    ensures a.config == b.config
  {
    assert Conforms(spec, a.(attr := b.attr));
    SameLeaves(spec, a.(attr := b.attr), b);
  }

  lemma CastMisses(cast: Cast, spec: Spec, before: Pair, after: Pair,
                   changes: seq<Change<Value>>, switches: seq<Change<bool>>)
    requires Conforms(spec, before) && Conforms(spec, after) && !CastsKeep(cast, changes)
    requires forall i :: 0 <= i < |changes| ==> cast(changes[i].key, changes[i].value).Some?
    requires Lists(changes, NewSides(ConfigDiff(spec, before, after)))
    requires Lists(switches, NewSwitches(AttrDiff(spec, before, after)))
    ensures var r := Patch(cast, spec, before, changes, switches);
            r.Patched? && r.pair != after
  {
    hide Conforms, Switched, KeysInSpec, GroupSwitches, IsActivatable, IsLeafKey, CastsKeep, Get,
      ConfigDiff, AttrDiff, NewSides, NewSwitches, PatchConfig, PatchAttr;
    SidesAreLeaves(spec, before, after, changes);
    NewSwitchesAreSwitches(spec, before, after, switches);
    ConfigMisses(cast, spec, before, after, changes);
    SwitchesCover(spec, before);
    PatchSwitches(spec, PatchConfig(cast, spec, before, changes), switches);
  }

  lemma ConfigMisses(cast: Cast, spec: Spec, before: Pair, after: Pair, changes: seq<Change<Value>>)
    requires Conforms(spec, before) && LeafChanges(cast, spec, changes) && !CastsKeep(cast, changes)
    requires forall i :: 0 <= i < |changes| ==> Get(after.config, changes[i].key) == Some(changes[i].value)
    ensures var r := PatchConfig(cast, spec, before, changes);
            r.Patched? && r.pair.attr == before.attr && r.pair.config != after.config
  {
    PatchLeaves(cast, spec, before, changes);
    hide Conforms, Get, PatchConfig;
    var i :| 0 <= i < |changes| && cast(changes[i].key, changes[i].value) != Some(changes[i].value);
    assert Get(PatchConfig(cast, spec, before, changes).pair.config, changes[i].key) !=
           Get(after.config, changes[i].key);
  }

  lemma {:induction false} CastRefuses(cast: Cast, spec: Spec, p: Pair, changes: seq<Change<Value>>, i: nat, k: nat)
    requires i < k <= |changes| && cast(changes[i].key, changes[i].value).None?
    ensures PatchConfig(cast, spec, p, changes[..k]).Refused?
    decreases k
  {
    assert changes[..k][..k - 1] == changes[..k - 1];
    if i < k - 1 {
      CastRefuses(cast, spec, p, changes, i, k - 1);
    }
  }

  /** The same changes a second time change nothing. */
  lemma PatchTwice(cast: Cast, spec: Spec, p: Pair, changes: seq<Change<Value>>, switches: seq<Change<bool>>)
    requires Conforms(spec, p) && LeafChanges(cast, spec, changes) && GroupSwitches(spec, switches)
    ensures var r := Patch(cast, spec, p, changes, switches);
            r.Patched? && Patch(cast, spec, r.pair, changes, switches) == Patched(r.pair, false)
  {
    forall i | 0 <= i < |switches| ensures switches[i].key in spec {
      var g :| GroupKeyOf(spec, switches[i].key, g);
    }
    assert KeysInSpec(spec, changes) && KeysInSpec(spec, switches);
    PatchLeaves(cast, spec, p, changes);
    SwitchesCover(spec, p);
    var mid := PatchConfig(cast, spec, p, changes);
    hide Conforms, Get, PatchConfig, PatchAttr, Switched, IsLeafKey, GroupKeyOf, IsActivatable, KeysInSpec, IsSwitchKey;
    PatchSwitches(spec, mid, switches);
    var r := PatchAttr(spec, mid, switches);
    ConfigSettled(cast, spec, r.pair, changes);
    AttrSettled(spec, mid.pair.attr, Patched(r.pair, false), switches);
  }

  lemma {:induction false} ConfigSettled(cast: Cast, spec: Spec, p: Pair, changes: seq<Change<Value>>)
    requires forall i :: 0 <= i < |changes| ==>
               cast(changes[i].key, changes[i].value).Some?
                 && Get(p.config, changes[i].key) == cast(changes[i].key, changes[i].value)
    ensures PatchConfig(cast, spec, p, changes) == Patched(p, false)
  {
    if changes != [] {
      ConfigSettled(cast, spec, p, changes[..|changes| - 1]);
    }
  }

  lemma {:induction false} AttrSettled(spec: Spec, first: map<string, bool>, start: Patched,
      switches: seq<Change<bool>>)
    requires start.Patched? && Switched(spec, first, switches, start.pair.attr)
    requires forall i :: 0 <= i < |switches| ==> IsSwitchKey(spec, switches[i].key)
    ensures PatchAttr(spec, start, switches) == start
  {
    if switches != [] {
      var n := |switches| - 1;
      assert Switched(spec, start.pair.attr, switches[..n], start.pair.attr) by {
        forall i, g | 0 <= i < n && GroupKeyOf(spec, switches[..n][i].key, g)
          ensures g in start.pair.attr && start.pair.attr[g] == switches[..n][i].value
        {
          assert GroupKeyOf(spec, switches[i].key, g);
        }
      }
      AttrSettled(spec, start.pair.attr, start, switches[..n]);
      var g :| GroupKeyOf(spec, switches[n].key, g);
      GroupKeyUnique(spec, switches[n].key, g);
    }
  }

  // ---------- which stored values the casts keep ----------

  /** A value of a parameter as the configuration check lets it be stored: unset, or of its kind. */
  predicate IsStored(kind: Kind, v: Value) {
    match kind
    case IntegerKind => v.Null? || (v.Number? && v.n == Truncated(v.n) as real)
    case FloatKind => v.Null? || v.Number?
    case OptionKind(options) => v.Null? || v in options
    case OtherKind => true
  }

  ghost predicate Stored(spec: Spec, p: Pair) {
    forall key :: IsLeafKey(spec, key) && Get(p.config, key).Some? ==>
      IsStored(spec[key].kind, Get(p.config, key).value)
  }

  /** The cast of an unset value raises. */
  predicate NeedsValue(kind: Kind) {
    match kind
    case OtherKind => false
    case OptionKind(options) => Null !in options
    case _ => true
  }

  /** Some number, or an option, of the old configuration is unset in the new one. */
  ghost predicate Unsets(spec: Spec, before: Pair, after: Pair) {
    exists key :: IsLeafKey(spec, key) && NeedsValue(spec[key].kind)
                  && Get(before.config, key) != Get(after.config, key) && Get(after.config, key) == Some(Null)
  }

  lemma StoredIsKeptIff(texts: Texts, kind: Kind, v: Value)
    requires IsStored(kind, v)
    ensures CastToType(texts, kind, v) == Some(v) <==> !(NeedsValue(kind) && v.Null?)
  {
  }

  /** For stored configurations of one specification the round trip is complete exactly when the new one
      unsets no integer, float or option. */
  lemma StoredDiffThenPatchIff(texts: Texts, spec: Spec, before: Pair, after: Pair,
                               changes: seq<Change<Value>>, switches: seq<Change<bool>>)
    requires Conforms(spec, before) && Conforms(spec, after) && Stored(spec, after)
    requires Lists(changes, NewSides(ConfigDiff(spec, before, after)))
    requires Lists(switches, NewSwitches(AttrDiff(spec, before, after)))
    ensures Patch(CastOf(texts, spec), spec, before, changes, switches) ==
              Patched(after, ConfigDiff(spec, before, after) != map[] || AttrDiff(spec, before, after) != map[])
            <==> !Unsets(spec, before, after)
  {
    hide Conforms, Patch, ConfigDiff, AttrDiff, NewSides, NewSwitches, Lists, Get, CastToType, IsStored, NeedsValue,
         KeysInSpec;
    DiffThenPatch(CastOf(texts, spec), spec, before, after, changes, switches);
    SidesAreLeaves(spec, before, after, changes);
    forall i | 0 <= i < |changes|
      ensures CastOf(texts, spec)(changes[i].key, changes[i].value) == Some(changes[i].value) <==>
                !(NeedsValue(spec[changes[i].key].kind) && changes[i].value.Null?)
    {
      StoredIsKeptIff(texts, spec[changes[i].key].kind, changes[i].value);
    }
    if Unsets(spec, before, after) {
      var key :| IsLeafKey(spec, key) && NeedsValue(spec[key].kind)
                 && Get(before.config, key) != Get(after.config, key) && Get(after.config, key) == Some(Null);
      var i :| 0 <= i < |changes| && changes[i].key == key;
      assert changes[i].value == Null;
    }
  }

  /** An integer that was 5 is unset: the difference says so, and the patch refuses to do it. */
  lemma UnsetIntegerIsRefused(texts: Texts)
    ensures var spec: Spec := map["n/" := SpecEntry(false, None, IntegerKind)];
            var before, after := Pair(map["n" := Number(5.0)], map[]), Pair(map["n" := Null], map[]);
            && Conforms(spec, before) && Conforms(spec, after) && Stored(spec, before) && Stored(spec, after)
            && Change("n/", Null) in NewSides(ConfigDiff(spec, before, after))
            && Patch(CastOf(texts, spec), spec, before, [Change("n/", Null)], []).Refused?
  {
    var spec: Spec := map["n/" := SpecEntry(false, None, IntegerKind)];
    var before, after := Pair(map["n" := Number(5.0)], map[]), Pair(map["n" := Null], map[]);
    OneParameter(spec, before);
    OneParameter(spec, after);
    NewSidesMeaning(spec, before, after, Change("n/", Null));
    CastRefuses(CastOf(texts, spec), spec, before, [Change("n/", Null)], 0, 1);
    assert [Change("n/", Null)][..1] == [Change("n/", Null)];
  }

  lemma OneParameter(spec: Spec, p: Pair)
    requires spec.Keys == {"n/"} && spec["n/"] == SpecEntry(false, None, IntegerKind)
    requires p.config.Keys == {"n"} && p.attr == map[]
    ensures Conforms(spec, p) && IsLeafKey(spec, "n/") && Get(p.config, "n/") == Some(p.config["n"])
    ensures forall key :: IsLeafKey(spec, key) ==> key == "n/"
  {
    assert FlatKey("n", "") == "n/";
    ParseFlatKey("n", "");
    forall n | '/' !in n ensures FlatKey(n, "") in spec <==> n == "n" {
      ParseFlatKey(n, "");
    }
  }

  // ---------- the configurations a job remembers ----------

  /** After a change the job's record of the old configuration is replaced: the search is right, but
      the position it finds is then tested for truth, and position 0 is false. */
  method UpdateRelatedConfigs(related: seq<int>, before: int, after: int) returns (r: seq<int>)
    ensures forall i :: FirstAt(related, before, i) ==> r == if i == 0 then related else related[i := after]
    ensures before !in related ==> r == related
  {
    var index, found := 0, false;
    for i := 0 to |related|
      invariant !found && forall j :: 0 <= j < i ==> related[j] != before
    {
      if related[i] == before {
        index, found := i, true;
        break;
      }
    }
    if index != 0 && found {
      return related[index := after];
    }
    r := related;
  }

  ghost predicate FirstAt(related: seq<int>, id: int, i: int) {
    0 <= i < |related| && related[i] == id && forall j :: 0 <= j < i ==> related[j] != id
  }

  // ---------- the old sides ----------

  function OldSides(diff: map<string, Diff>): set<Change<Value>> {
    (set n | n in diff && diff[n].ValueDiff? :: Change(FlatKey(n, ""), diff[n].before))
    + (set n, s | n in diff && diff[n].GroupDiff? && s in diff[n].subs :: Change(FlatKey(n, s), diff[n].subs[s].0))
  }

  function OldSwitches(diff: map<string, (bool, bool)>): set<Change<bool>> {
    set g | g in diff :: Change(FlatKey(g, ""), diff[g].0)
  }

  /** One difference is read backwards. */
  ghost predicate Reversed(d: Diff, e: Diff) {
    match d
    case ValueDiff(x, y) => e == ValueDiff(y, x)
    case GroupDiff(subs) =>
      e.GroupDiff? && e.subs.Keys == subs.Keys && forall s :: s in subs ==> e.subs[s] == (subs[s].1, subs[s].0)
  }

  lemma ParamReversed(isGroup: bool, before: Value, after: Value)
    ensures var d, e := ParamDiff(isGroup, before, after), ParamDiff(isGroup, after, before);
            (d.None? <==> e.None?) && (d.Some? ==> Reversed(d.value, e.value))
  {
    if isGroup && before.Dict? && after.Dict? {
      var d, e := SubsDiff(before.entries, after.entries), SubsDiff(after.entries, before.entries);
      assert d.Keys == e.Keys;
      assert d == map[] <==> d.Keys == {};
      assert e == map[] <==> e.Keys == {};
    }
  }

  lemma DiffReversed(spec: Spec, before: Pair, after: Pair, n: string)
    ensures var d, e := ConfigDiff(spec, before, after), ConfigDiff(spec, after, before);
            (n in d <==> n in e) && (n in d ==> Reversed(d[n], e[n]))
  {
    if n in before.config && n in after.config {
      DiffAt(spec, before, after, n);
      DiffAt(spec, after, before, n);
      ParamReversed(IsGroup(spec, n), before.config[n], after.config[n]);
    }
    hide ParamDiff, IsGroup, Reversed;
  }

  /** The old sides of a difference are the new sides of the difference the other way round, so patching
      them back undoes the change. */
  lemma OldSidesGoBack(spec: Spec, before: Pair, after: Pair)
    ensures OldSides(ConfigDiff(spec, before, after)) == NewSides(ConfigDiff(spec, after, before))
    ensures OldSwitches(AttrDiff(spec, before, after)) == NewSwitches(AttrDiff(spec, after, before))
  {
    forall n ensures var d, e := ConfigDiff(spec, before, after), ConfigDiff(spec, after, before);
                     (n in d <==> n in e) && (n in d ==> Reversed(d[n], e[n]))
    {
      DiffReversed(spec, before, after, n);
    }
    SidesSwapped(ConfigDiff(spec, before, after), ConfigDiff(spec, after, before));
    hide ConfigDiff, NewSides, OldSides, FlatKey;
    assert AttrDiff(spec, before, after).Keys == AttrDiff(spec, after, before).Keys;
  }

  lemma SidesSwapped(d: map<string, Diff>, e: map<string, Diff>)
    requires forall n :: n in d <==> n in e
    requires forall n :: n in d ==> Reversed(d[n], e[n])
    ensures OldSides(d) == NewSides(e)
  {
    hide FlatKey;
    forall c | c in OldSides(d) ensures c in NewSides(e) {
      if n :| n in d && d[n].ValueDiff? && c == Change(FlatKey(n, ""), d[n].before) {
        assert e[n].ValueDiff? && c == Change(FlatKey(n, ""), e[n].after);
      } else {
        var n, s :| n in d && d[n].GroupDiff? && s in d[n].subs && c == Change(FlatKey(n, s), d[n].subs[s].0);
        assert e[n].GroupDiff? && s in e[n].subs && c == Change(FlatKey(n, s), e[n].subs[s].1);
      }
    }
    forall c | c in NewSides(e) ensures c in OldSides(d) {
      if n :| n in e && e[n].ValueDiff? && c == Change(FlatKey(n, ""), e[n].after) {
        assert d[n].ValueDiff? && c == Change(FlatKey(n, ""), d[n].before);
      } else {
        var n, s :| n in e && e[n].GroupDiff? && s in e[n].subs && c == Change(FlatKey(n, s), e[n].subs[s].1);
        assert d[n].GroupDiff? && s in d[n].subs && c == Change(FlatKey(n, s), d[n].subs[s].0);
      }
    }
  }

  /** The old side of a parameter is the value it had. */
  lemma OldSidesMeaning(spec: Spec, before: Pair, after: Pair, c: Change<Value>)
    requires Conforms(spec, before) && Conforms(spec, after)
    ensures c in OldSides(ConfigDiff(spec, before, after)) <==>
              IsLeafKey(spec, c.key) && Get(before.config, c.key) != Get(after.config, c.key)
              && Get(before.config, c.key) == Some(c.value)
  {
    hide Conforms, ConfigDiff, OldSides, NewSides, Get, IsLeafKey;
    OldSidesGoBack(spec, before, after);
    NewSidesMeaning(spec, after, before, c);
  }

  /** Patching the old sides into the new configuration gives the old one back, if and only if the casts
      leave them as they are. */
  lemma DiffThenUndo(cast: Cast, spec: Spec, before: Pair, after: Pair,
                     changes: seq<Change<Value>>, switches: seq<Change<bool>>)
    requires Conforms(spec, before) && Conforms(spec, after)
    requires Lists(changes, OldSides(ConfigDiff(spec, before, after)))
    requires Lists(switches, OldSwitches(AttrDiff(spec, before, after)))
    ensures Patch(cast, spec, after, changes, switches) ==
              Patched(before, ConfigDiff(spec, after, before) != map[] || AttrDiff(spec, after, before) != map[])
            <==> CastsKeep(cast, changes)
  {
    hide Conforms, Patch, ConfigDiff, AttrDiff, NewSides, NewSwitches, OldSides, OldSwitches, Lists, CastsKeep;
    OldSidesGoBack(spec, before, after);
    DiffThenPatch(cast, spec, after, before, changes, switches);
  }

  // ---------- keys and casts in plain terms ----------

  /** "name/" is a parameter at the top, "name/sub" one inside the group of that name. */
  lemma GetAt(config: map<string, Value>, name: string, sub: string)
    requires '/' !in name
    ensures name !in config ==> Get(config, FlatKey(name, sub)) == None
    ensures name in config && sub == "" ==> Get(config, FlatKey(name, sub)) == Some(config[name])
    ensures name in config && sub != "" ==>
              Get(config, FlatKey(name, sub)) ==
              if config[name].Dict? && sub in config[name].entries then Some(config[name].entries[sub]) else None
  {
    ParseFlatKey(name, sub);
    hide FlatKey, ParseKey;
  }

  predicate IsDigits(s: string) {
    s != "" && forall i :: 0 <= i < |s| ==> '0' <= s[i] <= '9'
  }

  lemma DigitsAreDigits(s: string)
    ensures IsNatural(s) <==> IsDigits(s)
    ensures s != "" ==> (Keys.AllDigits(s) <==> IsDigits(s))
  {
    assert forall i :: 0 <= i < |s| ==> s[i] in s;
  }

  lemma DecimalAt(s: string, i: nat)
    requires 0 < i < |s| - 1
    ensures Keys.AllDigits(s[..i]) <==> IsDigits(s[..i])
    ensures Keys.AllDigits(s[i + 1..]) <==> IsDigits(s[i + 1..])
    ensures s[i] == '.' ==> s == s[..i] + "." + s[i + 1..]
  {
    DigitsAreDigits(s[..i]);
    DigitsAreDigits(s[i + 1..]);
    hide IsDigits, Keys.AllDigits;
  }

  /** Digits, a dot and digits. */
  ghost predicate IsDotted(s: string) {
    exists a, b :: IsDigits(a) && IsDigits(b) && s == a + "." + b
  }

  lemma DecimalText(s: string)
    ensures IsDecimal(s) <==> IsDotted(s)
  {
    hide Keys.AllDigits, IsDigits;
    if IsDecimal(s) {
      var i :| 0 < i < |s| - 1 && s[i] == '.' && Keys.AllDigits(s[..i]) && Keys.AllDigits(s[i + 1..]);
      DecimalAt(s, i);
      assert IsDigits(s[..i]) && IsDigits(s[i + 1..]);
    }
    if IsDotted(s) {
      DottedIsDecimal(s);
    }
  }

  lemma DottedIsDecimal(s: string)
    requires IsDotted(s)
    ensures IsDecimal(s)
  {
    var a, b :| IsDigits(a) && IsDigits(b) && s == a + "." + b;
    assert a != "" && b != "";
    hide Keys.AllDigits, IsDigits;
    assert s[..|a|] == a && s[|a| + 1..] == b && s[|a|] == '.';
    DecimalAt(s, |a|);
  }

  /** The integer a number is cast to: the nearest one towards zero. */
  ghost predicate TowardsZero(n: real, t: int) {
    if n >= 0.0 then t as real <= n < t as real + 1.0 else t as real - 1.0 < n <= t as real
  }

  /** Numbers and texts become integers and floats, or the cast raises; other kinds stay. */
  lemma CastByKind(texts: Texts, kind: Kind, v: Value)
    ensures kind == IntegerKind ==>
              match v
              case Number(n) => exists t :: TowardsZero(n, t) && CastToType(texts, kind, v) == Some(Number(t as real))
              case Text(s) =>
                if texts.toInt(s).None? then CastToType(texts, kind, v) == None
                else CastToType(texts, kind, v) == Some(Number(texts.toInt(s).value as real))
              case _ => CastToType(texts, kind, v) == None
    ensures kind == FloatKind ==>
              match v
              case Number(n) => CastToType(texts, kind, v) == Some(Number(n))
              case Text(s) =>
                if texts.toFloat(s).None? then CastToType(texts, kind, v) == None
                else CastToType(texts, kind, v) == Some(Number(texts.toFloat(s).value))
              case _ => CastToType(texts, kind, v) == None
    ensures kind == OtherKind ==> CastToType(texts, kind, v) == Some(v)
  {
    if v.Number? {
      NearestToZero(v.n);
    }
    hide Truncated, TowardsZero, IsNatural, IsDecimal;
  }

  lemma NearestToZero(n: real)
    ensures TowardsZero(n, Truncated(n))
  {
  }

  /** A listed option is kept; digits, and digits around a dot, are read as numbers; else the cast raises. */
  lemma CastOfOption(texts: Texts, options: seq<Value>, v: Value)
    ensures var r := CastToType(texts, OptionKind(options), v);
            if v in options then r == Some(v)
            else if v.Text? && IsDigits(v.s) then r == CastToType(texts, IntegerKind, v)
            else if v.Text? && IsDotted(v.s) then r == CastToType(texts, FloatKind, v)
            else r == None
  {
    if v.Text? {
      DigitsAreDigits(v.s);
      DecimalText(v.s);
    }
    hide IsNatural, IsDecimal, IsDigits, IsDotted;
  }

  // ---------- what is refused ----------

  /** A change is refused if its value cannot be cast or the parameter is not there after the changes before
      it, and only then are the parameters left unpatched. */
  lemma {:induction false} ConfigRefusedIff(cast: Cast, spec: Spec, p: Pair, changes: seq<Change<Value>>)
    ensures PatchConfig(cast, spec, p, changes).Refused? <==>
            exists i :: 0 <= i < |changes| && RefusedAt(cast, spec, p, changes, i)
  {
    hide Get;
    if changes != [] {
      var n := |changes| - 1;
      var init := changes[..n];
      ConfigRefusedIff(cast, spec, p, init);
      forall i | 0 <= i < n
        ensures RefusedAt(cast, spec, p, init, i) <==> RefusedAt(cast, spec, p, changes, i)
      {
        assert init[..i] == changes[..i];
      }
      assert RefusedAt(cast, spec, p, changes, n) <==>
             PatchConfig(cast, spec, p, init).Patched? && PatchConfig(cast, spec, p, changes).Refused?;
      hide RefusedAt, PatchConfig;
    }
  }

  ghost predicate RefusedAt(cast: Cast, spec: Spec, p: Pair, changes: seq<Change<Value>>, i: nat)
    requires i < |changes|
  {
    var earlier := PatchConfig(cast, spec, p, changes[..i]);
    earlier.Patched? &&
    (cast(changes[i].key, changes[i].value).None? || Get(earlier.pair.config, changes[i].key).None?)
  }

  /** A switch is refused if it is no entry with a switch or the configuration has none for it. */
  lemma {:induction false} AttrRefusedIff(spec: Spec, start: Patched, changes: seq<Change<bool>>)
    requires start.Patched?
    ensures var r := PatchAttr(spec, start, changes);
            && (r.Refused? <==> exists i :: 0 <= i < |changes| && SwitchRefused(spec, start.pair.attr, changes[i].key))
            && (r.Patched? ==> r.pair.attr.Keys == start.pair.attr.Keys)
  {
    if changes != [] {
      var n := |changes| - 1;
      var init := changes[..n];
      AttrRefusedIff(spec, start, init);
      assert forall i :: 0 <= i < n ==> init[i] == changes[i];
      hide StripSlashes;
      if PatchAttr(spec, start, init).Patched? {
        assert PatchAttr(spec, start, changes).Refused? <==> SwitchRefused(spec, start.pair.attr, changes[n].key);
      }
    }
  }

  predicate SwitchRefused(spec: Spec, attr: map<string, bool>, key: string) {
    key !in spec || spec[key].activatable == None || StripSlashes(key) !in attr
  }

  /** A call is refused exactly for a key the specification does not have, or a refused change or switch. */
  lemma PatchRefusedIff(cast: Cast, spec: Spec, p: Pair, config: seq<Change<Value>>, attr: seq<Change<bool>>)
    ensures Patch(cast, spec, p, config, attr).Refused? <==>
            || (exists i :: 0 <= i < |config| && config[i].key !in spec)
            || (exists i :: 0 <= i < |attr| && attr[i].key !in spec)
            || (exists i :: 0 <= i < |config| && RefusedAt(cast, spec, p, config, i))
            || (exists i :: 0 <= i < |attr| && SwitchRefused(spec, p.attr, attr[i].key))
  {
    ConfigRefusedIff(cast, spec, p, config);
    var r := PatchConfig(cast, spec, p, config);
    if r.Patched? {
      AttrRefusedIff(spec, r, attr);
      ConfigKeepsSwitches(cast, spec, p, config);
    } else {
      RefusedStays(spec, attr);
    }
    hide RefusedAt, PatchConfig, PatchAttr, StripSlashes;
  }

  lemma {:induction false} ConfigKeepsSwitches(cast: Cast, spec: Spec, p: Pair, changes: seq<Change<Value>>)
    ensures var r := PatchConfig(cast, spec, p, changes);
            r.Patched? ==> r.pair.attr == p.attr
  {
    hide Get, Put;
    if changes != [] {
      ConfigKeepsSwitches(cast, spec, p, changes[..|changes| - 1]);
    }
  }

  lemma {:induction false} RefusedStays(spec: Spec, changes: seq<Change<bool>>)
    ensures PatchAttr(spec, Refused, changes) == Refused
  {
    if changes != [] {
      RefusedStays(spec, changes[..|changes| - 1]);
    }
  }

  /** The slashes a key ends in are cut off. */
  lemma {:induction false} StrippedKey(name: string, n: nat)
    requires name == "" || name[|name| - 1] != '/'
    ensures StripSlashes(name + seq(n, i => '/')) == name
  {
    var s := name + seq(n, i => '/');
    if n == 0 {
      assert s == name;
    } else {
      assert s[..|s| - 1] == name + seq(n - 1, i => '/');
      StrippedKey(name, n - 1);
    }
  }
}
