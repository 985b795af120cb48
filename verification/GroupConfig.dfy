/** A host group's configuration: which parameters are its own, and what it has of its parent. */
module GroupConfig {
  import opened Common
  import opened ConfigValues

  /** The configuration specification; a section may be switched on and off. */
  datatype Field = Param | Section(activatable: bool, fields: map<string, Field>)

  /** Whether a parameter is the group's own; for a section also whether its switch is. */
  datatype Keys = Leaf(own: bool) | Group(ownSwitch: Option<bool>, fields: map<string, Keys>)

  // ---------- fresh keys ----------

  function FreshKeys(f: Field): Keys {
    match f
    case Param => Leaf(false)
    case Section(activatable, fields) =>
      Group(if activatable then Some(false) else None, map n | n in fields :: FreshKeys(fields[n]))
  }

  method CreateGroupKeys(f: Field) returns (keys: Keys)
    requires f.Section?
    ensures keys == FreshKeys(f)
    decreases f
  {
    var groupKeys: map<string, Keys> := map[];
    var rest := f.fields.Keys;
    while rest != {}
      invariant rest <= f.fields.Keys
      invariant groupKeys == map n | n in f.fields && n !in rest :: FreshKeys(f.fields[n])
    {
      var n := PickOne(rest);
      var field := f.fields[n];
      var made;
      if field.Section? {
        made := CreateGroupKeys(field);
      } else {
        made := Leaf(false);
      }
      groupKeys := groupKeys[n := made];
      rest := rest - {n};
    }
    keys := Group(if f.activatable then Some(false) else None, groupKeys);
  }

  // ---------- merging ----------

  /** There is a dictionary wherever the keys go down. */
  ghost predicate Fits(keys: Keys, v: Value)
    decreases keys
  {
    keys.Group? ==>
      v.Dict? && forall n :: n in keys.fields && keys.fields[n].Group? ==>
        n in v.entries && Fits(keys.fields[n], v.entries[n])
  }

  /** The group's value where it is its own and has one, else the parent's if there is one. */
  function Chosen(own: bool, parent: map<string, Value>, group: map<string, Value>, n: string): Option<Value> {
    if own && n in group then Some(group[n]) else if n in parent then Some(parent[n]) else None
  }

  function Merged(parent: Value, group: Value, keys: Keys): (v: Value)
    requires keys.Group? && Fits(keys, parent) && Fits(keys, group)
    ensures v.Dict?
    decreases keys, 1
  {
    Dict(map n | n in keys.fields && MergedEntry(parent, group, keys, n).Some? ::
      MergedEntry(parent, group, keys, n).value)
  }

  function MergedEntry(parent: Value, group: Value, keys: Keys, n: string): Option<Value>
    requires keys.Group? && Fits(keys, parent) && Fits(keys, group) && n in keys.fields
    decreases keys, 0
  {
    match keys.fields[n]
    case Group(_, _) => Some(Merged(parent.entries[n], group.entries[n], keys.fields[n]))
    case Leaf(own) => Chosen(own, parent.entries, group.entries, n)
  }

  method MergeConfig(parent: Value, group: Value, keys: Keys) returns (config: Value)
    requires keys.Group? && Fits(keys, parent) && Fits(keys, group)
    ensures config == Merged(parent, group, keys)
    decreases keys
  {
    var entries: map<string, Value> := map[];
    var rest := keys.fields.Keys;
    while rest != {}
      invariant rest <= keys.fields.Keys
      invariant forall n :: n in entries <==>
                n in keys.fields && n !in rest && MergedEntry(parent, group, keys, n).Some?
      invariant forall n :: n in entries ==> MergedEntry(parent, group, keys, n) == Some(entries[n])
    {
      var n := PickOne(rest);
      match keys.fields[n] {
        case Group(_, _) =>
          var inner := MergeConfig(parent.entries[n], group.entries[n], keys.fields[n]);
          entries := entries[n := inner];
        case Leaf(own) =>
          if own && n in group.entries {
            entries := entries[n := group.entries[n]];
          } else if n in parent.entries {
            entries := entries[n := parent.entries[n]];
          }
      }
      rest := rest - {n};
    }
    config := Dict(entries);
    assert entries == Merged(parent, group, keys).entries;
  }

  /** Switches are merged for the sections at the top. */
  function MergedAttr(parent: map<string, Value>, group: map<string, Value>, keys: Keys): map<string, Value>
    requires keys.Group?
    requires forall n :: OwnSwitch(keys, n) && n in parent ==> n in group
  {
    map n | n in keys.fields && keys.fields[n].Group? && n in parent ::
      if OwnSwitch(keys, n) then group[n] else parent[n]
  }

  predicate OwnSwitch(keys: Keys, n: string)
    requires keys.Group?
  {
    n in keys.fields && keys.fields[n].Group? && keys.fields[n].ownSwitch == Some(true)
  }

  method MergeAttr(parent: map<string, Value>, group: map<string, Value>, keys: Keys) returns (attr: map<string, Value>)
    requires keys.Group?
    requires forall n :: OwnSwitch(keys, n) && n in parent ==> n in group
    ensures attr == MergedAttr(parent, group, keys)
  {
    attr := map[];
    var rest := keys.fields.Keys;
    while rest != {}
      invariant rest <= keys.fields.Keys
      invariant attr == MergedAttr(parent, group, keys) - rest
    {
      var n := PickOne(rest);
      if keys.fields[n].Group? && n in parent {
        attr := attr[n := if keys.fields[n].ownSwitch == Some(true) then group[n] else parent[n]];
      }
      rest := rest - {n};
    }
  }

  // ---------- leaf by leaf ----------

  function KeyAt(keys: Keys, path: seq<string>): Option<Keys> {
    if path == [] then Some(keys)
    else if keys.Group? && path[0] in keys.fields then KeyAt(keys.fields[path[0]], path[1..])
    else None
  }

  function ValueAt(v: Value, path: seq<string>): Option<Value> {
    if path == [] then Some(v)
    else if v.Dict? && path[0] in v.entries then ValueAt(v.entries[path[0]], path[1..])
    else None
  }

  /** A parameter of the merge is the group's exactly when it is the group's own and present there,
      and otherwise whatever the parent has; so a change of the parent shows in nothing else. */
  lemma {:induction false} LeafOfMerge(parent: Value, group: Value, keys: Keys, path: seq<string>)
    requires keys.Group? && Fits(keys, parent) && Fits(keys, group)
    requires KeyAt(keys, path).Some? && KeyAt(keys, path).value.Leaf?
    ensures ValueAt(Merged(parent, group, keys), path) ==
              if KeyAt(keys, path).value.own && ValueAt(group, path).Some? then ValueAt(group, path)
              else ValueAt(parent, path)
    decreases path
  {
    var n := path[0];
    if |path| == 1 {
      assert path[1..] == [];
    } else {
      LeafOfMerge(parent.entries[n], group.entries[n], keys.fields[n], path[1..]);
    }
  }

  // ---------- following the parent ----------

  /** A configuration of the specification. */
  ghost predicate Conforms(f: Field, v: Value) {
    f.Section? ==>
      && v.Dict? && v.entries.Keys == f.fields.Keys
      && forall n :: n in f.fields ==> Conforms(f.fields[n], v.entries[n])
  }

  /** With fresh keys the group has what the parent has, whatever the group stored and whatever the
      parent becomes. */
  lemma {:induction false} FreshKeysFollow(f: Field, parent: Value, group: Value)
    requires f.Section? && Conforms(f, parent) && Conforms(f, group)
    ensures Fits(FreshKeys(f), parent) && Fits(FreshKeys(f), group)
    ensures Merged(parent, group, FreshKeys(f)) == parent
    decreases f
  {
    var keys := FreshKeys(f);
    forall n | n in f.fields
      ensures keys.fields[n].Group? ==>
              Fits(keys.fields[n], parent.entries[n]) && Fits(keys.fields[n], group.entries[n])
      ensures keys.fields[n].Group? ==> Merged(parent.entries[n], group.entries[n], keys.fields[n]) == parent.entries[n]
    {
      assert keys.fields[n] == FreshKeys(f.fields[n]);
      if f.fields[n].Section? {
        FreshKeysFollow(f.fields[n], parent.entries[n], group.entries[n]);
      }
    }
    forall n | n in keys.fields ensures MergedEntry(parent, group, keys, n) == Some(parent.entries[n]) {
      assert keys.fields[n] == FreshKeys(f.fields[n]);
    }
    assert Merged(parent, group, keys).entries == parent.entries;
  }

  /** And so do the switches. */
  lemma FreshSwitchesFollow(f: Field, parent: map<string, Value>, group: map<string, Value>)
    requires f.Section? && forall n :: n in parent ==> n in f.fields && f.fields[n].Section?
    ensures (forall n :: !OwnSwitch(FreshKeys(f), n)) && MergedAttr(parent, group, FreshKeys(f)) == parent
  {
    var keys := FreshKeys(f);
    forall n ensures !OwnSwitch(keys, n) {
      if n in f.fields {
        assert keys.fields[n] == FreshKeys(f.fields[n]);
      }
    }
    forall n | n in parent ensures n in keys.fields && keys.fields[n].Group? {
      assert keys.fields[n] == FreshKeys(f.fields[n]);
    }
  }

  /** A group of parameters has its own switch exactly where the keys say so, and the parent's elsewhere;
      nothing else has a switch. */
  lemma SwitchOfMerge(parent: map<string, Value>, group: map<string, Value>, keys: Keys, n: string)
    requires keys.Group? && forall m :: OwnSwitch(keys, m) && m in parent ==> m in group
    ensures var merged := MergedAttr(parent, group, keys);
            && (n in merged <==> n in parent && n in keys.fields && keys.fields[n].Group?)
            && (n in merged && keys.fields[n].ownSwitch == Some(true) ==> n in group && merged[n] == group[n])
            && (n in merged && keys.fields[n].ownSwitch != Some(true) ==> merged[n] == parent[n])
  {
  }

  /** The merge has an entry for every group of the keys and for every parameter of the keys that the group,
      where it is the group's own, or the parent has; and no others. */
  lemma MergedNames(parent: Value, group: Value, keys: Keys, n: string)
    requires keys.Group? && Fits(keys, parent) && Fits(keys, group)
    ensures parent.Dict? && group.Dict?
    ensures n in Merged(parent, group, keys).entries <==>
            n in keys.fields &&
            match keys.fields[n]
            case Group(_, _) => true
            case Leaf(own) => n in parent.entries || (own && n in group.entries)
  {
  }

  function FieldAt(f: Field, path: seq<string>): Option<Field> {
    if path == [] then Some(f)
    else if f.Section? && path[0] in f.fields then FieldAt(f.fields[path[0]], path[1..])
    else None
  }

  /** Fresh keys have the shape of the specification; no parameter is the group's own, and no switch of an
      activatable group is, while other groups have none. */
  lemma {:induction false} FreshAt(f: Field, path: seq<string>)
    ensures match FieldAt(f, path)
            case None => KeyAt(FreshKeys(f), path) == None
            case Some(Param) => KeyAt(FreshKeys(f), path) == Some(Leaf(false))
            case Some(Section(activatable, fields)) =>
              && KeyAt(FreshKeys(f), path).Some?
              && KeyAt(FreshKeys(f), path).value.Group?
              && KeyAt(FreshKeys(f), path).value.ownSwitch == (if activatable then Some(false) else None)
              && KeyAt(FreshKeys(f), path).value.fields.Keys == fields.Keys
    decreases path
  {
    if path != [] && f.Section? && path[0] in f.fields {
      FreshAt(f.fields[path[0]], path[1..]);
    }
  }
}
