/** Bindings of imports to exports: one call replaces all the bindings of an importer. */
module Imports {
  import opened Common
  import Keys

  /** A cluster, or a service of a cluster. */
  datatype Object = Object(cluster: int, service: Option<int>)

  datatype Bind = Bind(importer: Object, source: Object)

  datatype Proto = Proto(name: string, version: string)

  datatype Import = Import(prototype: int, name: string, minVersion: string, maxVersion: string,
                           minStrict: bool, maxStrict: bool, multibind: bool)

  datatype ServiceRow = ServiceRow(cluster: int, prototype: int)

  /** What a call reads and never changes. `compare` is the version comparison; `inactive` holds the
      importers that rely on the default of an import while the default group is switched off. */
  datatype Inventory = Inventory(
    protos: map<int, Proto>,
    clusters: map<int, int>,             // cluster -> prototype
    services: map<int, ServiceRow>,
    imports: map<int, Import>,
    inactive: set<(Object, int)>,        // importer, import
    compare: (string, string) -> int)

  datatype Item = Item(importId: int, source: Object)

  // ---------- lookups ----------

  predicate Exists(inv: Inventory, o: Object) {
    o.cluster in inv.clusters &&
    (o.service.Some? ==> o.service.value in inv.services && inv.services[o.service.value].cluster == o.cluster)
  }

  function ProtoOf(inv: Inventory, o: Object): (p: int)
    requires Exists(inv, o)
    ensures WellFormed(inv) ==> p in inv.protos
  {
    if o.service.Some? then
      var s: int := o.service.value;
      assert s in inv.services;
      inv.services[s].prototype
    else inv.clusters[o.cluster]
  }

  predicate SameName(a: Import, b: Import) {
    a.prototype == b.prototype && a.name == b.name
  }

  /** Foreign keys hold, and a prototype declares a name once. */
  ghost predicate WellFormed(inv: Inventory) {
    && (forall c :: c in inv.clusters ==> inv.clusters[c] in inv.protos)
    && (forall s :: s in inv.services ==> inv.services[s].prototype in inv.protos)
    && (forall i, j :: i in inv.imports && j in inv.imports && SameName(inv.imports[i], inv.imports[j]) ==> i == j)
  }

  ghost predicate TableValid(inv: Inventory, binds: set<Bind>) {
    forall b :: b in binds ==> Exists(inv, b.importer) && Exists(inv, b.source)
  }

  // ---------- versions ----------

  /** The test as it is written. */
  predicate Suitable(compare: (string, string) -> int, version: string, imp: Import) {
    if (imp.minStrict && compare(version, imp.minVersion) <= 0)
       || (imp.minVersion != "" && compare(version, imp.minVersion) < 0) then false
    else if (imp.maxStrict && compare(version, imp.maxVersion) >= 0)
       || (imp.maxVersion != "" && compare(version, imp.maxVersion) > 0) then false
    else true
  }

  /** Between the declared bounds: a strict bound always counts and excludes itself, another counts
      unless it is empty and includes itself. */
  ghost predicate InInterval(compare: (string, string) -> int, version: string, imp: Import) {
    && (imp.minStrict ==> compare(version, imp.minVersion) > 0)
    && (!imp.minStrict ==> imp.minVersion == "" || compare(version, imp.minVersion) >= 0)
    && (imp.maxStrict ==> compare(version, imp.maxVersion) < 0)
    && (!imp.maxStrict ==> imp.maxVersion == "" || compare(version, imp.maxVersion) <= 0)
  }

  // ---------- keys ----------

  /** The text the original indexes its two dictionaries with. */
  function CookKey(o: Object): string {
    if o.service.Some? then Keys.PairKey(o.cluster, o.service.value) else Keys.IntText(o.cluster)
  }

  lemma CookKeyInjective(a: Object, b: Object)
    ensures CookKey(a) == CookKey(b) <==> a == b
  {
    if CookKey(a) == CookKey(b) {
      if a.service.Some? {
        Keys.PairKeyRoundTrip(a.cluster, a.service.value);
      } else {
        Keys.IntTextParses(a.cluster);
      }
      if b.service.Some? {
        Keys.PairKeyRoundTrip(b.cluster, b.service.value);
      } else {
        Keys.IntTextParses(b.cluster);
      }
      if a.service.Some? {
        Keys.PairKeyInjective(a.cluster, a.service.value, b.cluster, b.service.value);
      } else {
        Keys.IntTextInjective(a.cluster, b.cluster);
      }
    }
  }

  // ---------- what a call accepts ----------

  function Own(binds: set<Bind>, importer: Object): set<Object> {
    set b | b in binds && b.importer == importer :: b.source
  }

  function Requested(items: seq<Item>): set<Object> {
    set item | item in items :: item.source
  }

  /** The item names an import of the importer that its export meets by name and version. */
  ghost predicate ItemFits(inv: Inventory, importer: Object, item: Item)
    requires WellFormed(inv) && Exists(inv, importer)
  {
    && item.importId in inv.imports
    && inv.imports[item.importId].prototype == ProtoOf(inv, importer)
    && Exists(inv, item.source)
    && var p := inv.protos[ProtoOf(inv, item.source)];
       p.name == inv.imports[item.importId].name && InInterval(inv.compare, p.version, inv.imports[item.importId])
  }

  ghost predicate ItemsFit(inv: Inventory, importer: Object, items: seq<Item>)
    requires WellFormed(inv) && Exists(inv, importer)
  {
    && (forall i :: 0 <= i < |items| ==> ItemFits(inv, importer, items[i]))
    && (forall i, j :: 0 <= i < j < |items| ==> items[i].source != items[j].source)
  }

  /** The importer can do without the binding. */
  predicate MayUnbind(inv: Inventory, importer: Object, source: Object)
    requires Exists(inv, importer) && Exists(inv, source)
  {
    exists i :: i in inv.imports && inv.imports[i].prototype == ProtoOf(inv, importer)
                && ProtoOf(inv, source) in inv.protos
                && inv.imports[i].name == inv.protos[ProtoOf(inv, source)].name
                && (importer, i) !in inv.inactive
  }

  /** The importer's prototype declares a multibind import for exports of this prototype. */
  ghost predicate MultiFor(inv: Inventory, importer: Object, proto: int)
    requires Exists(inv, importer)
  {
    proto in inv.protos &&
    exists i :: i in inv.imports && inv.imports[i].prototype == ProtoOf(inv, importer)
                && inv.imports[i].name == inv.protos[proto].name && inv.imports[i].multibind
  }

  /** Two sources of one prototype only through a multibind import, or where both were bound before. */
  ghost predicate ClashFree(inv: Inventory, importer: Object, before: set<Object>, after: set<Object>)
    requires Exists(inv, importer)
  {
    forall a, b :: a in after && b in after && a != b && Exists(inv, a) && Exists(inv, b)
                   && ProtoOf(inv, a) == ProtoOf(inv, b) ==>
      MultiFor(inv, importer, ProtoOf(inv, a)) || (a in before && b in before)
  }

  /** Exactly when a call succeeds, whatever order it works in. */
  ghost predicate Accepts(inv: Inventory, binds: set<Bind>, importer: Object, items: seq<Item>)
    requires WellFormed(inv) && TableValid(inv, binds) && Exists(inv, importer)
  {
    && ItemsFit(inv, importer, items)
    && (forall o :: o in Own(binds, importer) - Requested(items) ==> Exists(inv, o) && MayUnbind(inv, importer, o))
    && ClashFree(inv, importer, Own(binds, importer), Requested(items))
  }

  /** A failing call may stop half way, but never binds what it was not asked for, and never makes a
      clash. */
  ghost predicate CallEffect(inv: Inventory, before: set<Bind>, importer: Object, items: seq<Item>, after: set<Bind>,
      ok: bool)
    requires WellFormed(inv) && TableValid(inv, before) && Exists(inv, importer)
  {
    && (forall b: Bind :: b.importer != importer ==> (b in after <==> b in before))
    && (ok <==> Accepts(inv, before, importer, items))
    && (ok ==> Own(after, importer) == Requested(items))
    && Own(after, importer) <= Own(before, importer) + Requested(items)
    && (forall o :: o in Own(after, importer) ==> Exists(inv, o))
    && ClashFree(inv, importer, Own(before, importer), Own(after, importer))
  }

  // ---------- the call ----------

  /** The dictionary of these objects under their keys. */
  ghost predicate Indexed(m: map<string, Object>, s: set<Object>) {
    && (forall o :: o in s ==> CookKey(o) in m)
    && (forall k :: k in m ==> m[k] in s && CookKey(m[k]) == k)
  }

  lemma IndexedMeaning(m: map<string, Object>, s: set<Object>, o: Object)
    requires Indexed(m, s)
    ensures CookKey(o) in m <==> o in s
  {
    if CookKey(o) in m {
      CookKeyInjective(o, m[CookKey(o)]);
    }
  }

  ghost predicate IndexedItems(m: map<string, Item>, items: seq<Item>) {
    && (forall i :: 0 <= i < |items| ==> CookKey(items[i].source) in m && m[CookKey(items[i].source)] == items[i])
    && (forall k :: k in m ==> exists i :: 0 <= i < |items| && CookKey(items[i].source) == k)
  }

  lemma IndexedItemsMeaning(m: map<string, Item>, items: seq<Item>, o: Object)
    requires IndexedItems(m, items)
    ensures CookKey(o) in m <==> o in Requested(items)
  {
    if CookKey(o) in m {
      var i :| 0 <= i < |items| && CookKey(items[i].source) == CookKey(o);
      CookKeyInjective(o, items[i].source);
    }
    if o in Requested(items) {
      var i :| 0 <= i < |items| && items[i].source == o;
    }
  }

  lemma ClashFreeWithin(inv: Inventory, importer: Object, before: set<Object>, after: set<Object>)
    requires Exists(inv, importer) && after <= before
    ensures ClashFree(inv, importer, before, after)
  {
  }

  lemma RequestedGrows(items: seq<Item>, i: nat)
    requires i < |items|
    ensures Requested(items[..i + 1]) == Requested(items[..i]) + {items[i].source}
    ensures items[i].source in Requested(items) && Requested(items[..i]) <= Requested(items)
  {
    assert items[..i + 1] == items[..i] + [items[i]];
  }

  lemma MultiIsItsImport(inv: Inventory, importer: Object, item: Item)
    requires WellFormed(inv) && Exists(inv, importer) && ItemFits(inv, importer, item)
    ensures MultiFor(inv, importer, ProtoOf(inv, item.source)) <==> inv.imports[item.importId].multibind
  {
    var imp := inv.imports[item.importId];
    forall j | j in inv.imports && inv.imports[j].prototype == ProtoOf(inv, importer) &&
               inv.imports[j].name == inv.protos[ProtoOf(inv, item.source)].name
      ensures j == item.importId
    {
      assert SameName(inv.imports[j], imp);
    }
  }

  lemma AddKeepsClashFree(inv: Inventory, importer: Object, before: set<Object>, own: set<Object>, item: Item)
    requires WellFormed(inv) && Exists(inv, importer) && ItemFits(inv, importer, item)
    requires ClashFree(inv, importer, before, own)
    requires inv.imports[item.importId].multibind ||
             forall o :: o in own && Exists(inv, o) ==> ProtoOf(inv, o) != ProtoOf(inv, item.source)
    ensures ClashFree(inv, importer, before, own + {item.source})
  {
    MultiIsItsImport(inv, importer, item);
    hide MultiFor, WellFormed;
  }

  lemma ClashSeen(inv: Inventory, importer: Object, before: set<Object>, wanted: set<Object>, item: Item, other: Object)
    requires WellFormed(inv) && Exists(inv, importer) && ItemFits(inv, importer, item)
    requires !inv.imports[item.importId].multibind && item.source !in before
    requires item.source in wanted && other in wanted && other != item.source
    requires Exists(inv, other) && ProtoOf(inv, other) == ProtoOf(inv, item.source)
    ensures !ClashFree(inv, importer, before, wanted)
  {
    MultiIsItsImport(inv, importer, item);
  }

  class BindTable {
    const inv: Inventory
    var binds: set<Bind>

    constructor (inv: Inventory)
      ensures this.inv == inv && binds == {}
    {
      this.inv := inv;
      binds := {};
    }

    method MultiBind(importer: Object, items: seq<Item>) returns (ok: bool)
      requires WellFormed(inv) && TableValid(inv, binds) && Exists(inv, importer)
      modifies this
      ensures TableValid(inv, binds)
      ensures CallEffect(inv, old(binds), importer, items, binds, ok)
      ensures old(Own(binds, importer)) * Requested(items) <= Own(binds, importer)
      ensures !ItemsFit(inv, importer, items) ==> binds == old(binds)
      ensures (exists o :: o in old(Own(binds, importer)) - Requested(items) && !MayUnbind(inv, importer, o)) ==>
                Own(binds, importer) <= old(Own(binds, importer))
    {
      ghost var own := Own(binds, importer);
      var oldBind := IndexOld(importer);
      var newBind, order;
      ok, newBind, order := CheckItems(importer, items);
      if ok {
        ok := UnbindOld(importer, oldBind, newBind, items);
        if ok {
          ok := BindNew(importer, oldBind, newBind, order, items, own);
        }
      }
    }

    method IndexOld(importer: Object) returns (oldBind: map<string, Object>)
      ensures Indexed(oldBind, Own(binds, importer))
    {
      oldBind := map[];
      var rest := Own(binds, importer);
      while rest != {}
        invariant rest <= Own(binds, importer)
        invariant Indexed(oldBind, Own(binds, importer) - rest)
      {
        var o := PickOne(rest);
        forall p ensures CookKey(p) == CookKey(o) <==> p == o {
          CookKeyInjective(p, o);
        }
        oldBind := oldBind[CookKey(o) := o];
        rest := rest - {o};
      }
    }

    method CheckItems(importer: Object, items: seq<Item>)
      returns (ok: bool, newBind: map<string, Item>, order: seq<string>)
      requires WellFormed(inv) && Exists(inv, importer)
      ensures ok <==> ItemsFit(inv, importer, items)
      ensures ok ==> IndexedItems(newBind, items)
      ensures ok ==> |order| == |items| && forall i :: 0 <= i < |items| ==> order[i] == CookKey(items[i].source)
    {
      hide WellFormed, ItemFits, CookKey, Exists;
      newBind, order := map[], [];
      for i := 0 to |items|
        invariant forall j :: 0 <= j < i ==> ItemFits(inv, importer, items[j])
        invariant forall j, k :: 0 <= j < k < i ==> items[j].source != items[k].source
        invariant IndexedItems(newBind, items[..i])
        invariant |order| == i && forall j :: 0 <= j < i ==> order[j] == CookKey(items[j].source)
      {
        ok := CheckItem(importer, items[i]);
        if !ok {
          return;
        }
        IndexedItemsMeaning(newBind, items[..i], items[i].source);
        if CookKey(items[i].source) in newBind {
          return false, newBind, order;
        }
        newBind := newBind[CookKey(items[i].source) := items[i]];
        order := order + [CookKey(items[i].source)];
      }
      assert items[..|items|] == items;
      ok := true;
    }

    method CheckItem(importer: Object, item: Item) returns (ok: bool)
      requires WellFormed(inv) && Exists(inv, importer)
      ensures ok <==> ItemFits(inv, importer, item)
    {
      if item.importId !in inv.imports || inv.imports[item.importId].prototype != ProtoOf(inv, importer) {
        return false;
      }
      if !Exists(inv, item.source) {
        return false;
      }
      var p := inv.protos[ProtoOf(inv, item.source)];
      ok := p.name == inv.imports[item.importId].name && Suitable(inv.compare, p.version, inv.imports[item.importId]);
    }

    /** Everything bound and not requested goes, unless something may not go. */
    method UnbindOld(importer: Object, oldBind: map<string, Object>, newBind: map<string, Item>, ghost items: seq<Item>)
      returns (ok: bool)
      requires WellFormed(inv) && TableValid(inv, binds) && Exists(inv, importer)
      requires Indexed(oldBind, Own(binds, importer)) && IndexedItems(newBind, items)
      modifies this
      ensures TableValid(inv, binds)
      ensures forall b: Bind :: b.importer != importer ==> (b in binds <==> b in old(binds))
      ensures old(Own(binds, importer)) * Requested(items) <= Own(binds, importer) <= old(Own(binds, importer))
      ensures ok <==> forall o :: o in old(Own(binds, importer)) - Requested(items) ==>
                        Exists(inv, o) && MayUnbind(inv, importer, o)
      ensures ok ==> Own(binds, importer) == old(Own(binds, importer)) * Requested(items)
    {
      hide WellFormed, CookKey, IndexedItems, MayUnbind;
      ghost var own := Own(binds, importer);
      var keys := oldBind.Keys;
      while keys != {}
        invariant keys <= oldBind.Keys
        invariant TableValid(inv, binds)
        invariant forall b: Bind :: b.importer != importer ==> (b in binds <==> b in old(binds))
        invariant forall o :: o in Own(binds, importer) <==> o in own && (CookKey(o) in keys || o in Requested(items))
        invariant forall o :: o in own && CookKey(o) !in keys && o !in Requested(items) ==>
                    Exists(inv, o) && MayUnbind(inv, importer, o)
      {
        var key := PickOne(keys);
        var o := oldBind[key];
        IndexedItemsMeaning(newBind, items, o);
        forall p ensures CookKey(p) == key <==> p == o {
          CookKeyInjective(p, o);
        }
        if key !in newBind {
          assert Bind(importer, o) in binds;
          if !MayUnbind(inv, importer, o) {
            return false;
          }
          binds := binds - {Bind(importer, o)};
        }
        keys := keys - {key};
      }
      ok := true;
    }

    /** Everything requested and not bound comes, unless it would clash. */
    method BindNew(importer: Object, oldBind: map<string, Object>, newBind: map<string, Item>, order: seq<string>,
                   ghost items: seq<Item>, ghost own: set<Object>)
      returns (ok: bool)
      requires WellFormed(inv) && TableValid(inv, binds) && Exists(inv, importer)
      requires Indexed(oldBind, own) && IndexedItems(newBind, items) && ItemsFit(inv, importer, items)
      requires |order| == |items| && forall i :: 0 <= i < |items| ==> order[i] == CookKey(items[i].source)
      requires Own(binds, importer) == own * Requested(items)
      modifies this
      ensures TableValid(inv, binds)
      ensures forall b: Bind :: b.importer != importer ==> (b in binds <==> b in old(binds))
      ensures own * Requested(items) <= Own(binds, importer) <= Requested(items)
      ensures ok <==> ClashFree(inv, importer, own, Requested(items))
      ensures ok ==> Own(binds, importer) == Requested(items)
      ensures ClashFree(inv, importer, own, Own(binds, importer))
    {
      hide WellFormed, CookKey, ClashFree, MultiFor;
      ClashFreeWithin(inv, importer, own, Own(binds, importer));
      for i := 0 to |order|
        invariant TableValid(inv, binds)
        invariant forall b: Bind :: b.importer != importer ==> (b in binds <==> b in old(binds))
        invariant Own(binds, importer) == own * Requested(items) + Requested(items[..i])
        invariant ClashFree(inv, importer, own, Own(binds, importer))
      {
        ok := BindOne(importer, oldBind, newBind[order[i]], items, i, own);
        if !ok {
          return;
        }
      }
      assert items[..|items|] == items;
      assert Own(binds, importer) == Requested(items);
      ok := true;
    }

    method BindOne(importer: Object, oldBind: map<string, Object>, item: Item,
                   ghost items: seq<Item>, ghost i: nat, ghost own: set<Object>)
      returns (ok: bool)
      requires WellFormed(inv) && TableValid(inv, binds) && Exists(inv, importer)
      requires Indexed(oldBind, own) && ItemsFit(inv, importer, items) && i < |items| && items[i] == item
      requires Own(binds, importer) == own * Requested(items) + Requested(items[..i])
      requires ClashFree(inv, importer, own, Own(binds, importer))
      modifies this
      ensures TableValid(inv, binds)
      ensures forall b: Bind :: b.importer != importer ==> (b in binds <==> b in old(binds))
      ensures ClashFree(inv, importer, own, Own(binds, importer))
      ensures if ok then Own(binds, importer) == own * Requested(items) + Requested(items[..i + 1])
              else binds == old(binds) && !ClashFree(inv, importer, own, Requested(items))
    {
      hide ClashFree, CookKey, MultiFor;
      IndexedMeaning(oldBind, own, item.source);
      RequestedGrows(items, i);
      assert ItemFits(inv, importer, items[i]);
      if CookKey(item.source) in oldBind {
        return true;
      }
      ok := CheckMultiBind(importer, item);
      if ok {
        AddKeepsClashFree(inv, importer, own, Own(binds, importer), item);
        ghost var before := Own(binds, importer);
        binds := binds + {Bind(importer, item.source)};
        assert Own(binds, importer) == before + {item.source};
      } else {
        ghost var other :| other in Own(binds, importer) && Exists(inv, other)
          && ProtoOf(inv, other) == ProtoOf(inv, item.source);
        assert other in Requested(items);
        assert item.source in Requested(items);
        ClashSeen(inv, importer, own, Requested(items), item, other);
      }
    }

    method CheckMultiBind(importer: Object, item: Item) returns (ok: bool)
      requires WellFormed(inv) && TableValid(inv, binds) && Exists(inv, importer) && ItemFits(inv, importer, item)
      ensures ok <==> inv.imports[item.importId].multibind ||
                      forall o :: o in Own(binds, importer) ==> ProtoOf(inv, o) != ProtoOf(inv, item.source)
    {
      if inv.imports[item.importId].multibind {
        return true;
      }
      var rest := Own(binds, importer);
      while rest != {}
        invariant rest <= Own(binds, importer)
        invariant forall o :: o in Own(binds, importer) - rest ==> ProtoOf(inv, o) != ProtoOf(inv, item.source)
      {
        var o := PickOne(rest);
        if ProtoOf(inv, o) == ProtoOf(inv, item.source) {
          return false;
        }
        rest := rest - {o};
      }
      ok := true;
    }
  }

  // ---------- what a caller may rely on ----------

  /** The version test is the interval. */
  lemma SuitableIsInterval(compare: (string, string) -> int, version: string, imp: Import)
    ensures Suitable(compare, version, imp) <==> InInterval(compare, version, imp)
  {
  }

  /** No importer has two bindings to one prototype, unless the import is declared multibind. */
  ghost predicate SingleBinds(inv: Inventory, binds: set<Bind>)
    requires TableValid(inv, binds)
  {
    forall a, b :: a in binds && b in binds && a != b && a.importer == b.importer
                   && ProtoOf(inv, a.source) == ProtoOf(inv, b.source) ==>
      MultiFor(inv, a.importer, ProtoOf(inv, a.source))
  }

  /** After a success the importer's bindings are those requested and the rest of the table is as it
      was. */
  lemma SuccessIsReplacement(inv: Inventory, before: set<Bind>, importer: Object, items: seq<Item>, after: set<Bind>)
    requires WellFormed(inv) && TableValid(inv, before) && Exists(inv, importer)
    requires CallEffect(inv, before, importer, items, after, true)
    ensures forall b :: b in after <==>
              if b.importer == importer then exists i :: 0 <= i < |items| && items[i].source == b.source
              else b in before
  {
    forall b: Bind | b.importer == importer ensures b in after <==> b.source in Requested(items) {
      assert b.source in Own(after, importer) <==> b in after;
    }
  }

  lemma CallKeepsSingle(inv: Inventory, before: set<Bind>, importer: Object, items: seq<Item>, after: set<Bind>,
      ok: bool)
    requires WellFormed(inv) && TableValid(inv, before) && Exists(inv, importer)
    requires CallEffect(inv, before, importer, items, after, ok)
    requires SingleBinds(inv, before)
    ensures TableValid(inv, after) && SingleBinds(inv, after)
  {
    hide MultiFor, Accepts;
    forall b | b in after ensures Exists(inv, b.importer) && Exists(inv, b.source) {
      if b.importer == importer {
        assert b.source in Own(after, importer);
      }
    }
    forall a, b | a in after && b in after && a != b && a.importer == b.importer
                  && ProtoOf(inv, a.source) == ProtoOf(inv, b.source)
      ensures MultiFor(inv, a.importer, ProtoOf(inv, a.source))
    {
      if a.importer == importer {
        assert a.source in Own(after, importer) && b.source in Own(after, importer);
        if a.source in Own(before, importer) && b.source in Own(before, importer) {
          assert a in before && b in before;
        }
      }
    }
  }

  datatype Call = Call(importer: Object, items: seq<Item>)

  /** A run of calls, successful or not: `tables[i + 1]` is what call `i` leaves of `tables[i]`. */
  ghost predicate IsRun(inv: Inventory, calls: seq<Call>, oks: seq<bool>, tables: seq<set<Bind>>)
    requires WellFormed(inv)
  {
    && |oks| == |calls| && |tables| == |calls| + 1
    && (forall i :: 0 <= i < |calls| ==> Exists(inv, calls[i].importer))
    && (forall i :: 0 <= i < |tables| ==> TableValid(inv, tables[i]))
    && forall i :: 0 <= i < |calls| ==>
         CallEffect(inv, tables[i], calls[i].importer, calls[i].items, tables[i + 1], oks[i])
  }

  /** From an empty table on, whatever calls are made and wherever they fail, an import without
      multibind is never bound twice to one source prototype. */
  lemma {:induction false} RunKeepsSingle(inv: Inventory, calls: seq<Call>, oks: seq<bool>, tables: seq<set<Bind>>,
      i: nat)
    requires WellFormed(inv) && IsRun(inv, calls, oks, tables) && tables[0] == {} && i <= |calls|
    ensures SingleBinds(inv, tables[i])
    decreases i
  {
    if i > 0 {
      RunKeepsSingle(inv, calls, oks, tables, i - 1);
      CallKeepsSingle(inv, tables[i - 1], calls[i - 1].importer, calls[i - 1].items, tables[i], oks[i - 1]);
    }
  }

  /** An importer nobody calls for keeps its bindings. */
  lemma {:induction false} RunSparesOthers(inv: Inventory, calls: seq<Call>, oks: seq<bool>, tables: seq<set<Bind>>,
                                           i: nat, b: Bind)
    requires WellFormed(inv) && IsRun(inv, calls, oks, tables) && i <= |calls|
    requires forall j :: 0 <= j < i ==> calls[j].importer != b.importer
    ensures b in tables[i] <==> b in tables[0]
    decreases i
  {
    if i > 0 {
      RunSparesOthers(inv, calls, oks, tables, i - 1, b);
    }
  }

  /** Asking again for what is bound succeeds and changes nothing. */
  lemma RepeatIsNoChange(inv: Inventory, binds: set<Bind>, importer: Object, items: seq<Item>, after: set<Bind>,
      ok: bool)
    requires WellFormed(inv) && TableValid(inv, binds) && Exists(inv, importer)
    requires ItemsFit(inv, importer, items) && Own(binds, importer) == Requested(items)
    requires CallEffect(inv, binds, importer, items, after, ok)
    ensures ok && after == binds
  {
    ClashFreeWithin(inv, importer, Own(binds, importer), Requested(items));
    assert ok;
    forall b: Bind ensures b in after <==> b in binds {
      if b.importer == importer {
        assert b in after <==> b.source in Own(after, importer);
        assert b in binds <==> b.source in Own(binds, importer);
      }
    }
  }

  /** The guard is per source prototype, not per import: two versions of one export are two
      prototypes, and an import without multibind takes both. */
  lemma TwoVersionsBothBound(compare: (string, string) -> int)
    ensures
      var inv := Inventory(map[1 := Proto("hive", "3"), 2 := Proto("zk", "1"), 3 := Proto("zk", "2")],
                           map[10 := 1, 20 := 2, 30 := 3], map[],
                           map[7 := Import(1, "zk", "", "", false, false, false)], {}, compare);
      var importer := Object(10, None);
      WellFormed(inv) && Exists(inv, importer) &&
      Accepts(inv, {}, importer, [Item(7, Object(20, None)), Item(7, Object(30, None))])
  {
  }

  // ---------- when a call succeeds, row by row ----------

  /** The object is there and is an instance of the prototype. */
  ghost predicate Instance(inv: Inventory, o: Object, proto: int) {
    match o.service
    case None => o.cluster in inv.clusters && inv.clusters[o.cluster] == proto
    case Some(s) => o.cluster in inv.clusters && s in inv.services && inv.services[s] == ServiceRow(o.cluster, proto)
  }

  /** An import the importer's prototype declares for exports of that name. */
  ghost predicate Declares(inv: Inventory, importer: Object, i: int, source: Object) {
    i in inv.imports && Instance(inv, importer, inv.imports[i].prototype)
    && exists p :: p in inv.protos && Instance(inv, source, p) && inv.protos[p].name == inv.imports[i].name
  }

  /** Not below the lowest and not above the highest version, where these are declared, and on neither bound
      if it is strict. */
  ghost predicate InRange(inv: Inventory, i: int, source: Object)
    requires i in inv.imports
  {
    var imp := inv.imports[i];
    exists p :: p in inv.protos && Instance(inv, source, p) &&
      var low, high := inv.compare(inv.protos[p].version, imp.minVersion),
                       inv.compare(inv.protos[p].version, imp.maxVersion);
      && (imp.minStrict ==> 0 < low) && (imp.minVersion == "" || 0 <= low)
      && (imp.maxStrict ==> high < 0) && (imp.maxVersion == "" || high <= 0)
  }

  ghost predicate MayGo(inv: Inventory, importer: Object, source: Object) {
    exists i :: Declares(inv, importer, i, source) && (importer, i) !in inv.inactive
  }

  ghost predicate MayShare(inv: Inventory, importer: Object, source: Object) {
    exists i :: Declares(inv, importer, i, source) && inv.imports[i].multibind
  }

  /** A call succeeds if and only if every requested source is the instance of an export in the version range
      of a declared import and no source comes twice, every dropped source has an import that is not an
      inactive default, and of two requested instances of one prototype the import takes several or both
      were bound before. */
  lemma AcceptedByRow(inv: Inventory, binds: set<Bind>, importer: Object, items: seq<Item>)
    requires WellFormed(inv) && TableValid(inv, binds) && Exists(inv, importer)
    ensures Accepts(inv, binds, importer, items) <==>
            && (forall i :: 0 <= i < |items| ==>
                  Declares(inv, importer, items[i].importId, items[i].source)
                  && InRange(inv, items[i].importId, items[i].source))
            && (forall i, j :: 0 <= i < j < |items| ==> items[i].source != items[j].source)
            && (forall b :: b in binds && b.importer == importer
                            && (forall i :: 0 <= i < |items| ==> items[i].source != b.source) ==>
                  MayGo(inv, importer, b.source))
            && (forall i, j, p :: 0 <= i < |items| && 0 <= j < |items| && i != j && Instance(inv, items[i].source, p)
                                  && Instance(inv, items[j].source, p) ==>
                  || MayShare(inv, importer, items[i].source)
                  || (Bind(importer, items[i].source) in binds && Bind(importer, items[j].source) in binds))
  {
    ItemsByRow(inv, importer, items);
    DropsByRow(inv, binds, importer, items);
    if ItemsFit(inv, importer, items) {
      ClashesByRow(inv, binds, importer, items);
    }
    hide Declares, InRange, MayGo, MayShare, Instance, ItemsFit, ClashFree, WellFormed, TableValid, Exists;
  }

  lemma InstanceIsProto(inv: Inventory, o: Object)
    ensures forall p :: Instance(inv, o, p) <==> Exists(inv, o) && ProtoOf(inv, o) == p
  {
  }

  lemma ItemsByRow(inv: Inventory, importer: Object, items: seq<Item>)
    requires WellFormed(inv) && Exists(inv, importer)
    ensures ItemsFit(inv, importer, items) <==>
            && (forall i :: 0 <= i < |items| ==>
                  Declares(inv, importer, items[i].importId, items[i].source)
                  && InRange(inv, items[i].importId, items[i].source))
            && (forall i, j :: 0 <= i < j < |items| ==> items[i].source != items[j].source)
  {
    forall i | 0 <= i < |items|
      ensures ItemFits(inv, importer, items[i]) <==>
              Declares(inv, importer, items[i].importId, items[i].source)
              && InRange(inv, items[i].importId, items[i].source)
    {
      ItemByRow(inv, importer, items[i]);
    }
    hide ItemFits, Declares, InRange, WellFormed, Exists;
  }

  lemma ItemByRow(inv: Inventory, importer: Object, item: Item)
    requires WellFormed(inv) && Exists(inv, importer)
    ensures ItemFits(inv, importer, item) <==>
            Declares(inv, importer, item.importId, item.source) && InRange(inv, item.importId, item.source)
  {
    InstanceIsProto(inv, importer);
    InstanceIsProto(inv, item.source);
    hide Instance;
  }

  lemma SourceByRow(inv: Inventory, importer: Object, source: Object)
    requires WellFormed(inv) && Exists(inv, importer) && Exists(inv, source)
    ensures MayUnbind(inv, importer, source) <==> MayGo(inv, importer, source)
    ensures MultiFor(inv, importer, ProtoOf(inv, source)) <==> MayShare(inv, importer, source)
  {
    InstanceIsProto(inv, importer);
    InstanceIsProto(inv, source);
    forall i ensures Declares(inv, importer, i, source) <==>
        i in inv.imports && inv.imports[i].prototype == ProtoOf(inv, importer)
        && inv.imports[i].name == inv.protos[ProtoOf(inv, source)].name
    {
    }
    hide Instance, Declares, Exists, WellFormed;
  }

  lemma DropsByRow(inv: Inventory, binds: set<Bind>, importer: Object, items: seq<Item>)
    requires WellFormed(inv) && TableValid(inv, binds) && Exists(inv, importer)
    ensures (forall o :: o in Own(binds, importer) - Requested(items) ==> Exists(inv, o) && MayUnbind(inv, importer, o))
            <==> forall b :: b in binds && b.importer == importer
                             && (forall i :: 0 <= i < |items| ==> items[i].source != b.source) ==>
                   MayGo(inv, importer, b.source)
  {
    forall b | b in binds && b.importer == importer
      ensures Exists(inv, b.source) && b.source in Own(binds, importer)
      ensures MayUnbind(inv, importer, b.source) <==> MayGo(inv, importer, b.source)
      ensures b.source !in Requested(items) <==> forall i :: 0 <= i < |items| ==> items[i].source != b.source
    {
      SourceByRow(inv, importer, b.source);
      assert forall i :: 0 <= i < |items| ==> items[i] in items;
    }
    hide MayUnbind, MayGo, WellFormed, Exists, Requested;
  }

  lemma ClashesByRow(inv: Inventory, binds: set<Bind>, importer: Object, items: seq<Item>)
    requires WellFormed(inv) && TableValid(inv, binds) && Exists(inv, importer) && ItemsFit(inv, importer, items)
    ensures ClashFree(inv, importer, Own(binds, importer), Requested(items)) <==>
            forall i, j, p :: 0 <= i < |items| && 0 <= j < |items| && i != j && Instance(inv, items[i].source, p)
                              && Instance(inv, items[j].source, p) ==>
              || MayShare(inv, importer, items[i].source)
              || (Bind(importer, items[i].source) in binds && Bind(importer, items[j].source) in binds)
  {
    forall i | 0 <= i < |items|
      ensures items[i].source in Requested(items) && Exists(inv, items[i].source)
      ensures items[i].source in Own(binds, importer) <==> Bind(importer, items[i].source) in binds
      ensures MultiFor(inv, importer, ProtoOf(inv, items[i].source)) <==> MayShare(inv, importer, items[i].source)
      ensures forall p :: Instance(inv, items[i].source, p) <==> ProtoOf(inv, items[i].source) == p
    {
      assert ItemFits(inv, importer, items[i]) && items[i] in items;
      SourceByRow(inv, importer, items[i].source);
      InstanceIsProto(inv, items[i].source);
      OwnByBind(binds, importer, items[i].source);
    }
    assert forall o :: o in Requested(items) ==> exists i :: 0 <= i < |items| && items[i].source == o;
    var own, wanted := Own(binds, importer), Requested(items);
    hide MultiFor, MayShare, Instance, Own, Requested, ItemFits, WellFormed, TableValid, ProtoOf;
    if !ClashFree(inv, importer, own, wanted) {
      var a, b :| a in wanted && b in wanted && a != b && Exists(inv, a) && Exists(inv, b)
                  && ProtoOf(inv, a) == ProtoOf(inv, b) && !MultiFor(inv, importer, ProtoOf(inv, a))
                  && !(a in own && b in own);
      var i :| 0 <= i < |items| && items[i].source == a;
      var j :| 0 <= j < |items| && items[j].source == b;
      assert Instance(inv, items[i].source, ProtoOf(inv, a)) && Instance(inv, items[j].source, ProtoOf(inv, a));
    } else {
      forall i, j, p | 0 <= i < |items| && 0 <= j < |items| && i != j && Instance(inv, items[i].source, p)
                       && Instance(inv, items[j].source, p)
        ensures MayShare(inv, importer, items[i].source) || (items[i].source in own && items[j].source in own)
      {
        assert items[i].source != items[j].source;
      }
    }
  }

  lemma OwnByBind(binds: set<Bind>, importer: Object, source: Object)
    ensures source in Own(binds, importer) <==> Bind(importer, source) in binds
  {
  }
}
