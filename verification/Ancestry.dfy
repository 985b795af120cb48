/** Ancestors and affected objects in terms of the stored rows. */
module Ancestry {
  import opened Inventory

  /** The component of a mapping row, or something above it. */
  ghost predicate AboveVia(db: Db, a: Key, hc: HcRow)
    requires References(db) && hc in db.hcs
  {
    assert Key(Component, hc.component) in Objects(db);
    a == Key(Component, hc.component) || a in Ancestors(db, Key(Component, hc.component))
  }

  lemma OneParent(db: Db, k: Key, p: Key)
    requires References(db) && k in Objects(db) && ParentsOf(db, k) == {p}
    ensures Ancestors(db, k) == {p} + Ancestors(db, p)
  {
    hide References, Objects, ParentsOf;
  }

  lemma ClusterAncestors(db: Db, c: int)
    requires References(db) && c in db.clusters
    ensures Key(Cluster, c) in Objects(db) && Ancestors(db, Key(Cluster, c)) == {ROOT}
  {
    assert Key(Cluster, c) in Objects(db);
    OneParent(db, Key(Cluster, c), ROOT);
    assert ParentsOf(db, ROOT) == {};
  }

  lemma ServiceAncestors(db: Db, s: int)
    requires Consistent(db) && s in db.services
    ensures Key(Service, s) in Objects(db) && Ancestors(db, Key(Service, s)) == {Key(Cluster, db.services[s]), ROOT}
  {
    assert Key(Service, s) in Objects(db);
    ClusterAncestors(db, db.services[s]);
    OneParent(db, Key(Service, s), Key(Cluster, db.services[s]));
    hide Ancestors, ParentsOf;
  }

  lemma ComponentAncestors(db: Db, c: int)
    requires Consistent(db) && c in db.components
    ensures Key(Component, c) in Objects(db)
    ensures Ancestors(db, Key(Component, c)) ==
            {Key(Service, db.components[c].service), Key(Cluster, db.components[c].cluster), ROOT}
  {
    assert Key(Component, c) in Objects(db);
    ServiceAncestors(db, db.components[c].service);
    OneParent(db, Key(Component, c), Key(Service, db.components[c].service));
    hide Ancestors, ParentsOf;
  }

  lemma HostAncestors(db: Db, a: Key, h: Key)
    requires References(db) && h in Objects(db) && h.kind == Host
    ensures a in Ancestors(db, h) <==> exists hc :: hc in db.hcs && hc.host == h.id && AboveVia(db, a, hc)
  {
    hide Objects;
    forall hc | hc in db.hcs && hc.host == h.id ensures Key(Component, hc.component) in ParentsOf(db, h) {
    }
    if a in Ancestors(db, h) {
      var p :| p in ParentsOf(db, h) && (a == p || a in Ancestors(db, p));
      var hc :| hc in db.hcs && hc.host == h.id && p == Key(Component, hc.component);
      assert AboveVia(db, a, hc);
    }
  }

  // ---------- who is affected, row by row ----------

  /** The mapping row puts its host under this component, service or cluster. */
  predicate RowUnder(a: Key, hc: HcRow) {
    a == Key(Component, hc.component) || a == Key(Service, hc.service) || a == Key(Cluster, hc.cluster)
  }

  /** Some row maps the host under `a`. */
  ghost predicate HostUnder(db: Db, a: Key, h: int) {
    exists hc :: hc in db.hcs && hc.host == h && RowUnder(a, hc)
  }

  /** `a` is above `b`: a cluster above its services, their components and the hosts mapped to them, and so
      on down; above a provider are its hosts and what they are mapped under. */
  ghost predicate Above(db: Db, a: Key, b: Key)
    requires b in Objects(db)
  {
    match b.kind
    case Service => a == Key(Cluster, db.services[b.id])
    case Component => a == Key(Service, db.components[b.id].service) || a == Key(Cluster, db.components[b.id].cluster)
    case Host => HostUnder(db, a, b.id)
    case Provider =>
      exists h :: h in db.hosts && b.id in db.hosts[h].provider && (a == Key(Host, h) || HostUnder(db, a, h))
    case _ => false
  }

  lemma HostAncestorsByRow(db: Db, a: Key, h: Key)
    requires Consistent(db) && h in Objects(db) && h.kind == Host && a != ROOT
    ensures a in Ancestors(db, h) <==> HostUnder(db, a, h.id)
  {
    HostAncestors(db, a, h);
    forall hc | hc in db.hcs ensures AboveVia(db, a, hc) <==> RowUnder(a, hc) {
      RowAncestors(db, a, hc);
    }
    hide *;
  }

  lemma RowAncestors(db: Db, a: Key, hc: HcRow)
    requires Consistent(db) && hc in db.hcs && a != ROOT
    ensures AboveVia(db, a, hc) <==> RowUnder(a, hc)
  {
    ComponentAncestors(db, hc.component);
    hide Ancestors, Objects;
  }

  lemma ProviderAncestors(db: Db, a: Key, p: Key)
    requires Consistent(db) && p in Objects(db) && p.kind == Provider && a != ROOT
    ensures a in Ancestors(db, p) <==> Above(db, a, p)
  {
    ProviderParents(db, p);
    forall h | h in db.hosts && p.id in db.hosts[h].provider
      ensures Key(Host, h) in Objects(db)
      ensures a in Ancestors(db, Key(Host, h)) <==> HostUnder(db, a, h)
    {
      assert Key(Host, h) in Objects(db);
      HostAncestorsByRow(db, a, Key(Host, h));
    }
    hide ParentsOf, HostUnder, Objects, Consistent;
  }

  lemma ProviderParents(db: Db, p: Key)
    requires References(db) && p in Objects(db) && p.kind == Provider
    ensures forall q :: q in ParentsOf(db, p) <==>
              exists h :: h in db.hosts && p.id in db.hosts[h].provider && q == Key(Host, h)
  {
  }

  lemma AncestorsByRow(db: Db, a: Key, b: Key)
    requires Consistent(db) && b in Objects(db) && a != ROOT
    ensures a in Ancestors(db, b) <==> Above(db, a, b)
  {
    match b.kind
    case Cluster => ClusterAncestors(db, b.id);
    case Service => ServiceAncestors(db, b.id);
    case Component => ComponentAncestors(db, b.id);
    case Host => HostAncestorsByRow(db, a, b);
    case Provider => ProviderAncestors(db, a, b);
    case Adcm => assert ParentsOf(db, b) == {};
  }

  /** An issue of `k` is shown on `k`, on what is above it, and, except for providers, on what it is
      above. */
  lemma AffectedByRow(db: Db, k: Key, q: Key)
    requires Consistent(db) && k in Objects(db) && q in Objects(db)
    ensures q in Affected(db, k) <==> q == k || Above(db, q, k) || (q.kind != Provider && Above(db, k, q))
  {
    AncestorsByRow(db, q, k);
    AncestorsByRow(db, k, q);
    hide Ancestors, Above, Consistent;
  }

  /** What counts as an object. */
  lemma ObjectsByRow(db: Db, k: Key)
    ensures k in Objects(db) <==>
            match k.kind
            case Root => false
            case Cluster => k.id in db.clusters
            case Service => k.id in db.services
            case Component => k.id in db.components
            case Host => k.id in db.hosts
            case Provider => k.id in db.providers
            case Adcm => k.id in db.adcms
  {
  }

  /** Up and down a provider has the same neighbours, its hosts. */
  lemma ProviderBothWays(db: Db, p: Key, k: Key)
    requires References(db) && p in Objects(db) && p.kind == Provider
    ensures k in ParentsOf(db, p) <==> k in ChildrenOf(db, p)
    ensures k in ChildrenOf(db, p) <==> k.kind == Host && k.id in db.hosts && p.id in db.hosts[k.id].provider
  {
  }
}
