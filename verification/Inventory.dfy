/** The stored objects of the application and who is whose parent: cluster, service, component,
    host, provider.  Closures here are the reference the hierarchy tree is measured against. */
module Inventory {
  datatype Kind = Root | Cluster | Service | Component | Host | Provider | Adcm

  datatype Key = Key(kind: Kind, id: int)

  const ROOT := Key(Root, 0)

  datatype ComponentRow = ComponentRow(cluster: int, service: int)

  datatype HostRow = HostRow(provider: set<int>, cluster: set<int>)   // at most one of each

  datatype HcRow = HcRow(cluster: int, service: int, component: int, host: int)

  datatype Db = Db(
    clusters: set<int>,
    services: map<int, int>,               // service -> cluster
    components: map<int, ComponentRow>,
    hosts: map<int, HostRow>,
    providers: set<int>,
    hcs: set<HcRow>,
    adcms: set<int>)

  /** Foreign keys point to existing rows. */
  ghost predicate References(db: Db) {
    && (forall s :: s in db.services ==> db.services[s] in db.clusters)
    && (forall c :: c in db.components ==>
       db.components[c].service in db.services && db.components[c].cluster in db.clusters)
    && (forall h, p :: h in db.hosts && p in db.hosts[h].provider ==> p in db.providers)
    && (forall hc :: hc in db.hcs ==> hc.component in db.components && hc.host in db.hosts &&
                                      hc.service in db.services && hc.cluster in db.clusters)
  }

  /** The repeated cluster and service columns agree with the rows they repeat. */
  ghost predicate Consistent(db: Db) {
    && References(db)
    && (forall c :: c in db.components ==> db.components[c].cluster == db.services[db.components[c].service])
    && (forall hc :: hc in db.hcs ==> hc.service == db.components[hc.component].service &&
                                      hc.cluster == db.services[hc.service])
  }

  function Objects(db: Db): set<Key> {
    (set c | c in db.clusters :: Key(Cluster, c))
    + (set s | s in db.services :: Key(Service, s))
    + (set c | c in db.components :: Key(Component, c))
    + (set h | h in db.hosts :: Key(Host, h))
    + (set p | p in db.providers :: Key(Provider, p))
    + (set a | a in db.adcms :: Key(Adcm, a))
  }

  /** How far a kind is from the virtual root. */
  function Depth(kind: Kind): nat {
    match kind
    case Root => 0
    case Cluster => 1
    case Service => 2
    case Component => 3
    case Host => 4
    case Provider => 5
    case Adcm => 6
  }

  /** The parents queried on the way up. */
  function ParentsOf(db: Db, k: Key): (r: set<Key>)
    requires References(db) && (k == ROOT || k in Objects(db))
    ensures forall p :: p in r ==> Depth(p.kind) < Depth(k.kind) && (p == ROOT || p in Objects(db))
    ensures ROOT in r <==> k.kind == Cluster
  {
    match k.kind
    case Root => {}
    case Cluster => {ROOT}
    case Service => {Key(Cluster, db.services[k.id])}
    case Component => {Key(Service, db.components[k.id].service)}
    case Host => set hc | hc in db.hcs && hc.host == k.id :: Key(Component, hc.component)
    case Provider => set h | h in db.hosts && k.id in db.hosts[h].provider :: Key(Host, h)
    case Adcm => {}
  }

  /** The children queried on the way down. */
  function ChildrenOf(db: Db, k: Key): (r: set<Key>)
    requires References(db) && k in Objects(db)
    ensures forall c :: c in r ==> c in Objects(db)
    ensures k.kind != Provider ==> forall c :: c in r ==> Depth(k.kind) < Depth(c.kind) <= Depth(Host)
    ensures k.kind == Provider ==> forall c :: c in r ==> c.kind == Host
  {
    match k.kind
    case Cluster => set s | s in db.services && db.services[s] == k.id :: Key(Service, s)
    case Service =>
      set c | c in db.components && db.components[c] == ComponentRow(db.services[k.id], k.id) :: Key(Component, c)
    case Component =>
      var row := db.components[k.id];
      set hc | hc in db.hcs && hc.component == k.id && hc.service == row.service
        && hc.cluster == db.services[row.service]
        :: Key(Host, hc.host)
    case Provider => set h | h in db.hosts && k.id in db.hosts[h].provider :: Key(Host, h)
    case _ => {}
  }

  function Ancestors(db: Db, k: Key): (r: set<Key>)
    requires References(db) && (k == ROOT || k in Objects(db))
    ensures forall p :: p in r ==> Depth(p.kind) < Depth(k.kind) && (p == ROOT || p in Objects(db))
    decreases Depth(k.kind)
  {
    ParentsOf(db, k) + set p, a | p in ParentsOf(db, k) && a in Ancestors(db, p) :: a
  }

  /** Who is affected by an issue of `k`: itself, everything above it, and everything it is above.
      Nothing is below a host, so a host does not affect its provider. */
  function Affected(db: Db, k: Key): set<Key>
    requires References(db) && k in Objects(db)
  {
    set q | q in Objects(db) && (q == k || q in Ancestors(db, k) || (q.kind != Provider && k in Ancestors(db, q)))
  }

  // ---------- laws of the relation ----------

  lemma {:induction false} AncestorsTransitive(db: Db, a: Key, b: Key, c: Key)
    requires References(db) && (c == ROOT || c in Objects(db))
    requires b in Ancestors(db, c) && a in Ancestors(db, b)
    ensures a in Ancestors(db, c)
    decreases Depth(c.kind)
  {
    if b !in ParentsOf(db, c) {
      var p :| p in ParentsOf(db, c) && b in Ancestors(db, p);
      AncestorsTransitive(db, a, b, p);
    }
  }

  /** In a consistent database the two queries are inverse, up to hosts. */
  lemma QueriesInverse(db: Db, p: Key, c: Key)
    requires Consistent(db) && p in Objects(db) && c in Objects(db) && p.kind != Provider && c.kind != Provider
    ensures c in ChildrenOf(db, p) <==> p in ParentsOf(db, c)
  {
    match c.kind
    case Cluster =>
    case Service =>
    case Component =>
    case Host => MappingInverse(db, p, c);
    case Adcm =>
  }

  lemma MappingInverse(db: Db, p: Key, c: Key)
    requires Consistent(db) && p in Objects(db) && c in Objects(db) && p.kind != Provider && c.kind == Host
    ensures c in ChildrenOf(db, p) <==> p in ParentsOf(db, c)
  {
  }

  /** Between clusters, services, components and hosts, being affected is mutual; a provider is
      affected by none of its hosts, although it affects them all. */
  lemma AffectedSymmetric(db: Db, a: Key, b: Key)
    requires References(db) && a in Objects(db) && b in Objects(db)
    ensures a.kind != Provider && b.kind != Provider ==> (a in Affected(db, b) <==> b in Affected(db, a))
    ensures a.kind == Provider && a != b ==> a !in Affected(db, b)
    ensures a.kind == Provider && b.kind == Host && a.id in db.hosts[b.id].provider ==> b in Affected(db, a)
  {
    hide References, ParentsOf;
    if a.kind == Provider {
      ProviderIsNoAncestor(db, a, b);
      if b.kind == Host && a.id in db.hosts[b.id].provider {
        HostAboveProvider(db, a, b);
      }
    }
  }

  lemma HostAboveProvider(db: Db, p: Key, h: Key)
    requires References(db) && p in Objects(db) && h in Objects(db)
    requires p.kind == Provider && h.kind == Host && p.id in db.hosts[h.id].provider
    ensures h in ParentsOf(db, p)
  {
  }

  lemma {:induction false} ProviderIsNoAncestor(db: Db, a: Key, b: Key)
    requires References(db) && a.kind == Provider && (b == ROOT || b in Objects(db))
    ensures a !in Ancestors(db, b)
    decreases Depth(b.kind)
  {
    forall p | p in ParentsOf(db, b) ensures a !in Ancestors(db, p) {
      ProviderIsNoAncestor(db, a, p);
    }
  }
}
