/** How a composed role is applied to an object: which child role is applied to which object of its
    subtree, and what the shortcut of skipping kinds nobody is parametrized by costs. */
module Roles {
  import opened Common
  import opened Inventory
  import opened Ancestry

  /** Object, task and config roles go by the kind of object; an action role by its prototype. */
  datatype RoleClass = ByKind | ByAction(prototype: int) | OtherClass

  datatype Child = Child(id: int, class_: RoleClass, parametrizedBy: set<Kind>)

  /** The database and the prototype of each object. */
  datatype World = World(db: Db, prototype: map<Key, int>)

  datatype Call = Call(child: Child, object_: Key)

  ghost predicate WorldValid(w: World) {
    Consistent(w.db) && Objects(w.db) <= w.prototype.Keys
  }

  predicate Matches(w: World, c: Child, o: Key) {
    match c.class_
    case ByKind => o.kind in c.parametrizedBy
    case ByAction(p) => o in w.prototype && w.prototype[o] == p
    case OtherClass => false
  }

  function ParametrizedBy(children: set<Child>): set<Kind> {
    set c, k | c in children && k in c.parametrizedBy :: k
  }

  // ---------- the subtree ----------

  function ServicesOf(db: Db, cluster: int): set<Key> {
    set s | s in db.services && db.services[s] == cluster :: Key(Service, s)
  }

  function ComponentsOf(db: Db, service: int): set<Key> {
    set c | c in db.components && db.components[c].service == service :: Key(Component, c)
  }

  function ClusterHosts(db: Db, cluster: int): set<Key> {
    set h | h in db.hosts && cluster in db.hosts[h].cluster :: Key(Host, h)
  }

  function ProviderHosts(db: Db, provider: int): set<Key> {
    set h | h in db.hosts && provider in db.hosts[h].provider :: Key(Host, h)
  }

  function ServiceHosts(db: Db, cluster: int, service: int): set<Key> {
    set hc | hc in db.hcs && hc.cluster == cluster && hc.service == service :: Key(Host, hc.host)
  }

  function ComponentHosts(db: Db, row: ComponentRow, component: int): set<Key> {
    set hc | hc in db.hcs && hc.cluster == row.cluster && hc.service == row.service && hc.component == component
      :: Key(Host, hc.host)
  }

  function Subtree(db: Db, o: Key): set<Key>
    requires References(db) && o in Objects(db)
  {
    {o} +
    match o.kind
    case Cluster =>
      ServicesOf(db, o.id) + (set s, c | s in ServicesOf(db, o.id) && c in ComponentsOf(db, s.id) :: c)
      + ClusterHosts(db, o.id)
    case Service => ComponentsOf(db, o.id) + ServiceHosts(db, db.services[o.id], o.id)
    case Component => ComponentHosts(db, db.components[o.id], o.id)
    case Provider => ProviderHosts(db, o.id)
    case _ => {}
  }

  /** The kinds the walk goes down to: services also on the way to their components. */
  predicate WalksTo(root: Key, wanted: set<Kind>, kind: Kind) {
    kind in wanted || (root.kind == Cluster && kind == Service && Component in wanted)
  }

  function Visited(db: Db, wanted: set<Kind>, root: Key): set<Key>
    requires References(db) && root in Objects(db)
  {
    set o | o in Subtree(db, root) && (o == root || WalksTo(root, wanted, o.kind))
  }

  function CallsOn(w: World, children: set<Child>, objects: set<Key>): set<Call> {
    set c, o | c in children && o in objects && Matches(w, c, o) :: Call(c, o)
  }

  /** What is above a service or component, which whoever may see it may see too. */
  function AlsoViewed(db: Db, o: Key): set<Key>
    requires References(db) && o in Objects(db)
  {
    match o.kind
    case Service => {Key(Cluster, db.services[o.id])}
    case Component => {Key(Cluster, db.components[o.id].cluster), Key(Service, db.components[o.id].service)}
    case _ => {}
  }

  /** What the walk adds to the object itself. */
  function Below(db: Db, wanted: set<Kind>, root: Key): set<Key>
    requires References(db) && root in Objects(db)
  {
    match root.kind
    case Cluster =>
      (if Service in wanted || Component in wanted then ServicesAndBelow(db, wanted, root.id) else {})
      + (if Host in wanted then ClusterHosts(db, root.id) else {})
    case Service =>
      (if Component in wanted then ComponentsOf(db, root.id) else {})
      + (if Host in wanted then ServiceHosts(db, db.services[root.id], root.id) else {})
    case Component => if Host in wanted then ComponentHosts(db, db.components[root.id], root.id) else {}
    case Provider => if Host in wanted then ProviderHosts(db, root.id) else {}
    case _ => {}
  }

  function ServicesAndBelow(db: Db, wanted: set<Kind>, cluster: int): set<Key> {
    ServicesOf(db, cluster)
    + if Component in wanted then (set s, c | s in ServicesOf(db, cluster) && c in ComponentsOf(db, s.id) :: c) else {}
  }

  lemma VisitedShape(db: Db, wanted: set<Kind>, root: Key)
    requires References(db) && root in Objects(db)
    ensures Visited(db, wanted, root) == {root} + Below(db, wanted, root)
  {
    KindsOfSubtree(db, root);
    hide ServicesOf, ComponentsOf, ClusterHosts, ServiceHosts, ComponentHosts, ProviderHosts, References, Objects;
    forall o ensures o in Visited(db, wanted, root) <==> o in {root} + Below(db, wanted, root) {
    }
  }

  lemma CallsOnUnion(w: World, children: set<Child>, a: set<Key>, b: set<Key>)
    ensures CallsOn(w, children, a + b) == CallsOn(w, children, a) + CallsOn(w, children, b)
    ensures CallsOn(w, children, {}) == {}
  {
  }

  /** The calls of a part of the walk that is gone down to only if some kind is wanted. */
  function CallsIf(w: World, children: set<Child>, goes: bool, objects: set<Key>): set<Call> {
    if goes then CallsOn(w, children, objects) else {}
  }

  lemma BelowCalls(w: World, children: set<Child>, wanted: set<Kind>, root: Key)
    requires References(w.db) && root in Objects(w.db)
    ensures var calls := CallsOn(w, children, Below(w.db, wanted, root));
      && (root.kind == Cluster ==>
            calls == CallsIf(w, children, Service in wanted || Component in wanted,
              ServicesAndBelow(w.db, wanted, root.id))
                     + CallsIf(w, children, Host in wanted, ClusterHosts(w.db, root.id)))
      && (root.kind == Service ==>
            calls == CallsIf(w, children, Component in wanted, ComponentsOf(w.db, root.id))
                     + CallsIf(w, children, Host in wanted, ServiceHosts(w.db, w.db.services[root.id], root.id)))
      && (root.kind == Component ==>
            calls == CallsIf(w, children, Host in wanted, ComponentHosts(w.db, w.db.components[root.id], root.id)))
      && (root.kind == Provider ==> calls == CallsIf(w, children, Host in wanted, ProviderHosts(w.db, root.id)))
      && (root.kind == Host || root.kind == Adcm || root.kind == Root ==> calls == {})
  {
    hide Matches, ServicesOf, ComponentsOf, ClusterHosts, ServiceHosts, ComponentHosts, ProviderHosts, ServicesAndBelow;
  }

  // ---------- the walk ----------

  class ParentRole {
    const w: World
    const children: set<Child>
    var calls: set<Call>
    var viewed: set<Key>

    constructor (w: World, children: set<Child>)
      ensures this.w == w && this.children == children && calls == {} && viewed == {}
    {
      this.w := w;
      this.children := children;
      calls := {};
      viewed := {};
    }

    method FindAndApply(o: Key)
      modifies this`calls
      ensures calls == old(calls) + CallsOn(w, children, {o})
    {
      var rest := children;
      while rest != {}
        invariant rest <= children
        invariant calls == old(calls) + CallsOn(w, children - rest, {o})
      {
        var c := PickOne(rest);
        if Matches(w, c, o) {
          calls := calls + {Call(c, o)};
        }
        rest := rest - {c};
      }
    }

    method FindAndApplyAll(objects: set<Key>)
      modifies this`calls
      ensures calls == old(calls) + CallsOn(w, children, objects)
    {
      var rest := objects;
      while rest != {}
        invariant rest <= objects
        invariant calls == old(calls) + CallsOn(w, children, objects - rest)
      {
        var o := PickOne(rest);
        FindAndApply(o);
        rest := rest - {o};
      }
    }

    /** The loop over the services of a cluster, with the loop over their components inside. */
    method ApplyToServices(cluster: int, wanted: set<Kind>)
      modifies this`calls
      ensures calls == old(calls) + CallsOn(w, children, ServicesAndBelow(w.db, wanted, cluster))
    {
      hide ServicesOf, ComponentsOf, Matches;
      var services := ServicesOf(w.db, cluster);
      var rest := services;
      while rest != {}
        invariant rest <= services
        invariant calls == old(calls) + CallsOn(w, children, (services - rest) +
                    if Component !in wanted then {}
                    else set s, c | s in services - rest && c in ComponentsOf(w.db, s.id) :: c)
      {
        var s := PickOne(rest);
        FindAndApply(s);
        if Component in wanted {
          FindAndApplyAll(ComponentsOf(w.db, s.id));
        }
        rest := rest - {s};
      }
    }

    method ApplyBelow(o: Key, wanted: set<Kind>)
      requires WorldValid(w) && o in Objects(w.db)
      modifies this`calls
      ensures calls == old(calls) + CallsOn(w, children, Below(w.db, wanted, o))
    {
      var db := w.db;
      BelowCalls(w, children, wanted, o);
      hide CallsOn, Below, Matches, Consistent, References,
        ServicesAndBelow, ServicesOf, ComponentsOf, ClusterHosts, ServiceHosts, ComponentHosts, ProviderHosts;
      if o.kind == Cluster {
        if Service in wanted || Component in wanted {
          ApplyToServices(o.id, wanted);
        }
        ApplyIf(Host in wanted, ClusterHosts(db, o.id));
      } else if o.kind == Service {
        ApplyIf(Component in wanted, ComponentsOf(db, o.id));
        ApplyIf(Host in wanted, ServiceHosts(db, db.services[o.id], o.id));
      } else if o.kind == Component {
        ApplyIf(Host in wanted, ComponentHosts(db, db.components[o.id], o.id));
      } else if o.kind == Provider {
        ApplyIf(Host in wanted, ProviderHosts(db, o.id));
      }
    }

    method ApplyIf(goes: bool, objects: set<Key>)
      modifies this`calls
      ensures calls == old(calls) + CallsIf(w, children, goes, objects)
    {
      if goes {
        FindAndApplyAll(objects);
      }
    }

    method ApplyTo(o: Key)
      requires WorldValid(w) && o in Objects(w.db)
      modifies this
      ensures calls == old(calls) + CallsOn(w, children, Visited(w.db, ParametrizedBy(children), o))
      ensures viewed == old(viewed) + AlsoViewed(w.db, o)
    {
      var wanted := ParametrizedBy(children);
      assert References(w.db);
      VisitedShape(w.db, wanted, o);
      CallsOnUnion(w, children, {o}, Below(w.db, wanted, o));
      hide *;
      FindAndApply(o);
      ApplyBelow(o, wanted);
      ViewAbove(o);
    }

    method ViewAbove(o: Key)
      requires References(w.db) && o in Objects(w.db)
      modifies this`viewed
      ensures viewed == old(viewed) + AlsoViewed(w.db, o)
    {
      if o.kind == Service {
        viewed := viewed + {Key(Cluster, w.db.services[o.id])};
      } else if o.kind == Component {
        viewed := viewed + {Key(Cluster, w.db.components[o.id].cluster)};
        viewed := viewed + {Key(Service, w.db.components[o.id].service)};
      }
    }

    method Apply(objects: seq<Key>)
      requires WorldValid(w) && forall o :: o in objects ==> o in Objects(w.db)
      modifies this
      ensures calls == old(calls) + set i, call | 0 <= i < |objects|
                && call in CallsOn(w, children, Visited(w.db, ParametrizedBy(children), objects[i])) :: call
      ensures viewed == old(viewed) + set i, k | 0 <= i < |objects| && k in AlsoViewed(w.db, objects[i]) :: k
    {
      hide Visited, CallsOn, ParametrizedBy, Objects, AlsoViewed;
      for k := 0 to |objects|
        invariant calls == old(calls) + set i, call | 0 <= i < k
                    && call in CallsOn(w, children, Visited(w.db, ParametrizedBy(children), objects[i])) :: call
        invariant viewed == old(viewed) + set i, v | 0 <= i < k && v in AlsoViewed(w.db, objects[i]) :: v
      {
        ApplyTo(objects[k]);
      }
    }
  }

  lemma KindsOfSubtree(db: Db, o: Key)
    requires References(db) && o in Objects(db)
    ensures forall k :: k in ServicesOf(db, o.id) ==> k.kind == Service
    ensures forall k, s :: k in ComponentsOf(db, s) ==> k.kind == Component
    ensures forall k :: k in ClusterHosts(db, o.id) + ProviderHosts(db, o.id) ==> k.kind == Host
    ensures forall k, c :: k in ServiceHosts(db, c, o.id) ==> k.kind == Host
    ensures forall k, r :: k in ComponentHosts(db, r, o.id) ==> k.kind == Host
  {
  }

  // ---------- the shortcut ----------

  /** No action role matches an object below that the walk does not go down to. */
  ghost predicate NoActionSkipped(w: World, children: set<Child>, root: Key)
    requires References(w.db) && root in Objects(w.db)
  {
    forall c, o :: c in children && c.class_.ByAction? && o in Subtree(w.db, root) && o != root && Matches(w, c, o) ==>
      WalksTo(root, ParametrizedBy(children), o.kind)
  }

  /** Skipping kinds grants what a full walk would grant exactly when no action role is skipped. */
  lemma ShortcutIsFullWalkIff(w: World, children: set<Child>, root: Key)
    requires WorldValid(w) && root in Objects(w.db)
    ensures CallsOn(w, children, Visited(w.db, ParametrizedBy(children), root)) ==
            CallsOn(w, children, Subtree(w.db, root))
            <==> NoActionSkipped(w, children, root)
  {
    assert References(w.db);
    hide Subtree, Consistent, References;
    var wanted := ParametrizedBy(children);
    var visited, all := Visited(w.db, wanted, root), Subtree(w.db, root);
    if NoActionSkipped(w, children, root) {
      forall c, o | c in children && o in all && Matches(w, c, o) ensures o in visited {
        if c.class_.ByKind? {
          assert o.kind in wanted;
        }
      }
    } else {
      var c, o :| c in children && c.class_.ByAction? && o in all && o != root && Matches(w, c, o)
                  && !WalksTo(root, wanted, o.kind);
      assert Call(c, o) in CallsOn(w, children, all);
      assert Call(c, o) !in CallsOn(w, children, visited);
    }
  }

  /** So it does when every action role lists the kind of its action's objects. */
  lemma ListedActionsAreGranted(w: World, children: set<Child>, root: Key)
    requires WorldValid(w) && root in Objects(w.db)
    requires forall c, o ::
               c in children && c.class_.ByAction? && o in Objects(w.db) && w.prototype[o] == c.class_.prototype ==>
                 o.kind in c.parametrizedBy
    ensures CallsOn(w, children, Visited(w.db, ParametrizedBy(children), root)) ==
            CallsOn(w, children, Subtree(w.db, root))
  {
    SubtreeOfObjects(w.db, root);
    forall c, o | c in children && c.class_.ByAction? && o in Subtree(w.db, root) && o != root && Matches(w, c, o)
      ensures WalksTo(root, ParametrizedBy(children), o.kind)
    {
      assert o.kind in c.parametrizedBy;
    }
    ShortcutIsFullWalkIff(w, children, root);
  }

  lemma SubtreeOfObjects(db: Db, root: Key)
    requires References(db) && root in Objects(db)
    ensures Subtree(db, root) <= Objects(db)
  {
  }

  /** The subtree of a service or a component is the part of the hierarchy it is above. */
  lemma SubtreeIsBelow(db: Db, root: Key, o: Key)
    requires Consistent(db) && root in Objects(db) && o in Objects(db)
    requires root.kind == Service || root.kind == Component
    ensures o in Subtree(db, root) <==> o == root || (o.kind != Provider && root in Ancestors(db, o))
  {
    match o.kind
    case Host => HostBelow(db, root, o);
    case Component => ComponentBelow(db, root, o);
    case Service => ServiceBelow(db, root, o);
    case Cluster => ClusterNotBelow(db, root, o);
    case Adcm => ClusterNotBelow(db, root, o);
    case Provider => ClusterNotBelow(db, root, o);
  }

  lemma HostBelow(db: Db, root: Key, o: Key)
    requires Consistent(db) && root in Objects(db) && o in Objects(db) && o.kind == Host
    requires root.kind == Service || root.kind == Component
    ensures o in Subtree(db, root) <==> root in Ancestors(db, o)
  {
    HostAncestors(db, root, o);
    HostInSubtree(db, root, o);
    forall hc | hc in db.hcs ensures AboveVia(db, root, hc) <==> Covers(root, hc) {
      MappedAbove(db, root, hc);
    }
    hide *;
  }

  lemma MappedAbove(db: Db, root: Key, hc: HcRow)
    requires Consistent(db) && hc in db.hcs
    requires root.kind == Service || root.kind == Component
    ensures AboveVia(db, root, hc) <==> Covers(root, hc)
  {
    ComponentAncestors(db, hc.component);
    hide Ancestors, Objects;
  }

  /** The mapping puts the host under this service or component. */
  predicate Covers(root: Key, hc: HcRow) {
    root == Key(Component, hc.component) || root == Key(Service, hc.service)
  }

  lemma HostInSubtree(db: Db, root: Key, o: Key)
    requires Consistent(db) && root in Objects(db) && o in Objects(db) && o.kind == Host
    requires root.kind == Service || root.kind == Component
    ensures o in Subtree(db, root) <==> exists hc :: hc in db.hcs && hc.host == o.id && Covers(root, hc)
  {
    SubtreeParts(db, root);
    Stored(db, root);
    hide Subtree, Objects;
    if root.kind == Service {
      assert o in Subtree(db, root) <==> o in ServiceHosts(db, db.services[root.id], root.id);
    } else {
      assert o in Subtree(db, root) <==> o in ComponentHosts(db, db.components[root.id], root.id);
    }
  }

  lemma Stored(db: Db, o: Key)
    requires o in Objects(db)
    ensures o.kind == Service ==> o.id in db.services
    ensures o.kind == Component ==> o.id in db.components
  {
  }

  lemma SubtreeParts(db: Db, root: Key)
    requires References(db) && root in Objects(db) && (root.kind == Service || root.kind == Component)
    ensures root.kind == Service ==>
              Subtree(db, root) == {root} + ComponentsOf(db, root.id) + ServiceHosts(db, db.services[root.id], root.id)
    ensures root.kind == Component ==> Subtree(db, root) == {root} + ComponentHosts(db, db.components[root.id], root.id)
  {
  }

  lemma ComponentBelow(db: Db, root: Key, o: Key)
    requires Consistent(db) && root in Objects(db) && o in Objects(db) && o.kind == Component
    requires root.kind == Service || root.kind == Component
    ensures o in Subtree(db, root) <==> o == root || root in Ancestors(db, o)
  {
    ComponentInSubtree(db, root, o);
    AboveComponent(db, root, o);
    hide *;
  }

  lemma ComponentInSubtree(db: Db, root: Key, o: Key)
    requires References(db) && root in Objects(db) && o in Objects(db) && o.kind == Component
    requires root.kind == Service || root.kind == Component
    ensures o.id in db.components
    ensures o in Subtree(db, root) <==> o == root || root == Key(Service, db.components[o.id].service)
  {
    SubtreeParts(db, root);
    Stored(db, o);
    Stored(db, root);
    hide Subtree, References, Objects;
    if root.kind == Service {
      assert o in ComponentsOf(db, root.id) <==> db.components[o.id].service == root.id;
    }
  }

  lemma AboveComponent(db: Db, root: Key, o: Key)
    requires Consistent(db) && o in Objects(db) && o.kind == Component
    requires root.kind == Service || root.kind == Component
    ensures o.id in db.components
    ensures root in Ancestors(db, o) <==> root == Key(Service, db.components[o.id].service)
  {
    Stored(db, o);
    ComponentAncestors(db, o.id);
    assert o == Key(Component, o.id);
    hide Ancestors, Consistent, Objects, References;
  }

  lemma ServiceBelow(db: Db, root: Key, o: Key)
    requires Consistent(db) && root in Objects(db) && o in Objects(db) && o.kind == Service
    requires root.kind == Service || root.kind == Component
    ensures o in Subtree(db, root) <==> o == root || root in Ancestors(db, o)
  {
    assert References(db);
    Stored(db, o);
    Stored(db, root);
    ServiceAncestors(db, o.id);
    SubtreeParts(db, root);
    KindsOfSubtree(db, root);
    hide Ancestors, Subtree, Objects, References, ServiceHosts, ComponentHosts;
  }

  lemma ClusterNotBelow(db: Db, root: Key, o: Key)
    requires Consistent(db) && root in Objects(db) && o in Objects(db)
    requires root.kind == Service || root.kind == Component
    requires o.kind == Cluster || o.kind == Adcm || o.kind == Provider
    ensures o !in Subtree(db, root) && (o.kind != Provider ==> root !in Ancestors(db, o))
  {
    SubtreeParts(db, root);
    hide Subtree;
    if o.kind != Provider {
      if o.kind == Cluster {
        ClusterAncestors(db, o.id);
      } else {
        assert ParentsOf(db, o) == {};
      }
    }
  }

  // ---------- what is granted, row by row ----------

  ghost predicate Under(db: Db, root: Key, o: Key)
    requires Consistent(db) && o in Objects(db)
  {
    match root.kind
    case Cluster =>
      (match o.kind
       case Service => db.services[o.id] == root.id
       case Component => db.services[db.components[o.id].service] == root.id
       case Host => root.id in db.hosts[o.id].cluster
       case _ => false)
    case Service =>
      (match o.kind
       case Component => db.components[o.id].service == root.id
       case Host => exists hc :: hc in db.hcs && hc.host == o.id && hc.service == root.id
       case _ => false)
    case Component =>
      o.kind == Host && exists hc :: hc in db.hcs && hc.host == o.id && hc.component == root.id
    case Provider => o.kind == Host && root.id in db.hosts[o.id].provider
    case _ => false
  }

  lemma SubtreeByRow(db: Db, root: Key, o: Key)
    requires Consistent(db) && root in Objects(db) && o in Objects(db)
    ensures o in Subtree(db, root) <==> o == root || Under(db, root, o)
  {
    if root.kind == Cluster {
      ClusterUnder(db, root, o);
    } else if root.kind == Service || root.kind == Component {
      SubtreeParts(db, root);
      MappedUnder(db, root, o);
      ListedUnder(db, root.id, o);
      hide Subtree, ServiceHosts, ComponentHosts, ComponentsOf;
    } else {
      ListedUnder(db, root.id, o);
      hide ProviderHosts;
    }
  }

  lemma ListedUnder(db: Db, id: int, o: Key)
    requires References(db) && o in Objects(db)
    ensures o in ServicesOf(db, id) <==> o.kind == Service && db.services[o.id] == id
    ensures o in ComponentsOf(db, id) <==> o.kind == Component && db.components[o.id].service == id
    ensures o in ClusterHosts(db, id) <==> o.kind == Host && id in db.hosts[o.id].cluster
    ensures o in ProviderHosts(db, id) <==> o.kind == Host && id in db.hosts[o.id].provider
  {
  }

  lemma ClusterUnder(db: Db, root: Key, o: Key)
    requires Consistent(db) && root in Objects(db) && o in Objects(db) && root.kind == Cluster
    ensures o in Subtree(db, root) <==> o == root || Under(db, root, o)
  {
    ListedUnder(db, root.id, o);
    ServiceComponents(db, root.id, o);
    hide ServicesOf, ComponentsOf, ClusterHosts;
  }

  lemma ServiceComponents(db: Db, cluster: int, o: Key)
    requires Consistent(db) && o in Objects(db)
    ensures o in (set s, c | s in ServicesOf(db, cluster) && c in ComponentsOf(db, s.id) :: c) <==>
            o.kind == Component && db.services[db.components[o.id].service] == cluster
  {
    if o.kind == Component {
      var s := Key(Service, db.components[o.id].service);
      assert s in ServicesOf(db, cluster) <==> db.services[s.id] == cluster;
      assert o in ComponentsOf(db, s.id);
    }
  }

  lemma MappedUnder(db: Db, root: Key, o: Key)
    requires Consistent(db) && root in Objects(db) && o in Objects(db)
    ensures root.kind == Service ==>
              (o in ServiceHosts(db, db.services[root.id], root.id) <==>
               o.kind == Host && exists hc :: hc in db.hcs && hc.host == o.id && hc.service == root.id)
    ensures root.kind == Component ==>
              (o in ComponentHosts(db, db.components[root.id], root.id) <==>
               o.kind == Host && exists hc :: hc in db.hcs && hc.host == o.id && hc.component == root.id)
  {
    assert forall hc :: hc in db.hcs ==>
        hc.cluster == db.services[hc.service] && hc.service == db.components[hc.component].service
        && hc.cluster == db.components[hc.component].cluster;
  }

  /** A child role is applied to the object itself, and to what is under it of a kind some child lists;
      under a cluster also to services on the way to components. */
  lemma CallsByRow(w: World, children: set<Child>, root: Key, call: Call)
    requires WorldValid(w) && root in Objects(w.db)
    ensures call in CallsOn(w, children, Visited(w.db, ParametrizedBy(children), root)) <==>
            && call.child in children
            && call.object_ in Objects(w.db)
            && (call.object_ == root
                || (Under(w.db, root, call.object_)
                    && ((exists c :: c in children && call.object_.kind in c.parametrizedBy)
                        || (root.kind == Cluster && call.object_.kind == Service
                            && exists c :: c in children && Component in c.parametrizedBy))))
            && match call.child.class_
               case ByKind => call.object_.kind in call.child.parametrizedBy
               case ByAction(p) => w.prototype[call.object_] == p
               case OtherClass => false
  {
    SubtreeOfObjects(w.db, root);
    var o, visited := call.object_, Visited(w.db, ParametrizedBy(children), root);
    if o in Objects(w.db) {
      SubtreeByRow(w.db, root, o);
    }
    assert call in CallsOn(w, children, visited) <==>
           call.child in children && o in visited && Matches(w, call.child, o);
    hide CallsOn, Subtree, Under, Objects, Consistent, References;
  }

  /** Made viewable is what is above a service or a component, and nothing for other objects. */
  lemma ViewedByRow(db: Db, o: Key, k: Key)
    requires Consistent(db) && o in Objects(db)
    ensures k in AlsoViewed(db, o) <==> (o.kind == Service || o.kind == Component) && Above(db, k, o)
  {
  }
}
