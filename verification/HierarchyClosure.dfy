/** The affected set computed on the finished tree is the closure over the stored relation. */
module HierarchyClosure {
  import opened Inventory
  import opened Hierarchy

  predicate Plain(k: Key) {
    k.kind != Provider
  }

  lemma {:induction false} DownEdgesMeaning(db: Db, k: Key, e: Edge)
    requires References(db) && k in Objects(db) && Plain(k)
    ensures e in DownEdges(db, k) <==>
            (e.0 == k || e.0 in Descendants(db, k)) && e.0 in Objects(db) && e.1 in ChildrenOf(db, e.0)
    decreases Height(k.kind)
  {
    hide References, Objects, ChildrenOf;
    forall c | c in ChildrenOf(db, k)
      ensures e in DownEdges(db, c) <==>
              (e.0 == c || e.0 in Descendants(db, c)) && e.0 in Objects(db) && e.1 in ChildrenOf(db, e.0)
    {
      DownEdgesMeaning(db, c, e);
    }
  }

  // ---------- descendants are the converse of ancestors ----------

  lemma {:induction false} DescendantHasAncestor(db: Db, k: Key, q: Key)
    requires Consistent(db) && k in Objects(db) && Plain(k) && q in Descendants(db, k)
    ensures q in Objects(db) && Plain(q) && k in Ancestors(db, q)
    decreases Height(k.kind)
  {
    hide References, Objects, ChildrenOf, ParentsOf;
    if q in ChildrenOf(db, k) {
      QueriesInverse(db, k, q);
    } else {
      var c :| c in ChildrenOf(db, k) && q in Descendants(db, c);
      DescendantHasAncestor(db, c, q);
      QueriesInverse(db, k, c);
      AncestorsTransitive(db, k, c, q);
    }
  }

  lemma {:induction false} DescendantsExtend(db: Db, k: Key, p: Key, q: Key)
    requires References(db) && k in Objects(db) && Plain(k)
    requires p in Descendants(db, k) && p in Objects(db) && q in ChildrenOf(db, p)
    ensures q in Descendants(db, k)
    decreases Height(k.kind)
  {
    hide References, Objects, ChildrenOf;
    if p in ChildrenOf(db, k) {
      assert q in Descendants(db, p);
    } else {
      var c :| c in ChildrenOf(db, k) && p in Descendants(db, c);
      DescendantsExtend(db, c, p, q);
    }
  }

  lemma ParentOfPlain(db: Db, k: Key, p: Key, q: Key)
    requires References(db) && q in Objects(db) && Plain(q) && p in ParentsOf(db, q) && k in Ancestors(db, p)
    ensures p in Objects(db) && Plain(p)
  {
    assert ParentsOf(db, ROOT) == {};
  }

  lemma {:induction false} AncestorHasDescendant(db: Db, k: Key, q: Key)
    requires Consistent(db) && k in Objects(db) && q in Objects(db) && Plain(k) && Plain(q)
    requires k in Ancestors(db, q)
    ensures q in Descendants(db, k)
    decreases Depth(q.kind)
  {
    hide References, Objects, ChildrenOf, ParentsOf;
    if k in ParentsOf(db, q) {
      QueriesInverse(db, k, q);
    } else {
      var p :| p in ParentsOf(db, q) && k in Ancestors(db, p);
      ParentOfPlain(db, k, p, q);
      AncestorHasDescendant(db, k, p);
      QueriesInverse(db, p, q);
      DescendantsExtend(db, k, p, q);
    }
  }

  // ---------- the links of the finished tree ----------

  ghost predicate BelowCluster(db: Db, obj: Key, p: Key)
    requires References(db) && obj in Objects(db)
  {
    exists c :: c in Objects(db) && c.kind == Cluster && (ROOT, c) in UpEdges(db, obj) &&
                (p == c || p in Descendants(db, c))
  }

  lemma TreeEdgesMeaning(db: Db, obj: Key, p: Key, q: Key)
    requires References(db) && obj in Objects(db)
    ensures (p, q) in TreeEdges(db, obj) <==>
            || ((q == obj || q in Ancestors(db, obj)) && p in ParentsOf(db, q))
            || (p in Objects(db) && BelowCluster(db, obj, p) && q in ChildrenOf(db, p))
  {
    hide References, Objects, ChildrenOf, ParentsOf, Ancestors, Descendants, UpEdges, DownEdges;
    RootKidsAreClusters(db, obj);
    UpEdgesMeaning(db, obj, (p, q));
    var up := UpEdges(db, obj);
    forall c | c in Kids(up, ROOT)
      ensures (ROOT, c) in up
      ensures (p, q) in DownEdges(db, c) <==>
              (p == c || p in Descendants(db, c)) && p in Objects(db) && q in ChildrenOf(db, p)
    {
      DownEdgesMeaning(db, c, (p, q));
    }
    assert forall c :: (ROOT, c) in up ==> c in Kids(up, ROOT);
  }

  /** Every link is a parent the database knows. */
  lemma TreeLinkIsParent(db: Db, obj: Key, p: Key, q: Key)
    requires Consistent(db) && obj in Objects(db) && (p, q) in TreeEdges(db, obj)
    ensures (q == ROOT || q in Objects(db)) && p in ParentsOf(db, q)
    ensures Plain(obj) ==> Plain(q)
  {
    TreeEdgesMeaning(db, obj, p, q);
    if (q == obj || q in Ancestors(db, obj)) && p in ParentsOf(db, q) {
      if q in Ancestors(db, obj) && !Plain(q) {
        ProviderIsNoAncestor(db, q, obj);
      }
    } else {
      var c :| c in Objects(db) && c.kind == Cluster && (ROOT, c) in UpEdges(db, obj)
        && (p == c || p in Descendants(db, c));
      if p != c {
        DescendantHasAncestor(db, c, p);
      }
      QueriesInverse(db, p, q);
    }
  }

  /** An object that hangs on a cluster lies below a cluster link of its own tree. */
  lemma {:induction false} OnItsCluster(db: Db, obj: Key)
    requires Consistent(db) && obj in Objects(db) && obj.kind in {Cluster, Service, Component}
    ensures BelowCluster(db, obj, obj)
  {
    var c: Key;
    if obj.kind == Cluster {
      c := obj;
    } else if obj.kind == Service {
      c := Key(Cluster, db.services[obj.id]);
      assert c in ParentsOf(db, obj);
    } else {
      var s := Key(Service, db.components[obj.id].service);
      c := Key(Cluster, db.services[s.id]);
      assert s in ParentsOf(db, obj) && c in ParentsOf(db, s) && c in Ancestors(db, s);
    }
    assert c == obj || c in Ancestors(db, obj);
    UpEdgesMeaning(db, obj, (ROOT, c));
    if c != obj {
      AncestorHasDescendant(db, c, obj);
    }
  }

  // ---------- closures ----------

  lemma {:induction false} ClosureUp(db: Db, edges: set<Edge>, k: Key)
    requires References(db) && Ranked(edges) && (k == ROOT || k in Objects(db))
    requires forall q :: q == k || q in Ancestors(db, k) ==> Elders(edges, q) == ParentsOf(db, q)
    ensures EdgeAncestors(edges, k) == Ancestors(db, k)
    decreases Depth(k.kind)
  {
    hide References, Objects, ParentsOf, Elders, Ranked;
    forall p | p in ParentsOf(db, k)
      ensures EdgeAncestors(edges, p) == Ancestors(db, p)
    {
      ClosureUp(db, edges, p);
    }
  }

  lemma {:induction false} ClosureDown(db: Db, edges: set<Edge>, k: Key)
    requires References(db) && Ranked(edges) && k in Objects(db) && Plain(k)
    requires forall q :: q == k || q in Descendants(db, k) ==> q in Objects(db) && Kids(edges, q) == ChildrenOf(db, q)
    ensures EdgeDescendants(edges, k) == Descendants(db, k)
    decreases Height(k.kind)
  {
    hide References, Objects, ChildrenOf, Kids, Ranked;
    forall c | c in ChildrenOf(db, k)
      ensures EdgeDescendants(edges, c) == Descendants(db, c)
    {
      ClosureDown(db, edges, c);
    }
  }

  lemma TreeRanked(db: Db, obj: Key)
    requires Consistent(db) && obj in Objects(db)
    ensures Ranked(TreeEdges(db, obj))
  {
    forall e | e in TreeEdges(db, obj) ensures Depth(e.0.kind) < Depth(e.1.kind) {
      TreeLinkIsParent(db, obj, e.0, e.1);
    }
  }

  lemma TreeElders(db: Db, obj: Key, q: Key)
    requires Consistent(db) && obj in Objects(db) && (q == obj || q in Ancestors(db, obj))
    ensures Elders(TreeEdges(db, obj), q) == ParentsOf(db, q)
  {
    hide References, Objects, ParentsOf, Ancestors, TreeEdges, BelowCluster;
    forall p
      ensures (p, q) in TreeEdges(db, obj) <==> p in ParentsOf(db, q)
    {
      TreeEdgesMeaning(db, obj, p, q);
      if (p, q) in TreeEdges(db, obj) {
        TreeLinkIsParent(db, obj, p, q);
      }
    }
    EldersExact(TreeEdges(db, obj), q, ParentsOf(db, q));
  }

  lemma EldersExact(edges: set<Edge>, q: Key, ps: set<Key>)
    requires forall p :: (p, q) in edges <==> p in ps
    ensures Elders(edges, q) == ps
  {
  }

  lemma KidsExact(edges: set<Edge>, p: Key, cs: set<Key>)
    requires forall c :: (p, c) in edges <==> c in cs
    ensures Kids(edges, p) == cs
  {
  }

  lemma TreeKids(db: Db, obj: Key, p: Key)
    requires Consistent(db) && obj in Objects(db) && Plain(obj) && (p == obj || p in Descendants(db, obj))
    ensures p in Objects(db) && Kids(TreeEdges(db, obj), p) == ChildrenOf(db, p)
  {
    hide ParentsOf, Ancestors, TreeEdges, ChildrenOf;
    if p != obj {
      DescendantHasAncestor(db, obj, p);
    }
    forall q
      ensures (p, q) in TreeEdges(db, obj) <==> q in ChildrenOf(db, p)
    {
      TreeEdgesMeaning(db, obj, p, q);
      if (p, q) in TreeEdges(db, obj) {
        TreeLinkIsParent(db, obj, p, q);
        QueriesInverse(db, p, q);
      } else if q in ChildrenOf(db, p) {
        ParentsWithChildrenAreCovered(db, obj, p, q);
      }
    }
    KidsExact(TreeEdges(db, obj), p, ChildrenOf(db, p));
  }

  lemma ParentsWithChildrenAreCovered(db: Db, obj: Key, p: Key, q: Key)
    requires Consistent(db) && obj in Objects(db) && Plain(obj) && (p == obj || p in Descendants(db, obj))
    requires p in Objects(db) && q in ChildrenOf(db, p)
    ensures BelowCluster(db, obj, p)
  {
    if p != obj {
      DescendantHasAncestor(db, obj, p);
    }
    assert obj.kind in {Cluster, Service, Component};
    OnItsCluster(db, obj);
    var c :| c in Objects(db) && c.kind == Cluster && (ROOT, c) in UpEdges(db, obj) &&
             (obj == c || obj in Descendants(db, c));
    if p != obj && obj != c {
      DescendantHasAncestor(db, c, obj);
      AncestorsTransitive(db, c, obj, p);
      AncestorHasDescendant(db, c, p);
    }
  }

  lemma TreeClosureUp(db: Db, obj: Key)
    requires Consistent(db) && obj in Objects(db)
    ensures Ranked(TreeEdges(db, obj))
    ensures EdgeAncestors(TreeEdges(db, obj), obj) == Ancestors(db, obj)
  {
    hide ParentsOf, ChildrenOf, TreeEdges, Ranked, Objects, References;
    TreeRanked(db, obj);
    forall q | q == obj || q in Ancestors(db, obj)
      ensures Elders(TreeEdges(db, obj), q) == ParentsOf(db, q)
    {
      TreeElders(db, obj, q);
    }
    ClosureUp(db, TreeEdges(db, obj), obj);
  }

  lemma TreeClosureDown(db: Db, obj: Key)
    requires Consistent(db) && obj in Objects(db) && Plain(obj)
    ensures Ranked(TreeEdges(db, obj))
    ensures EdgeDescendants(TreeEdges(db, obj), obj) == Descendants(db, obj)
  {
    hide ParentsOf, ChildrenOf, TreeEdges, Ranked, Objects, References;
    TreeRanked(db, obj);
    forall q | q == obj || q in Descendants(db, obj)
      ensures q in Objects(db) && Kids(TreeEdges(db, obj), q) == ChildrenOf(db, q)
    {
      TreeKids(db, obj, q);
    }
    ClosureDown(db, TreeEdges(db, obj), obj);
  }

  lemma DescendantsAreConverse(db: Db, k: Key)
    requires Consistent(db) && k in Objects(db) && Plain(k)
    ensures Descendants(db, k) == set q | q in Objects(db) && Plain(q) && k in Ancestors(db, q)
  {
    hide ParentsOf, ChildrenOf, Objects, References, Descendants, Ancestors;
    forall q
      ensures q in Descendants(db, k) <==> q in Objects(db) && Plain(q) && k in Ancestors(db, q)
    {
      if q in Descendants(db, k) {
        DescendantHasAncestor(db, k, q);
      } else if q in Objects(db) && Plain(q) && k in Ancestors(db, q) {
        AncestorHasDescendant(db, k, q);
      }
    }
  }

  /** The set the tree reports for the object it was built from is exactly the relational one. */
  lemma TreeAffectedIsClosure(db: Db, obj: Key)
    requires Consistent(db) && obj in Objects(db)
    ensures Ranked(TreeEdges(db, obj))
    ensures DirectlyAffected(TreeEdges(db, obj), obj) == Affected(db, obj)
  {
    hide ParentsOf, ChildrenOf, TreeEdges, Ranked, Objects, References, Descendants, Ancestors, EdgeAncestors,
         EdgeDescendants;
    TreeClosureUp(db, obj);
    RootIsNoObject(db);
    if Plain(obj) {
      TreeClosureDown(db, obj);
      DescendantsAreConverse(db, obj);
    } else {
      NothingBelowProvider(db, obj);
    }
  }

  lemma RootIsNoObject(db: Db)
    ensures ROOT !in Objects(db)
  {
  }

  lemma NothingBelowProvider(db: Db, obj: Key)
    requires Consistent(db) && obj in Objects(db) && obj.kind == Provider && Ranked(TreeEdges(db, obj))
    ensures EdgeDescendants(TreeEdges(db, obj), obj) == {}
    ensures forall q :: q in Objects(db) ==> obj !in Ancestors(db, q)
  {
    forall q | (obj, q) in TreeEdges(db, obj) ensures false {
      TreeLinkIsParent(db, obj, obj, q);
    }
    forall q | q in Objects(db) ensures obj !in Ancestors(db, q) {
      ProviderIsNoAncestor(db, obj, q);
    }
    KidsExact(TreeEdges(db, obj), obj, {});
  }
}
