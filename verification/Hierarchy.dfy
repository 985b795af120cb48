/** The hierarchy tree: nodes linked both ways, built by walking up from an object to the virtual
    root and then down from the root.  `edges` records the links as (parent, child) pairs. */
module Hierarchy {
  import opened Common
  import opened Inventory

  type Edge = (Key, Key)

  // ---------- which links each walk makes ----------

  function UpEdges(db: Db, k: Key): set<Edge>
    requires References(db) && (k == ROOT || k in Objects(db))
    decreases Depth(k.kind)
  {
    var ps := ParentsOf(db, k);
    (set p | p in ps :: (p, k)) + (set p, e | p in ps && e in UpEdges(db, p) :: e)
  }

  /** Links of the walk up that has handled the parents `done` so far. */
  function UpEdgesVia(db: Db, k: Key, done: set<Key>): set<Edge>
    requires References(db) && forall p :: p in done ==> p == ROOT || p in Objects(db)
  {
    (set p | p in done :: (p, k)) + (set p, e | p in done && e in UpEdges(db, p) :: e)
  }

  function AncestorsVia(db: Db, done: set<Key>): set<Key>
    requires References(db) && forall p :: p in done ==> p == ROOT || p in Objects(db)
  {
    done + set p, a | p in done && a in Ancestors(db, p) :: a
  }

  function Height(kind: Kind): nat {
    match kind
    case Root => 5
    case Cluster => 4
    case Service => 3
    case Component => 2
    case Provider => 1
    case Host => 0
    case Adcm => 0
  }

  function DownEdges(db: Db, k: Key): set<Edge>
    requires References(db) && k in Objects(db)
    decreases Height(k.kind)
  {
    var cs := ChildrenOf(db, k);
    (set c | c in cs :: (k, c)) + (set c, e | c in cs && e in DownEdges(db, c) :: e)
  }

  function Descendants(db: Db, k: Key): (r: set<Key>)
    requires References(db) && k in Objects(db)
    ensures forall c :: c in r ==> c in Objects(db)
    decreases Height(k.kind)
  {
    ChildrenOf(db, k) + set c, d | c in ChildrenOf(db, k) && d in Descendants(db, c) :: d
  }

  function DownEdgesVia(db: Db, k: Key, done: set<Key>): set<Edge>
    requires References(db) && forall c :: c in done ==> c in Objects(db)
  {
    (set c | c in done :: (k, c)) + (set c, e | c in done && e in DownEdges(db, c) :: e)
  }

  function DescendantsVia(db: Db, done: set<Key>): set<Key>
    requires References(db) && forall c :: c in done ==> c in Objects(db)
  {
    done + set c, d | c in done && d in Descendants(db, c) :: d
  }

  lemma UpEdgesViaStep(db: Db, k: Key, done: set<Key>, p: Key)
    requires References(db) && forall q :: q in done + {p} ==> q == ROOT || q in Objects(db)
    ensures UpEdgesVia(db, k, done + {p}) == UpEdgesVia(db, k, done) + {(p, k)} + UpEdges(db, p)
  {
    hide References, Objects, ParentsOf, UpEdges;
  }

  lemma AncestorsViaStep(db: Db, done: set<Key>, p: Key)
    requires References(db) && forall q :: q in done + {p} ==> q == ROOT || q in Objects(db)
    ensures AncestorsVia(db, done + {p}) == AncestorsVia(db, done) + {p} + Ancestors(db, p)
  {
    hide References, Objects, ParentsOf, Ancestors;
  }

  lemma DownEdgesViaStep(db: Db, k: Key, done: set<Key>, c: Key)
    requires References(db) && forall q :: q in done + {c} ==> q in Objects(db)
    ensures DownEdgesVia(db, k, done + {c}) == DownEdgesVia(db, k, done) + {(k, c)} + DownEdges(db, c)
  {
    hide References, Objects, ChildrenOf, DownEdges;
  }

  lemma DescendantsViaStep(db: Db, done: set<Key>, c: Key)
    requires References(db) && forall q :: q in done + {c} ==> q in Objects(db)
    ensures DescendantsVia(db, done + {c}) == DescendantsVia(db, done) + {c} + Descendants(db, c)
  {
    hide References, Objects, ChildrenOf, Descendants;
  }

  lemma UpViaEnds(db: Db, k: Key)
    requires References(db) && (k == ROOT || k in Objects(db))
    ensures UpEdgesVia(db, k, {}) == {} && UpEdgesVia(db, k, ParentsOf(db, k)) == UpEdges(db, k)
    ensures AncestorsVia(db, {}) == {} && AncestorsVia(db, ParentsOf(db, k)) == Ancestors(db, k)
  {
  }

  lemma DownViaEnds(db: Db, k: Key)
    requires References(db) && k in Objects(db)
    ensures DownEdgesVia(db, k, {}) == {} && DownEdgesVia(db, k, ChildrenOf(db, k)) == DownEdges(db, k)
    ensures DescendantsVia(db, {}) == {} && DescendantsVia(db, ChildrenOf(db, k)) == Descendants(db, k)
  {
  }

  lemma NoneVisited(db: Db, k: Key)
    requires References(db)
    ensures DownEdgesVia(db, k, {}) == {} && DescendantsVia(db, {}) == {}
  {
  }

  // ---------- nodes ----------

  /** Nodes compare and hash by key, so a set of nodes is the set of their keys. */
  class Node {
    const key: Key
    var children: set<Key>
    var parents: set<Key>

    constructor (key: Key)
      ensures this.key == key && children == {} && parents == {}
    {
      this.key := key;
      children := {};
      parents := {};
    }

    /** False stands for the raised cycle error. */
    method AddChild(child: Node) returns (ok: bool)
      modifies this`children
      ensures ok <==> child.key !in parents && child.key != key
      ensures children == if ok then old(children) + {child.key} else old(children)
    {
      if child.key in parents || child.key == key {
        return false;
      }
      children := children + {child.key};
      ok := true;
    }

    method AddParent(parent: Node) returns (ok: bool)
      modifies this`parents
      ensures ok <==> parent.key !in children && parent.key != key
      ensures parents == if ok then old(parents) + {parent.key} else old(parents)
    {
      if parent.key in children || parent.key == key {
        return false;
      }
      parents := parents + {parent.key};
      ok := true;
    }
  }

  // ---------- the tree ----------

  predicate Ranked(edges: set<Edge>) {
    forall e :: e in edges ==> Depth(e.0.kind) < Depth(e.1.kind)
  }

  function Kids(edges: set<Edge>, k: Key): set<Key> {
    set e | e in edges && e.0 == k :: e.1
  }

  function Elders(edges: set<Edge>, k: Key): set<Key> {
    set e | e in edges && e.1 == k :: e.0
  }

  lemma NoLinks(k: Key)
    ensures Kids({}, k) == {} && Elders({}, k) == {}
  {
  }

  lemma OneMoreKid(edges: set<Edge>, p: Key, c: Key, k: Key)
    ensures Kids(edges + {(p, c)}, k) == Kids(edges, k) + (if k == p then {c} else {})
  {
  }

  lemma OneMoreElder(edges: set<Edge>, p: Key, c: Key, k: Key)
    ensures Elders(edges + {(p, c)}, k) == Elders(edges, k) + (if k == c then {p} else {})
  {
  }

  /** Links lead away from the root, so neither end already knows the other the wrong way round. */
  lemma GuardPasses(edges: set<Edge>, p: Key, c: Key)
    requires Ranked(edges) && Depth(p.kind) < Depth(c.kind)
    ensures p != c && p !in Kids(edges, c) && c !in Elders(edges, p)
  {
  }

  lemma RankedAdd(edges: set<Edge>, p: Key, c: Key)
    requires Ranked(edges) && Depth(p.kind) < Depth(c.kind)
    ensures Ranked(edges + {(p, c)})
  {
  }

  lemma ChildIsDeeper(db: Db, k: Key, c: Key)
    requires References(db) && k in Objects(db) && k.kind != Provider && c in ChildrenOf(db, k)
    ensures c in Objects(db) && c.kind != Provider && c != ROOT
    ensures Depth(k.kind) < Depth(c.kind) && Height(c.kind) < Height(k.kind)
  {
  }

  lemma ClusterBelowRoot(c: Key)
    requires c.kind == Cluster
    ensures c != ROOT && Depth(Root) < Depth(c.kind) && Height(c.kind) < Height(Root)
  {
  }

  class Tree {
    const db: Db
    var nodes: map<Key, Node>
    ghost var edges: set<Edge>
    ghost var repr: set<Node>

    /** One node per key; the links on both sides are exactly the recorded pairs, and every pair
        leads away from the root. */
    ghost predicate Valid()
      reads this, repr
    {
      && References(db)
      && ROOT in nodes
      && (forall k :: k in nodes ==> k == ROOT || k in Objects(db))
      && (forall k :: k in nodes ==> nodes[k] in repr && nodes[k].key == k)
      && (forall n :: n in repr ==> n.key in nodes && nodes[n.key] == n)
      && (forall k :: k in nodes ==> nodes[k].children == Kids(edges, k) && nodes[k].parents == Elders(edges, k))
      && Ranked(edges)
      && (forall e :: e in edges ==> e.0 in nodes && e.1 in nodes)
    }

    method MakeNode(k: Key) returns (node: Node)
      requires Valid() && (k == ROOT || k in Objects(db))
      modifies this`nodes, this`repr
      ensures Valid() && nodes.Keys == old(nodes.Keys) + {k} && node in repr && node.key == k
      ensures repr >= old(repr) && fresh(repr - old(repr))
    {
      if k in nodes {
        return nodes[k];
      }
      node := new Node(k);
      nodes := nodes[k := node];
      repr := repr + {node};
    }

    /** Links a parent and a child both ways; the cycle error is never raised. */
    method Link(parent: Node, child: Node) returns (ok: bool)
      requires Valid() && parent in repr && child in repr
      requires Depth(parent.key.kind) < Depth(child.key.kind)
      modifies this`edges, repr
      ensures ok && Valid()
      ensures edges == old(edges) + {(parent.key, child.key)}
    {
      hide References, Objects, Kids, Elders, Ranked, Depth;
      ghost var before := edges;
      GuardPasses(edges, parent.key, child.key);
      RankedAdd(edges, parent.key, child.key);
      var ok1 := child.AddParent(parent);
      var ok2 := parent.AddChild(child);
      edges := edges + {(parent.key, child.key)};
      ok := ok1 && ok2;
      forall k | k in nodes
        ensures nodes[k].children == Kids(edges, k) && nodes[k].parents == Elders(edges, k)
      {
        OneMoreKid(before, parent.key, child.key, k);
        OneMoreElder(before, parent.key, child.key, k);
        assert nodes[k].key == k;
        assert nodes[k] == parent <==> k == parent.key;
        assert nodes[k] == child <==> k == child.key;
      }
    }

    method LinkUp(node: Node, value: Key) returns (parent: Node, ok: bool)
      requires Valid() && node in repr
      requires References(db)
      requires value == ROOT || value in Objects(db)
      requires Depth(value.kind) < Depth(node.key.kind)
      modifies this`nodes, this`edges, this`repr, repr
      ensures ok && Valid() && repr >= old(repr) && fresh(repr - old(repr))
      ensures nodes.Keys == old(nodes.Keys) + {value} && parent in repr && parent.key == value
      ensures edges == old(edges) + {(value, node.key)}
    {
      hide Tree.Valid;
      hide References, Objects;
      parent := MakeNode(value);
      ok := Link(parent, node);
    }

    method VisitParent(node: Node, value: Key) returns (ok: bool)
      requires Valid() && node in repr
      requires References(db)
      requires (value == ROOT || value in Objects(db)) && Depth(value.kind) < Depth(node.key.kind)
      modifies this`nodes, this`edges, this`repr, repr
      ensures ok && Valid() && repr >= old(repr) && fresh(repr - old(repr))
      ensures nodes.Keys == old(nodes.Keys) + {value} + Ancestors(db, value)
      ensures edges == old(edges) + {(value, node.key)} + UpEdges(db, value)
      decreases Depth(node.key.kind), 0
    {
      hide Tree.Valid;
      hide References, Objects, Ranked, Kids, Elders, UpEdges, Ancestors;
      var parent, linked := LinkUp(node, value);
      var built := BuildTreeUp(parent);
      ok := linked && built;
    }

    /** From an object to the root; the parents of a node are walked in any order. */
    method BuildTreeUp(node: Node) returns (ok: bool)
      requires Valid() && node in repr
      requires References(db) && (node.key == ROOT || node.key in Objects(db))
      modifies this`nodes, this`edges, this`repr, repr
      ensures ok && Valid() && repr >= old(repr) && fresh(repr - old(repr))
      ensures nodes.Keys == old(nodes.Keys) + Ancestors(db, node.key)
      ensures edges == old(edges) + UpEdges(db, node.key)
      decreases Depth(node.key.kind), 1
    {
      hide Tree.Valid;
      hide References, Objects, ParentsOf, UpEdgesVia, AncestorsVia, UpEdges, Ancestors, Ranked, Kids, Elders, Depth;
      var todo := ParentsOf(db, node.key);
      ghost var done: set<Key> := {};
      UpViaEnds(db, node.key);
      ok := true;
      while todo != {}
        invariant ok && Valid() && repr >= old(repr) && fresh(repr - old(repr))
        invariant todo + done == ParentsOf(db, node.key)
        invariant nodes.Keys == old(nodes.Keys) + AncestorsVia(db, done)
        invariant edges == old(edges) + UpEdgesVia(db, node.key, done)
      {
        var value := PickOne(todo);
        var visited := VisitParent(node, value);
        ok := ok && visited;
        UpEdgesViaStep(db, node.key, done, value);
        AncestorsViaStep(db, done, value);
        done := done + {value};
        todo := todo - {value};
      }
    }

    method LinkDown(node: Node, value: Key) returns (child: Node, ok: bool)
      requires Valid() && node in repr
      requires References(db)
      requires value in Objects(db)
      requires Depth(node.key.kind) < Depth(value.kind)
      modifies this`nodes, this`edges, this`repr, repr
      ensures ok && Valid() && repr >= old(repr) && fresh(repr - old(repr))
      ensures nodes.Keys == old(nodes.Keys) + {value} && child in repr && child.key == value
      ensures edges == old(edges) + {(node.key, value)}
    {
      hide Tree.Valid;
      hide References, Objects;
      child := MakeNode(value);
      ok := Link(node, child);
    }

    method VisitChild(node: Node, value: Key) returns (ok: bool)
      requires Valid() && node in repr
      requires References(db)
      requires value in Objects(db) && Depth(node.key.kind) < Depth(value.kind) && value.kind != Provider
      requires Height(value.kind) < Height(node.key.kind)
      modifies this`nodes, this`edges, this`repr, repr
      ensures ok && Valid() && repr >= old(repr) && fresh(repr - old(repr))
      ensures nodes.Keys == old(nodes.Keys) + {value} + Descendants(db, value)
      ensures edges == old(edges) + {(node.key, value)} + DownEdges(db, value)
      decreases Height(node.key.kind), 0
    {
      hide Tree.Valid;
      hide References, Ranked, Kids, Elders, DownEdgesVia, DescendantsVia, DownEdges, Descendants, ChildrenOf;
      var child, linked := LinkDown(node, value);
      DownViaEnds(db, value);
      var built := BuildTreeDown(child, ChildrenOf(db, value));
      ok := linked && built;
    }

    /** From a node down to `below`: the links the root already has, a query for everything else.  It is
        never called on a provider: nothing below the root has one as child. */
    method BuildTreeDown(node: Node, ghost below: set<Key>) returns (ok: bool)
      requires Valid() && node in repr
      requires References(db) && (node.key == ROOT || node.key in Objects(db))
      requires node.key.kind != Provider
      requires below == if node.key == ROOT then node.children else ChildrenOf(db, node.key)
      requires node.key == ROOT ==> forall c :: c in below ==> c in Objects(db) && c.kind == Cluster
      modifies this`nodes, this`edges, this`repr, repr
      ensures ok && Valid() && repr >= old(repr) && fresh(repr - old(repr))
      ensures nodes.Keys == old(nodes.Keys) + DescendantsVia(db, below)
      ensures edges == old(edges) + DownEdgesVia(db, node.key, below)
      decreases Height(node.key.kind), 1
    {
      hide Tree.Valid;
      hide References, Objects, ChildrenOf, DownEdgesVia, DescendantsVia, DownEdges, Descendants, Ranked, Kids, Elders;
      hide Depth, Height;
      var todo := if node.key == ROOT then node.children else ChildrenOf(db, node.key);
      ghost var done: set<Key> := {};
      NoneVisited(db, node.key);
      ok := true;
      while todo != {}
        invariant ok && Valid() && repr >= old(repr) && fresh(repr - old(repr))
        invariant todo + done == below
        invariant nodes.Keys == old(nodes.Keys) + DescendantsVia(db, done)
        invariant edges == old(edges) + DownEdgesVia(db, node.key, done)
      {
        var value := PickOne(todo);
        if node.key == ROOT {
          ClusterBelowRoot(value);
        } else {
          ChildIsDeeper(db, node.key, value);
        }
        var visited := VisitChild(node, value);
        ok := ok && visited;
        DownEdgesViaStep(db, node.key, done, value);
        DescendantsViaStep(db, done, value);
        done := done + {value};
        todo := todo - {value};
      }
    }

    constructor (db: Db)
      requires References(db)
      ensures Valid() && this.db == db && fresh(repr)
      ensures nodes.Keys == {ROOT} && edges == {}
    {
      this.db := db;
      var r := new Node(ROOT);
      nodes := map[ROOT := r];
      edges := {};
      repr := {r};
      new;
      hide References, Objects, Kids, Elders, Depth;
      NoLinks(ROOT);
    }

    lemma RootLinks()
      requires Valid()
      ensures ROOT in nodes && nodes[ROOT] in repr && nodes[ROOT].key == ROOT
      ensures nodes[ROOT].children == Kids(edges, ROOT)
    {
    }

    /** The whole construction: up from the object, then down from the root.  The cycle error is never
        raised. */
    method Build(obj: Key) returns (ok: bool)
      requires Valid() && References(db) && obj in Objects(db) && nodes.Keys == {ROOT} && edges == {}
      modifies this`nodes, this`edges, this`repr, repr
      ensures ok && Valid() && repr >= old(repr) && fresh(repr - old(repr))
      ensures obj in nodes && edges == TreeEdges(db, obj)
    {
      hide References, Objects, Ranked, Elders, Kids, UpEdges, DownEdgesVia, DescendantsVia, Ancestors;
      hide Depth, Height, Tree.Valid;
      var builtFrom := MakeNode(obj);
      var up := BuildTreeUp(builtFrom);
      RootKidsAreClusters(db, obj);
      assert edges == UpEdges(db, obj);
      RootLinks();
      var down := BuildTreeDown(nodes[ROOT], Kids(edges, ROOT));
      ok := up && down;
    }

    /** Own parents and all their ancestors. */
    method GetParents(k: Key) returns (result: set<Key>)
      requires Valid() && k in nodes
      ensures result == EdgeAncestors(edges, k)
      decreases Depth(k.kind)
    {
      hide References, Objects, Elders, EdgeAncestors, EdgeAncestorsVia;
      result := nodes[k].parents;
      var todo := nodes[k].parents;
      ghost var done: set<Key> := {};
      EdgeAncestorsEnds(edges, k);
      while todo != {}
        invariant todo + done == Elders(edges, k)
        invariant result == Elders(edges, k) + EdgeAncestorsVia(edges, done)
      {
        var parent := PickOne(todo);
        ElderIsLinked(edges, parent, k);
        var above := GetParents(parent);
        EdgeAncestorsStep(edges, done, parent);
        result := result + above;
        done := done + {parent};
        todo := todo - {parent};
      }
      assert done == Elders(edges, k);
    }

    /** Own children and all their descendants. */
    method GetChildren(k: Key) returns (result: set<Key>)
      requires Valid() && k in nodes
      ensures result == EdgeDescendants(edges, k)
      decreases MAX_DEPTH - Depth(k.kind)
    {
      hide References, Objects, Kids, EdgeDescendants, EdgeDescendantsVia;
      result := nodes[k].children;
      var todo := nodes[k].children;
      ghost var done: set<Key> := {};
      EdgeDescendantsEnds(edges, k);
      while todo != {}
        invariant todo + done == Kids(edges, k)
        invariant result == Kids(edges, k) + EdgeDescendantsVia(edges, done)
      {
        var child := PickOne(todo);
        KidIsLinked(edges, k, child);
        var below := GetChildren(child);
        EdgeDescendantsStep(edges, done, child);
        result := result + below;
        done := done + {child};
        todo := todo - {child};
      }
      assert done == Kids(edges, k);
    }

    method GetDirectlyAffected(k: Key) returns (result: set<Key>)
      requires Valid() && k in nodes
      ensures result == DirectlyAffected(edges, k)
    {
      result := {k};
      var parents := GetParents(k);
      result := result + parents;
      var children := GetChildren(k);
      result := result + children;
      result := result - {ROOT};
    }
  }

  /** `Tree(obj)`. */
  method MakeTree(db: Db, obj: Key) returns (tree: Tree)
    requires References(db) && obj in Objects(db)
    ensures fresh(tree) && fresh(tree.repr) && tree.Valid() && tree.db == db
    ensures obj in tree.nodes && tree.edges == TreeEdges(db, obj)
  {
    hide References, Objects, TreeEdges, Tree.Valid;
    tree := new Tree(db);
    var ok := tree.Build(obj);
    assert ok;
  }

  // ---------- what the finished tree holds ----------

  function TreeEdges(db: Db, obj: Key): set<Edge>
    requires References(db) && obj in Objects(db)
  {
    RootKidsAreClusters(db, obj);
    UpEdges(db, obj) + DownEdgesVia(db, ROOT, Kids(UpEdges(db, obj), ROOT))
  }

  lemma {:induction false} UpEdgesMeaning(db: Db, k: Key, e: Edge)
    requires References(db) && (k == ROOT || k in Objects(db))
    ensures e in UpEdges(db, k) ==> (e.1 == k || e.1 in Ancestors(db, k)) && e.0 in ParentsOf(db, e.1)
    ensures (e.1 == k || e.1 in Ancestors(db, k)) && e.0 in ParentsOf(db, e.1) ==> e in UpEdges(db, k)
    decreases Depth(k.kind)
  {
    hide References, Objects, ParentsOf;
    forall p | p in ParentsOf(db, k)
      ensures e in UpEdges(db, p) <==> (e.1 == p || e.1 in Ancestors(db, p)) && e.0 in ParentsOf(db, e.1)
    {
      UpEdgesMeaning(db, p, e);
    }
  }

  lemma RootKidsAreClusters(db: Db, obj: Key)
    requires References(db) && obj in Objects(db)
    ensures forall c :: c in Kids(UpEdges(db, obj), ROOT) ==> c in Objects(db) && c.kind == Cluster
  {
    forall c | c in Kids(UpEdges(db, obj), ROOT)
      ensures c in Objects(db) && c.kind == Cluster
    {
      UpEdgesMeaning(db, obj, (ROOT, c));
    }
  }

  const MAX_DEPTH := 6

  function EdgeAncestors(edges: set<Edge>, k: Key): set<Key>
    requires Ranked(edges)
    decreases Depth(k.kind)
  {
    Elders(edges, k) + set p, a | p in Elders(edges, k) && a in EdgeAncestors(edges, p) :: a
  }

  function EdgeDescendants(edges: set<Edge>, k: Key): set<Key>
    requires Ranked(edges)
    decreases MAX_DEPTH - Depth(k.kind)
  {
    Kids(edges, k) + set c, d | c in Kids(edges, k) && d in EdgeDescendants(edges, c) :: d
  }

  function EdgeAncestorsVia(edges: set<Edge>, done: set<Key>): set<Key>
    requires Ranked(edges)
  {
    set p, a | p in done && a in EdgeAncestors(edges, p) :: a
  }

  function EdgeDescendantsVia(edges: set<Edge>, done: set<Key>): set<Key>
    requires Ranked(edges)
  {
    set c, d | c in done && d in EdgeDescendants(edges, c) :: d
  }

  lemma EdgeAncestorsEnds(edges: set<Edge>, k: Key)
    requires Ranked(edges)
    ensures EdgeAncestorsVia(edges, {}) == {}
    ensures EdgeAncestors(edges, k) == Elders(edges, k) + EdgeAncestorsVia(edges, Elders(edges, k))
  {
  }

  lemma EdgeAncestorsStep(edges: set<Edge>, done: set<Key>, p: Key)
    requires Ranked(edges)
    ensures EdgeAncestorsVia(edges, done + {p}) == EdgeAncestorsVia(edges, done) + EdgeAncestors(edges, p)
  {
  }

  lemma EdgeDescendantsEnds(edges: set<Edge>, k: Key)
    requires Ranked(edges)
    ensures EdgeDescendantsVia(edges, {}) == {}
    ensures EdgeDescendants(edges, k) == Kids(edges, k) + EdgeDescendantsVia(edges, Kids(edges, k))
  {
  }

  lemma EdgeDescendantsStep(edges: set<Edge>, done: set<Key>, c: Key)
    requires Ranked(edges)
    ensures EdgeDescendantsVia(edges, done + {c}) == EdgeDescendantsVia(edges, done) + EdgeDescendants(edges, c)
  {
  }

  lemma ElderIsLinked(edges: set<Edge>, p: Key, k: Key)
    requires Ranked(edges) && p in Elders(edges, k)
    ensures (p, k) in edges && Depth(p.kind) < Depth(k.kind)
  {
  }

  lemma KidIsLinked(edges: set<Edge>, k: Key, c: Key)
    requires Ranked(edges) && c in Kids(edges, k)
    ensures (k, c) in edges && Depth(k.kind) < Depth(c.kind)
  {
  }

  function DirectlyAffected(edges: set<Edge>, k: Key): set<Key>
    requires Ranked(edges)
  {
    {k} + EdgeAncestors(edges, k) + EdgeDescendants(edges, k) - {ROOT}
  }
}
