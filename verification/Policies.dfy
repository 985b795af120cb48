/** Object permissions of policies: rows granted to groups, shared between the policies that link
    them. */
module Policies {
  import opened Common

  /** A row is named by its unique constraint; the content type is an ordinary column. */
  datatype RowKey = RowKey(group: int, permission: int, objectPk: int)

  type Link = (int, RowKey)   // policy, row

  datatype Store = Store(rows: map<RowKey, int>, links: set<Link>)

  datatype Policy = Policy(id: int, groups: set<int>)

  /** One call of `assign_group_perm` a role makes. */
  datatype Grant = Grant(permission: int, objectPk: int, contentType: int)

  /** `keep_objects`: content type of a model to ids of its objects. */
  type KeepObjects = map<int, set<int>>

  // ---------- meaning ----------

  function LinkedBy(links: set<Link>, policy: int): set<RowKey> {
    set l | l in links && l.0 == policy :: l.1
  }

  function LinkedByOthers(links: set<Link>, policy: int): set<RowKey> {
    set l | l in links && l.0 != policy :: l.1
  }

  /** Links lead to rows, and no row is without a link. */
  ghost predicate Valid(s: Store) {
    && (forall l :: l in s.links ==> l.1 in s.rows)
    && (forall k :: k in s.rows ==> exists p :: (p, k) in s.links)
  }

  predicate KeptByObjects(permissionType: map<int, int>, s: Store, policy: Policy, keep: KeepObjects, k: RowKey) {
    exists model ::
      && model in keep
      && k.objectPk in keep[model]
      && k in s.rows && s.rows[k] == model
      && k.group in policy.groups
      && k.permission in permissionType && permissionType[k.permission] == model
  }

  function RowsToDelete(permissionType: map<int, int>, s: Store, policy: Policy, keep: KeepObjects): set<RowKey> {
    set k | k in LinkedBy(s.links, policy.id) && k !in LinkedByOthers(s.links, policy.id)
            && !KeptByObjects(permissionType, s, policy, keep, k)
  }

  function Removed(permissionType: map<int, int>, s: Store, policy: Policy, keep: KeepObjects): Store {
    var gone := RowsToDelete(permissionType, s, policy, keep);
    Store(s.rows - gone, set l | l in s.links && l.1 !in gone)
  }

  /** The rows one grant asks for: one per group. */
  function KeysFor(policy: Policy, g: Grant): set<RowKey> {
    set group | group in policy.groups :: RowKey(group, g.permission, g.objectPk)
  }

  function LinksTo(policy: int, keys: set<RowKey>): set<Link> {
    set k | k in keys :: (policy, k)
  }

  function Assigned(s: Store, policy: Policy, g: Grant): Store {
    Store(s.rows + map k | k in KeysFor(policy, g) :: g.contentType,
          s.links + LinksTo(policy.id, KeysFor(policy, g)))
  }

  function AllAssigned(s: Store, policy: Policy, grants: seq<Grant>): Store {
    if grants == [] then s
    else Assigned(AllAssigned(s, policy, grants[..|grants| - 1]), policy, grants[|grants| - 1])
  }

  function Applied(permissionType: map<int, int>, s: Store, policy: Policy, grants: seq<Grant>,
      keep: KeepObjects): Store
  {
    AllAssigned(Removed(permissionType, s, policy, keep), policy, grants)
  }

  function Deleted(permissionType: map<int, int>, s: Store, policy: Policy): Store {
    var t := Removed(permissionType, s, policy, map[]);
    t.(links := set l | l in t.links && l.0 != policy.id)
  }

  // ---------- the tables ----------

  class PermissionTables {
    const permissionType: map<int, int>   // permission -> its content type
    var rows: map<RowKey, int>
    var links: set<Link>

    function View(): Store
      reads this
    {
      Store(rows, links)
    }

    constructor (permissionType: map<int, int>)
      ensures View() == Store(map[], {}) && this.permissionType == permissionType
    {
      this.permissionType := permissionType;
      rows := map[];
      links := {};
    }

    /** One upsert per group, and a link to each row it returns. */
    method AssignGroupPerm(policy: Policy, permission: int, objectPk: int, contentType: int)
      modifies this
      ensures View() == Assigned(old(View()), policy, Grant(permission, objectPk, contentType))
    {
      ghost var g := Grant(permission, objectPk, contentType);
      var groups := policy.groups;
      ghost var done: set<RowKey> := {};
      while groups != {}
        invariant groups <= policy.groups
        invariant done == (set group | group in policy.groups - groups :: RowKey(group, permission, objectPk))
        invariant rows == old(rows) + map k | k in done :: contentType
        invariant links == old(links) + LinksTo(policy.id, done)
      {
        var group := PickOne(groups);
        var key := RowKey(group, permission, objectPk);
        rows := rows[key := contentType];
        links := links + {(policy.id, key)};
        groups := groups - {group};
        done := done + {key};
      }
      assert done == KeysFor(policy, g);
    }

    method RemovePermissions(policy: Policy, keepObjects: KeepObjects)
      modifies this
      ensures View() == Removed(permissionType, old(View()), policy, keepObjects)
    {
      var toDelete := LinkedBy(links, policy.id);
      if toDelete != {} {
        var kept := KeptRows(policy, keepObjects);
        var toKeep := set l | l in links && l.1 in toDelete && l.0 != policy.id :: l.1;
        toKeep := toKeep + kept;
        toDelete := toDelete - toKeep;
      }
      assert toDelete == RowsToDelete(permissionType, View(), policy, keepObjects);
      if toDelete != {} {
        links := set l | l in links && l.1 !in toDelete;
        rows := rows - toDelete;
      }
    }

    method KeptRows(policy: Policy, keepObjects: KeepObjects) returns (kept: set<RowKey>)
      ensures forall k :: k in kept <==>
              k in LinkedBy(links, policy.id) && KeptByObjects(permissionType, View(), policy, keepObjects, k)
    {
      kept := {};
      var own := LinkedBy(links, policy.id);
      var models := keepObjects.Keys;
      while models != {}
        invariant models <= keepObjects.Keys
        invariant forall k :: k in kept <==> k in own && exists model ::
                    && model in keepObjects.Keys - models
                    && k.objectPk in keepObjects[model]
                    && k in rows && rows[k] == model
                    && k.group in policy.groups
                    && k.permission in permissionType && permissionType[k.permission] == model
      {
        var model := PickOne(models);
        kept := kept + set k | k in own && k.objectPk in keepObjects[model] && k in rows && rows[k] == model
                               && k.group in policy.groups
                               && k.permission in permissionType && permissionType[k.permission] == model;
        models := models - {model};
      }
    }

    /** `role.apply` reaches the tables only through the grants it assigns, in its order. */
    method Apply(policy: Policy, grants: seq<Grant>, keepObjects: KeepObjects)
      modifies this
      ensures View() == Applied(permissionType, old(View()), policy, grants, keepObjects)
    {
      RemovePermissions(policy, keepObjects);
      ghost var start := View();
      for i := 0 to |grants|
        invariant View() == AllAssigned(start, policy, grants[..i])
      {
        assert grants[..i + 1][..i] == grants[..i];
        AssignGroupPerm(policy, grants[i].permission, grants[i].objectPk, grants[i].contentType);
      }
      assert grants[..|grants|] == grants;
    }

    method Delete(policy: Policy)
      modifies this
      ensures View() == Deleted(permissionType, old(View()), policy)
    {
      RemovePermissions(policy, map[]);
      links := set l | l in links && l.0 != policy.id;
    }
  }

  // ---------- what a policy ends up with ----------

  /** The rows a role asks for, for every group of the policy. */
  function GrantedRows(policy: Policy, grants: seq<Grant>): set<RowKey> {
    if grants == [] then {}
    else GrantedRows(policy, grants[..|grants| - 1]) + KeysFor(policy, grants[|grants| - 1])
  }

  lemma {:induction false} GrantedRowsMeaning(policy: Policy, grants: seq<Grant>, k: RowKey)
    ensures k in GrantedRows(policy, grants) <==>
            k.group in policy.groups && exists g ::
              g in grants && g.permission == k.permission && g.objectPk == k.objectPk
  {
    if grants != [] {
      GrantedRowsMeaning(policy, grants[..|grants| - 1], k);
      assert grants == grants[..|grants| - 1] + [grants[|grants| - 1]];
    }
  }

  /** The content type the last grant of a row asks for. */
  function LastType(policy: Policy, grants: seq<Grant>, k: RowKey): set<int> {
    if grants == [] then {}
    else
      var g := grants[|grants| - 1];
      if k.permission == g.permission && k.objectPk == g.objectPk && k.group in policy.groups then {g.contentType}
      else LastType(policy, grants[..|grants| - 1], k)
  }

  lemma {:induction false} AllAssignedMeaning(s: Store, policy: Policy, grants: seq<Grant>)
    ensures AllAssigned(s, policy, grants).links == s.links + LinksTo(policy.id, GrantedRows(policy, grants))
    ensures AllAssigned(s, policy, grants).rows.Keys == s.rows.Keys + GrantedRows(policy, grants)
  {
    hide KeysFor;
    if grants != [] {
      AllAssignedMeaning(s, policy, grants[..|grants| - 1]);
    }
  }

  lemma {:induction false} AllAssignedTypes(s: Store, policy: Policy, grants: seq<Grant>, k: RowKey)
    ensures var t := AllAssigned(s, policy, grants);
            if LastType(policy, grants, k) == {}
            then (k in t.rows <==> k in s.rows) && (k in s.rows ==> t.rows[k] == s.rows[k])
            else k in t.rows && LastType(policy, grants, k) == {t.rows[k]}
    ensures k in GrantedRows(policy, grants) <==> LastType(policy, grants, k) != {}
  {
    if grants != [] {
      var init := grants[..|grants| - 1];
      AllAssignedTypes(s, policy, init, k);
    }
  }

  // ---------- one policy at a time ----------

  /** After `apply`, a policy is linked to what its role grants and to those of its old rows that
      others share or that were asked to be kept; nothing else. */
  lemma ApplyLinks(permissionType: map<int, int>, s: Store, policy: Policy, grants: seq<Grant>, keep: KeepObjects)
    ensures LinkedBy(Applied(permissionType, s, policy, grants, keep).links, policy.id) ==
            GrantedRows(policy, grants) +
            set k | k in LinkedBy(s.links, policy.id) &&
                    (k in LinkedByOthers(s.links, policy.id) || KeptByObjects(permissionType, s, policy, keep, k))
  {
    hide KeptByObjects;
    var r := Removed(permissionType, s, policy, keep);
    var t := Applied(permissionType, s, policy, grants, keep);
    AllAssignedMeaning(r, policy, grants);
    forall k
      ensures k in LinkedBy(t.links, policy.id) <==>
              k in GrantedRows(policy, grants) || k in LinkedBy(r.links, policy.id)
      ensures k in LinkedBy(r.links, policy.id) <==>
                k in LinkedBy(s.links, policy.id) && k !in RowsToDelete(permissionType, s, policy, keep)
    {
      LinkedByMeaning(t.links, policy.id, k);
      LinkedByMeaning(r.links, policy.id, k);
      LinkedByMeaning(s.links, policy.id, k);
    }
  }

  lemma LinkedByMeaning(links: set<Link>, policy: int, k: RowKey)
    ensures k in LinkedBy(links, policy) <==> (policy, k) in links
    ensures k in LinkedByOthers(links, policy) <==> exists p :: p != policy && (p, k) in links
  {
    if k in LinkedByOthers(links, policy) {
      var l: Link :| l in links && l.0 != policy && l.1 == k;
      assert l.0 != policy && (l.0, k) in links;
    }
  }

  lemma RemoveSparesOthers(permissionType: map<int, int>, s: Store, policy: Policy, keep: KeepObjects, other: int)
    requires Valid(s) && other != policy.id
    ensures LinkedBy(Removed(permissionType, s, policy, keep).links, other) == LinkedBy(s.links, other)
    ensures forall k :: k in LinkedBy(s.links, other) ==>
              k in s.rows && k in Removed(permissionType, s, policy, keep).rows &&
              Removed(permissionType, s, policy, keep).rows[k] == s.rows[k]
  {
    forall k | k in LinkedBy(s.links, other) ensures k in LinkedByOthers(s.links, policy.id) {
      assert (other, k) in s.links;
    }
  }

  /** Applying a policy never touches another policy's links, and never removes its rows. */
  lemma ApplySparesOthers(permissionType: map<int, int>, s: Store, policy: Policy, grants: seq<Grant>,
                          keep: KeepObjects, other: int)
    requires Valid(s) && other != policy.id
    ensures LinkedBy(Applied(permissionType, s, policy, grants, keep).links, other) == LinkedBy(s.links, other)
    ensures forall k :: k in LinkedBy(s.links, other) ==> k in Applied(permissionType, s, policy, grants, keep).rows
  {
    RemoveSparesOthers(permissionType, s, policy, keep, other);
    AllAssignedMeaning(Removed(permissionType, s, policy, keep), policy, grants);
  }

  /** But it may rewrite the content type of a shared row.  A shared row stays as it was exactly when
      the last grant of that row, if there is one, names the content type it already has. */
  lemma SharedRowIntactIff(permissionType: map<int, int>, s: Store, policy: Policy, grants: seq<Grant>,
                           keep: KeepObjects, other: int, k: RowKey)
    requires Valid(s) && other != policy.id && k in LinkedBy(s.links, other)
    ensures var t := Applied(permissionType, s, policy, grants, keep);
            k in s.rows && k in t.rows &&
            (t.rows[k] == s.rows[k] <==> LastType(policy, grants, k) <= {s.rows[k]})
  {
    RemoveSparesOthers(permissionType, s, policy, keep, other);
    AllAssignedTypes(Removed(permissionType, s, policy, keep), policy, grants, k);
  }

  /** Policy 2 grants permission 7 on host 1 to the group that has it on cluster 1 through policy 1:
      the row now speaks of the host only. */
  lemma SharedRowOverwritten()
    ensures var cluster, host, k := 10, 20, RowKey(5, 7, 1);
            var s := Applied(map[], Store(map[], {}), Policy(1, {5}), [Grant(7, 1, cluster)], map[]);
            var t := Applied(map[], s, Policy(2, {5}), [Grant(7, 1, host)], map[]);
            && k in s.rows && s.rows[k] == cluster && (1, k) in s.links
            && k in t.rows && t.rows[k] == host && (1, k) in t.links
  {
    var k := RowKey(5, 7, 1);
    var g1, g2 := Grant(7, 1, 10), Grant(7, 1, 20);
    var p1, p2 := Policy(1, {5}), Policy(2, {5});
    var e := Store(map[], {});
    assert [g1][..0] == [] && [g2][..0] == [];
    var s := Applied(map[], e, p1, [g1], map[]);
    AllAssignedTypes(Removed(map[], e, p1, map[]), p1, [g1], k);
    assert LastType(p1, [g1], k) == {10};
    AllAssignedMeaning(Removed(map[], e, p1, map[]), p1, [g1]);
    GrantedRowsMeaning(p1, [g1], k);
    assert g1 in [g1];
    AllAssignedTypes(Removed(map[], s, p2, map[]), p2, [g2], k);
    assert LastType(p2, [g2], k) == {20};
    ApplyKeepsValid(map[], e, p1, [g1], map[]);
    assert k in LinkedBy(s.links, 1);
    ApplySparesOthers(map[], s, p2, [g2], map[], 1);
  }

  lemma DeleteEffect(permissionType: map<int, int>, s: Store, policy: Policy, other: int)
    requires Valid(s) && other != policy.id
    ensures var t := Deleted(permissionType, s, policy);
            && LinkedBy(t.links, policy.id) == {}
            && LinkedBy(t.links, other) == LinkedBy(s.links, other)
            && forall k :: k in LinkedBy(s.links, other) ==> k in s.rows && k in t.rows && t.rows[k] == s.rows[k]
  {
    RemoveSparesOthers(permissionType, s, policy, map[], other);
  }

  // ---------- links and rows stay matched ----------

  lemma RemoveKeepsValid(permissionType: map<int, int>, s: Store, policy: Policy, keep: KeepObjects)
    requires Valid(s)
    ensures Valid(Removed(permissionType, s, policy, keep))
  {
    hide KeptByObjects;
    var t := Removed(permissionType, s, policy, keep);
    forall k | k in t.rows ensures exists p :: (p, k) in t.links {
      var p :| (p, k) in s.links;
      assert (p, k) in t.links;
    }
  }

  lemma ApplyKeepsValid(permissionType: map<int, int>, s: Store, policy: Policy, grants: seq<Grant>, keep: KeepObjects)
    requires Valid(s)
    ensures Valid(Applied(permissionType, s, policy, grants, keep))
  {
    var r := Removed(permissionType, s, policy, keep);
    var t := Applied(permissionType, s, policy, grants, keep);
    RemoveKeepsValid(permissionType, s, policy, keep);
    AllAssignedMeaning(r, policy, grants);
    forall k | k in t.rows ensures exists p :: (p, k) in t.links {
      if k in GrantedRows(policy, grants) {
        assert (policy.id, k) in t.links;
      } else {
        var p :| (p, k) in r.links;
        assert (p, k) in t.links;
      }
    }
  }

  /** A deleted policy leaves no orphan: what it alone linked is gone, the rest has another link. */
  lemma DeleteKeepsValid(permissionType: map<int, int>, s: Store, policy: Policy)
    requires Valid(s)
    ensures Valid(Deleted(permissionType, s, policy))
  {
    var r := Removed(permissionType, s, policy, map[]);
    var t := Deleted(permissionType, s, policy);
    RemoveKeepsValid(permissionType, s, policy, map[]);
    forall k | k in t.rows ensures exists p :: (p, k) in t.links {
      var p :| (p, k) in r.links;
      if p == policy.id {
        assert k in LinkedBy(s.links, policy.id) && k !in RowsToDelete(permissionType, s, policy, map[]);
        var l :| l in s.links && l.0 != policy.id && l.1 == k;
        assert (l.0, k) in t.links;
      } else {
        assert (p, k) in t.links;
      }
    }
  }

  /** Applying the same policy again, with the same objects to keep, changes nothing. */
  lemma ApplyTwice(permissionType: map<int, int>, s: Store, policy: Policy, grants: seq<Grant>, keep: KeepObjects)
    requires Valid(s)
    ensures var t := Applied(permissionType, s, policy, grants, keep);
            Applied(permissionType, t, policy, grants, keep) == t
  {
    var t := Applied(permissionType, s, policy, grants, keep);
    var u := Applied(permissionType, t, policy, grants, keep);
    ApplyKeepsValid(permissionType, s, policy, grants, keep);
    ApplyKeepsValid(permissionType, t, policy, grants, keep);
    OwnLinksSettle(permissionType, s, policy, grants, keep);
    SameOthers(permissionType, s, policy, grants, keep);
    hide *;
    SameLinks(t.links, u.links, policy.id);
    SameKeys(t, u);
    forall k | k in t.rows ensures u.rows[k] == t.rows[k] {
      SameTypes(permissionType, s, policy, grants, keep, k);
    }
  }

  lemma OwnLinksSettle(permissionType: map<int, int>, s: Store, policy: Policy, grants: seq<Grant>, keep: KeepObjects)
    requires Valid(s)
    ensures var t := Applied(permissionType, s, policy, grants, keep);
            LinkedBy(Applied(permissionType, t, policy, grants, keep).links, policy.id) == LinkedBy(t.links, policy.id)
  {
    var t := Applied(permissionType, s, policy, grants, keep);
    ApplyLinks(permissionType, s, policy, grants, keep);
    ApplyLinks(permissionType, t, policy, grants, keep);
    SameOthers(permissionType, s, policy, grants, keep);
    hide LinkedBy, LinkedByOthers, Applied, KeptByObjects;
    forall k
      ensures k in LinkedBy(Applied(permissionType, t, policy, grants, keep).links, policy.id) <==>
              k in LinkedBy(t.links, policy.id)
    {
      if k in LinkedBy(s.links, policy.id) && k !in GrantedRows(policy, grants) {
        KeptStaysKept(permissionType, s, policy, grants, keep, k);
      }
    }
  }

  /** A row that was kept and is not granted anew keeps its content type, and so is kept again. */
  lemma KeptStaysKept(permissionType: map<int, int>, s: Store, policy: Policy, grants: seq<Grant>, keep: KeepObjects,
      k: RowKey)
    requires k !in GrantedRows(policy, grants)
    ensures KeptByObjects(permissionType, s, policy, keep, k) ==>
              KeptByObjects(permissionType, Applied(permissionType, s, policy, grants, keep), policy, keep, k)
  {
    AllAssignedTypes(Removed(permissionType, s, policy, keep), policy, grants, k);
    hide AllAssigned, LastType, GrantedRows;
  }

  lemma SameKeys(t: Store, u: Store)
    requires Valid(t) && Valid(u) && t.links == u.links
    ensures t.rows.Keys == u.rows.Keys
  {
    forall k | k in t.rows ensures k in u.rows {
      var p :| (p, k) in t.links;
    }
    forall k | k in u.rows ensures k in t.rows {
      var p :| (p, k) in u.links;
    }
  }

  lemma SameTypes(permissionType: map<int, int>, s: Store, policy: Policy, grants: seq<Grant>, keep: KeepObjects,
      k: RowKey)
    ensures var t := Applied(permissionType, s, policy, grants, keep);
            var u := Applied(permissionType, t, policy, grants, keep);
            k in t.rows && k in u.rows ==> u.rows[k] == t.rows[k]
  {
    var t := Applied(permissionType, s, policy, grants, keep);
    AllAssignedTypes(Removed(permissionType, s, policy, keep), policy, grants, k);
    AllAssignedTypes(Removed(permissionType, t, policy, keep), policy, grants, k);
  }

  lemma SameOthers(permissionType: map<int, int>, s: Store, policy: Policy, grants: seq<Grant>, keep: KeepObjects)
    requires Valid(s)
    ensures var t := Applied(permissionType, s, policy, grants, keep);
            && (forall l: Link :: l.0 != policy.id ==> (l in t.links <==> l in s.links))
            && LinkedByOthers(t.links, policy.id) == LinkedByOthers(s.links, policy.id)
    ensures var t := Applied(permissionType, s, policy, grants, keep);
            forall l: Link :: l.0 != policy.id ==>
              (l in Applied(permissionType, t, policy, grants, keep).links <==> l in t.links)
  {
    var t := Applied(permissionType, s, policy, grants, keep);
    AllAssignedMeaning(Removed(permissionType, s, policy, keep), policy, grants);
    AllAssignedMeaning(Removed(permissionType, t, policy, keep), policy, grants);
    assert forall l: Link :: l.0 != policy.id ==> (l in t.links <==> l in s.links);
  }

  lemma SameLinks(a: set<Link>, b: set<Link>, policy: int)
    requires LinkedBy(a, policy) == LinkedBy(b, policy)
    requires forall l: Link :: l.0 != policy ==> (l in a <==> l in b)
    ensures a == b
  {
    forall l: Link | l.0 == policy ensures l in a <==> l in b {
      assert l in a <==> l.1 in LinkedBy(a, policy);
      assert l in b <==> l.1 in LinkedBy(b, policy);
    }
  }

  // ---------- any sequence of operations ----------

  datatype Op = ApplyOp(policy: Policy, grants: seq<Grant>, keep: KeepObjects) | DeleteOp(policy: Policy)

  function Exec(permissionType: map<int, int>, s: Store, ops: seq<Op>): Store {
    if ops == [] then s
    else
      var t := Exec(permissionType, s, ops[..|ops| - 1]);
      match ops[|ops| - 1]
      case ApplyOp(policy, grants, keep) => Applied(permissionType, t, policy, grants, keep)
      case DeleteOp(policy) => Deleted(permissionType, t, policy)
  }

  lemma {:induction false} RunKeepsValid(permissionType: map<int, int>, s: Store, ops: seq<Op>)
    requires Valid(s)
    ensures Valid(Exec(permissionType, s, ops))
  {
    if ops != [] {
      RunKeepsValid(permissionType, s, ops[..|ops| - 1]);
      var t := Exec(permissionType, s, ops[..|ops| - 1]);
      match ops[|ops| - 1]
      case ApplyOp(policy, grants, keep) => ApplyKeepsValid(permissionType, t, policy, grants, keep);
      case DeleteOp(policy) => DeleteKeepsValid(permissionType, t, policy);
    }
  }

  /** Whatever is done to other policies, a policy keeps its links and the rows behind them. */
  lemma {:induction false} RunSparesBystander(permissionType: map<int, int>, s: Store, ops: seq<Op>, bystander: int)
    requires Valid(s) && forall i :: 0 <= i < |ops| ==> ops[i].policy.id != bystander
    ensures var t := Exec(permissionType, s, ops);
            && LinkedBy(t.links, bystander) == LinkedBy(s.links, bystander)
            && forall k :: k in LinkedBy(s.links, bystander) ==> k in t.rows
  {
    if ops != [] {
      var init, op := ops[..|ops| - 1], ops[|ops| - 1];
      RunSparesBystander(permissionType, s, init, bystander);
      RunKeepsValid(permissionType, s, init);
      var t := Exec(permissionType, s, init);
      match op
      case ApplyOp(policy, grants, keep) => ApplySparesOthers(permissionType, t, policy, grants, keep, bystander);
      case DeleteOp(policy) => DeleteEffect(permissionType, t, policy, bystander);
    }
  }

  /** Grants whose content type is the permission's own. */
  ghost predicate TypedOps(typeOf: map<int, int>, ops: seq<Op>) {
    forall i, g :: 0 <= i < |ops| && ops[i].ApplyOp? && g in ops[i].grants ==>
      g.permission in typeOf && typeOf[g.permission] == g.contentType
  }

  ghost predicate TypedRows(typeOf: map<int, int>, s: Store) {
    forall k :: k in s.rows ==> k.permission in typeOf && s.rows[k] == typeOf[k.permission]
  }

  /** When roles grant a permission only on objects of its own content type, no row is ever
      overwritten, so a bystander's rows stay exactly as they were. */
  lemma {:induction false} TypedRunSparesRows(typeOf: map<int, int>, s: Store, ops: seq<Op>, bystander: int, k: RowKey)
    requires Valid(s) && TypedRows(typeOf, s) && TypedOps(typeOf, ops)
    requires forall i :: 0 <= i < |ops| ==> ops[i].policy.id != bystander
    ensures TypedRows(typeOf, Exec(typeOf, s, ops))
    ensures k in LinkedBy(s.links, bystander) ==>
              k in s.rows && k in Exec(typeOf, s, ops).rows && Exec(typeOf, s, ops).rows[k] == s.rows[k]
  {
    if ops != [] {
      var init, op := ops[..|ops| - 1], ops[|ops| - 1];
      TypedRunSparesRows(typeOf, s, init, bystander, k);
      var t := Exec(typeOf, s, init);
      if op.ApplyOp? {
        assert forall g :: g in op.grants ==> g.permission in typeOf && typeOf[g.permission] == g.contentType by {
          assert op == ops[|ops| - 1];
        }
        ApplyKeepsTyped(typeOf, t, op.policy, op.grants, op.keep);
      }
      RunSparesBystander(typeOf, s, ops, bystander);
    }
  }

  lemma ApplyKeepsTyped(typeOf: map<int, int>, s: Store, policy: Policy, grants: seq<Grant>, keep: KeepObjects)
    requires TypedRows(typeOf, s)
    requires forall g :: g in grants ==> g.permission in typeOf && typeOf[g.permission] == g.contentType
    ensures TypedRows(typeOf, Applied(typeOf, s, policy, grants, keep))
  {
    var t := Applied(typeOf, s, policy, grants, keep);
    var r := Removed(typeOf, s, policy, keep);
    assert TypedRows(typeOf, r);
    hide Removed;
    forall k | k in t.rows
      ensures k.permission in typeOf && t.rows[k] == typeOf[k.permission]
    {
      AllAssignedTypes(r, policy, grants, k);
      if LastType(policy, grants, k) != {} {
        LastTypeIsGranted(policy, grants, k, t.rows[k]);
      }
    }
  }

  lemma {:induction false} LastTypeIsGranted(policy: Policy, grants: seq<Grant>, k: RowKey, contentType: int)
    requires contentType in LastType(policy, grants, k)
    ensures exists g :: g in grants && g.permission == k.permission && g.contentType == contentType
  {
    var init, last := grants[..|grants| - 1], grants[|grants| - 1];
    if !(k.permission == last.permission && k.objectPk == last.objectPk && k.group in policy.groups) {
      LastTypeIsGranted(policy, init, k, contentType);
      var g :| g in init && g.permission == k.permission && g.contentType == contentType;
      assert g in grants;
    }
  }

  // ---------- what the tables hold, row by row ----------

  /** A row that was to be kept: it is about an object to be kept, of the type of its permission, and for
      a group of the policy. */
  ghost predicate ToKeep(permissionType: map<int, int>, s: Store, policy: Policy, keep: KeepObjects, k: RowKey) {
    && k in s.rows && s.rows[k] in keep && k.objectPk in keep[s.rows[k]]
    && k.group in policy.groups
    && k.permission in permissionType && permissionType[k.permission] == s.rows[k]
  }

  ghost predicate LinkedElsewhere(s: Store, policy: Policy, k: RowKey) {
    exists p :: p != policy.id && (p, k) in s.links
  }

  ghost predicate Asked(policy: Policy, grants: seq<Grant>, k: RowKey) {
    k.group in policy.groups && exists g :: g in grants && g.permission == k.permission && g.objectPk == k.objectPk
  }

  lemma RemovedByRow(permissionType: map<int, int>, s: Store, policy: Policy, keep: KeepObjects, k: RowKey)
    ensures var t := Removed(permissionType, s, policy, keep);
            var gone := (policy.id, k) in s.links && !LinkedElsewhere(s, policy, k)
                        && !ToKeep(permissionType, s, policy, keep, k);
            && (k in t.rows <==> k in s.rows && !gone)
            && (k in t.rows ==> t.rows[k] == s.rows[k])
            && (forall p :: (p, k) in t.links <==> (p, k) in s.links && !gone)
  {
    LinkedByMeaning(s.links, policy.id, k);
    hide LinkedBy, LinkedByOthers;
  }

  /** The whole of an apply: which rows are there, with which content type, and who is linked to them. */
  lemma ApplyByRow(permissionType: map<int, int>, s: Store, policy: Policy, grants: seq<Grant>, keep: KeepObjects,
                   k: RowKey)
    requires Valid(s)
    ensures var t := Applied(permissionType, s, policy, grants, keep);
            var stays := LinkedElsewhere(s, policy, k) || ToKeep(permissionType, s, policy, keep, k);
            && (k in t.rows <==> Asked(policy, grants, k) || (k in s.rows && ((policy.id, k) !in s.links || stays)))
            && ((policy.id, k) in t.links <==> Asked(policy, grants, k) || ((policy.id, k) in s.links && stays))
            && (forall p :: p != policy.id ==> ((p, k) in t.links <==> (p, k) in s.links))
            && (!Asked(policy, grants, k) && k in t.rows ==> t.rows[k] == s.rows[k])
  {
    var r := Removed(permissionType, s, policy, keep);
    RemovedByRow(permissionType, s, policy, keep, k);
    AllAssignedMeaning(r, policy, grants);
    AllAssignedTypes(r, policy, grants, k);
    GrantedRowsMeaning(policy, grants, k);
    forall p | p != policy.id && (p, k) in s.links ensures LinkedElsewhere(s, policy, k) {
    }
    hide Removed, AllAssigned, ToKeep, LastType, GrantedRows;
  }

  /** The content type of a row that was asked for is that of the last grant asking for it. */
  lemma {:induction false} LastGrantDecides(permissionType: map<int, int>, s: Store, policy: Policy,
                                            grants: seq<Grant>, keep: KeepObjects, k: RowKey, i: nat)
    requires i < |grants| && k == RowKey(k.group, grants[i].permission, grants[i].objectPk) && k.group in policy.groups
    requires forall j :: i < j < |grants| ==> grants[j].permission != k.permission || grants[j].objectPk != k.objectPk
    ensures var t := Applied(permissionType, s, policy, grants, keep);
            k in t.rows && t.rows[k] == grants[i].contentType
    decreases |grants|
  {
    hide Removed;
    if i < |grants| - 1 {
      LastGrantDecides(permissionType, s, policy, grants[..|grants| - 1], keep, k, i);
    }
  }

  /** The whole of a delete: the rows and links of the others, as they were. */
  lemma DeleteByRow(permissionType: map<int, int>, s: Store, policy: Policy, k: RowKey)
    requires Valid(s)
    ensures var t := Deleted(permissionType, s, policy);
            && (k in t.rows <==> LinkedElsewhere(s, policy, k))
            && (k in t.rows ==> t.rows[k] == s.rows[k])
            && (forall p :: (p, k) in t.links <==> p != policy.id && (p, k) in s.links)
  {
    RemovedByRow(permissionType, s, policy, map[], k);
    forall p | (p, k) in s.links ensures k in s.rows && (p != policy.id ==> LinkedElsewhere(s, policy, k)) {
    }
    if LinkedElsewhere(s, policy, k) {
      var p :| p != policy.id && (p, k) in s.links;
    }
    hide Removed;
  }
}
