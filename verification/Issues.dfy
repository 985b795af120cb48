/** Issues of objects and the objects they are attached to. */
module Issues {
  import opened Common
  import opened Inventory
  import opened Hierarchy
  import opened HierarchyClosure

  datatype Cause = ConfigCause | ImportCause | ServiceCause | HostComponentCause | RequirementCause

  /** A concern is named by what the unique constraint of its table covers.  For an issue the name
      follows from the cause. */
  datatype Concern = Issue(owner: Key, cause: Cause) | Flag(owner: Key, name: string) | Lock(owner: Key, name: string)

  type Attachment = (Key, Concern)

  datatype Table = Table(concerns: set<Concern>, links: set<Attachment>)

  function CausesOf(kind: Kind): seq<Cause> {
    match kind
    case Adcm => [ConfigCause]
    case Cluster => [ConfigCause, ImportCause, ServiceCause, HostComponentCause]
    case Service => [ConfigCause, ImportCause, RequirementCause]
    case Component => [ConfigCause]
    case Provider => [ConfigCause]
    case Host => [ConfigCause]
    case Root => []
  }

  /** The checks, as the set of (object, cause) pairs that fail.  They do not read concerns. */
  type Failures = set<(Key, Cause)>

  // ---------- what the operations do to the table ----------

  predicate Fails(failing: Failures, c: Concern) {
    c.Issue? && (c.owner, c.cause) in failing
  }

  function IssuesOf(objs: set<Key>): set<Concern> {
    set o, ca | o in objs && ca in CausesOf(o.kind) :: Issue(o, ca)
  }

  function WithIssue(db: Db, t: Table, c: Concern): Table
    requires References(db) && c.owner in Objects(db)
  {
    Table(t.concerns + {c}, t.links + set n | n in Affected(db, c.owner) :: (n, c))
  }

  function WithoutConcern(t: Table, c: Concern): Table {
    Table(t.concerns - {c}, set l | l in t.links && l.1 != c)
  }

  /** Every own issue of `done` re-checked, whatever the order. */
  function Rechecked(db: Db, failing: Failures, t: Table, done: set<Concern>): Table
    requires References(db) && forall c :: c in done ==> c.owner in Objects(db)
  {
    Table((set c | c in t.concerns && (c in done ==> Fails(failing, c))) + (set c | c in done && Fails(failing, c)),
          (set l | l in t.links && (l.1 in done ==> Fails(failing, l.1)))
          + (set c, n | c in done && Fails(failing, c) && n in Affected(db, c.owner) :: (n, c)))
  }

  /** Concerns without an owner gone; issues and flags detached from everything their owner no longer
      affects. */
  function Cleaned(db: Db, t: Table, done: set<Concern>): Table
    requires References(db)
  {
    Table(set c | c in t.concerns && (c in done && !c.Lock? ==> c.owner in Objects(db)),
          set l | l in t.links && (l.1 in done && !l.1.Lock? ==>
            l.1.owner in Objects(db) && l.0 in Affected(db, l.1.owner)))
  }

  // ---------- the table ----------

  class ConcernTable {
    const db: Db
    const failing: Failures
    var concerns: set<Concern>
    var links: set<Attachment>

    function View(): Table
      reads this
    {
      Table(concerns, links)
    }

    constructor (db: Db, failing: Failures)
      ensures View() == Table({}, {}) && this.db == db && this.failing == failing
    {
      this.db := db;
      this.failing := failing;
      concerns := {};
      links := {};
    }

    method DirectlyAffectedBy(obj: Key) returns (affected: set<Key>)
      requires Consistent(db) && obj in Objects(db)
      ensures affected == Affected(db, obj)
    {
      hide References, Objects, TreeEdges, DirectlyAffected, Affected;
      var tree := MakeTree(db, obj);
      affected := tree.GetDirectlyAffected(obj);
      TreeAffectedIsClosure(db, obj);
    }

    method AddIssueOnLinkedObjects(obj: Key, cause: Cause)
      requires Consistent(db) && obj in Objects(db)
      modifies this
      ensures View() == WithIssue(db, old(View()), Issue(obj, cause))
    {
      hide References, Objects, Affected;
      var issue := Issue(obj, cause);
      if issue !in concerns {
        concerns := concerns + {issue};
      }
      var affected := DirectlyAffectedBy(obj);
      var todo := affected;
      ghost var before := links;
      while todo != {}
        invariant todo <= affected
        invariant links == before + set n | n in affected - todo :: (n, issue)
        invariant concerns == old(concerns) + {issue}
      {
        var node := PickOne(todo);
        if (node, issue) !in links {
          links := links + {(node, issue)};
        }
        todo := todo - {node};
      }
    }

    method RemoveIssue(obj: Key, cause: Cause)
      modifies this
      ensures concerns == old(concerns) - {Issue(obj, cause)}
      ensures Issue(obj, cause) in old(concerns) ==> View() == WithoutConcern(old(View()), Issue(obj, cause))
      ensures Issue(obj, cause) !in old(concerns) ==> View() == old(View())
    {
      var issue := Issue(obj, cause);
      if issue !in concerns {
        return;
      }
      concerns := concerns - {issue};
      links := set l | l in links && l.1 != issue;
    }

    /** Attachments are to existing concerns; deleting a concern takes its attachments along. */
    predicate Valid()
      reads this
    {
      forall l :: l in links ==> l.1 in concerns
    }

    method RecheckIssues(obj: Key)
      requires Valid() && Consistent(db) && obj in Objects(db)
      modifies this
      ensures Valid() && View() == Rechecked(db, failing, old(View()), IssuesOf({obj}))
    {
      hide References, Objects, Affected;
      var issueCauses := CausesOf(obj.kind);
      ghost var done: set<Concern> := {};
      RecheckNone(db, failing, View());
      for i := 0 to |issueCauses|
        invariant Valid()
        invariant done == (set ca | ca in issueCauses[..i] :: Issue(obj, ca))
        invariant View() == Rechecked(db, failing, old(View()), done)
      {
        var issueCause := issueCauses[i];
        RecheckOne(db, failing, old(View()), done, Issue(obj, issueCause));
        if (obj, issueCause) in failing {
          AddIssueOnLinkedObjects(obj, issueCause);
        } else {
          RemoveIssue(obj, issueCause);
        }
        done := done + {Issue(obj, issueCause)};
      }
      assert done == IssuesOf({obj});
    }

    /** The affected objects are visited in any order. */
    method UpdateHierarchyIssues(obj: Key)
      requires Valid() && Consistent(db) && obj in Objects(db)
      modifies this
      ensures Valid() && View() == Rechecked(db, failing, old(View()), IssuesOf(Affected(db, obj)))
    {
      hide References, Affected, Rechecked, Valid, CausesOf;
      var affected := DirectlyAffectedBy(obj);
      assert forall n :: n in affected ==> n in Objects(db) by { AffectedAreObjects(db, obj); }
      var todo := affected;
      ghost var done: set<Key> := {};
      assert IssuesOf({}) == {};
      RecheckNone(db, failing, View());
      while todo != {}
        invariant todo + done == affected
        invariant Valid() && View() == Rechecked(db, failing, old(View()), IssuesOf(done))
      {
        var node := PickOne(todo);
        RecheckMore(db, failing, old(View()), IssuesOf(done), IssuesOf({node}));
        assert IssuesOf(done) + IssuesOf({node}) == IssuesOf(done + {node});
        RecheckIssues(node);
        done := done + {node};
        todo := todo - {node};
      }
      assert done == affected;
    }

    method UpdateIssuesAndFlagsAfterDeleting()
      requires Valid() && Consistent(db)
      modifies this
      ensures Valid() && View() == Cleaned(db, old(View()), old(concerns))
    {
      hide References, Objects, Affected, Cleaned;
      var todo := set c | c in concerns && !c.Lock?;
      ghost var done: set<Concern> := {};
      CleanNone(db, View());
      while todo != {}
        invariant todo + done == (set c | c in old(concerns) && !c.Lock?)
        invariant Valid() && View() == Cleaned(db, old(View()), done)
        decreases |todo|
      {
        var concern := PickOne(todo);
        CleanOne(db, old(View()), done, concern);
        if concern.owner !in Objects(db) {
          concerns := concerns - {concern};
          links := set l | l in links && l.1 != concern;
        } else {
          var affected := DirectlyAffectedBy(concern.owner);
          links := set l | l in links && (l.1 == concern ==> l.0 in affected);
        }
        done := done + {concern};
        todo := todo - {concern};
      }
      LocksStay(db, old(View()));
    }
  }

  lemma AffectedAreObjects(db: Db, obj: Key)
    requires References(db) && obj in Objects(db)
    ensures forall n :: n in Affected(db, obj) ==> n in Objects(db)
  {
  }

  // ---------- one at a time is all at once ----------

  lemma RecheckNone(db: Db, failing: Failures, t: Table)
    requires References(db)
    ensures Rechecked(db, failing, t, {}) == t
  {
  }

  lemma RecheckOne(db: Db, failing: Failures, t: Table, done: set<Concern>, c: Concern)
    requires References(db) && forall d :: d in done + {c} ==> d.owner in Objects(db)
    requires c.Issue?
    ensures Rechecked(db, failing, t, done + {c}) ==
            if Fails(failing, c) then WithIssue(db, Rechecked(db, failing, t, done), c)
            else WithoutConcern(Rechecked(db, failing, t, done), c)
  {
    hide References, Objects, Affected;
  }

  lemma RecheckMore(db: Db, failing: Failures, t: Table, done: set<Concern>, more: set<Concern>)
    requires References(db) && forall d :: d in done + more ==> d.owner in Objects(db)
    ensures Rechecked(db, failing, t, done + more) == Rechecked(db, failing, Rechecked(db, failing, t, done), more)
  {
    hide References, Objects, Affected;
  }

  lemma LocksStay(db: Db, t: Table)
    requires References(db)
    ensures Cleaned(db, t, set c | c in t.concerns && !c.Lock?) == Cleaned(db, t, t.concerns)
  {
  }

  lemma CleanNone(db: Db, t: Table)
    requires References(db)
    ensures Cleaned(db, t, {}) == t
  {
  }

  lemma CleanOne(db: Db, t: Table, done: set<Concern>, c: Concern)
    requires References(db) && !c.Lock?
    ensures var u := Cleaned(db, t, done);
            Cleaned(db, t, done + {c}) ==
              if c.owner !in Objects(db) then WithoutConcern(u, c)
              else u.(links := set l | l in u.links && (l.1 == c ==> l.0 in Affected(db, c.owner)))
  {
    hide References, Objects, Affected;
  }

  // ---------- what the operations are for ----------

  /** Everything an object owns is right: an issue exists exactly for a failing check, attached to
      exactly the objects it affects. */
  ghost predicate AccurateFor(db: Db, failing: Failures, t: Table, o: Key)
    requires References(db) && o in Objects(db)
  {
    forall ca :: ca in CausesOf(o.kind) ==>
      && (Issue(o, ca) in t.concerns <==> (o, ca) in failing)
      && ((o, ca) in failing ==> forall n :: (n, Issue(o, ca)) in t.links <==> n in Affected(db, o))
  }

  ghost predicate Accurate(db: Db, failing: Failures, t: Table)
    requires References(db)
  {
    && (forall o :: o in Objects(db) ==> AccurateFor(db, failing, t, o))
    && (forall l :: l in t.links ==> l.1 in t.concerns)
    && (forall c :: c in t.concerns && !c.Lock? ==> c.owner in Objects(db))
  }

  function Updated(db: Db, failing: Failures, t: Table, obj: Key): Table
    requires References(db) && obj in Objects(db)
  {
    AffectedAreObjects(db, obj);
    Rechecked(db, failing, t, IssuesOf(Affected(db, obj)))
  }

  function UpdatedAndCleaned(db: Db, failing: Failures, t: Table, obj: Key): Table
    requires References(db) && obj in Objects(db)
  {
    Cleaned(db, Updated(db, failing, t, obj), Updated(db, failing, t, obj).concerns)
  }

  /** Already before the clean-up, a failing check is attached to everything it affects. */
  lemma UpdateAttachesAll(db: Db, failing: Failures, t: Table, obj: Key, o: Key, ca: Cause, n: Key)
    requires References(db) && obj in Objects(db) && o in Affected(db, obj) && ca in CausesOf(o.kind)
    ensures Issue(o, ca) in Updated(db, failing, t, obj).concerns <==> (o, ca) in failing
    ensures o in Objects(db) && ((o, ca) in failing && n in Affected(db, o) ==>
              (n, Issue(o, ca)) in Updated(db, failing, t, obj).links)
  {
    hide References, Affected, Objects;
    AffectedAreObjects(db, obj);
    assert Issue(o, ca) in IssuesOf(Affected(db, obj));
  }

  /** After update and clean-up, everything owned by an affected object is right, from any table. */
  lemma UpdateMakesAccurate(db: Db, failing: Failures, t: Table, obj: Key, o: Key)
    requires References(db) && obj in Objects(db) && o in Affected(db, obj)
    requires forall l :: l in t.links ==> l.1 in t.concerns
    ensures o in Objects(db) && AccurateFor(db, failing, UpdatedAndCleaned(db, failing, t, obj), o)
  {
    hide References, Affected, Objects;
    AffectedAreObjects(db, obj);
    forall ca | ca in CausesOf(o.kind)
      ensures Issue(o, ca) in IssuesOf(Affected(db, obj))
    {
    }
  }

  lemma OthersOnlyCleaned(db: Db, failing: Failures, t: Table, obj: Key, o: Key, ca: Cause)
    requires References(db) && obj in Objects(db) && o in Objects(db) && o !in Affected(db, obj)
    requires forall l :: l in t.links ==> l.1 in t.concerns
    ensures var u := UpdatedAndCleaned(db, failing, t, obj);
            && (Issue(o, ca) in u.concerns <==> Issue(o, ca) in t.concerns)
            && forall n :: (n, Issue(o, ca)) in u.links <==> (n, Issue(o, ca)) in t.links && n in Affected(db, o)
  {
    hide References, Affected, Objects;
    AffectedAreObjects(db, obj);
    assert Issue(o, ca) !in IssuesOf(Affected(db, obj));
  }

  /** A table that was right before a change of the database and of the checks is right again after
      updating one object, provided the change is confined to what that object affects: outside,
      checks kept their outcome and nobody started to affect more than before. */
  lemma IssuesCatchUp(was: Db, wasFailing: Failures, db: Db, failing: Failures, t: Table, obj: Key)
    requires References(was) && References(db) && obj in Objects(db)
    requires Accurate(was, wasFailing, t)
    requires forall o :: o in Objects(db) && o !in Affected(db, obj) ==>
               && o in Objects(was)
               && Affected(db, o) <= Affected(was, o)
               && forall ca :: ca in CausesOf(o.kind) ==> ((o, ca) in wasFailing <==> (o, ca) in failing)
    ensures Accurate(db, failing, UpdatedAndCleaned(db, failing, t, obj))
  {
    hide References, Affected, Objects, UpdatedAndCleaned;
    var u := UpdatedAndCleaned(db, failing, t, obj);
    forall o | o in Objects(db) ensures AccurateFor(db, failing, u, o) {
      if o in Affected(db, obj) {
        UpdateMakesAccurate(db, failing, t, obj, o);
      } else {
        assert AccurateFor(was, wasFailing, t, o);
        forall ca | ca in CausesOf(o.kind)
          ensures (Issue(o, ca) in u.concerns <==> (o, ca) in failing)
          ensures (o, ca) in failing ==> forall n :: (n, Issue(o, ca)) in u.links <==> n in Affected(db, o)
        {
          OthersOnlyCleaned(db, failing, t, obj, o, ca);
        }
      }
    }
    CleanedIsTidy(db, failing, t, obj);
  }

  lemma CleanedIsTidy(db: Db, failing: Failures, t: Table, obj: Key)
    requires References(db) && obj in Objects(db)
    requires forall l :: l in t.links ==> l.1 in t.concerns
    ensures var u := UpdatedAndCleaned(db, failing, t, obj);
            && (forall l :: l in u.links ==> l.1 in u.concerns)
            && (forall c :: c in u.concerns && !c.Lock? ==> c.owner in Objects(db))
  {
    hide References, Affected, Objects;
  }

  // ---------- concern by concern ----------

  /** Which kinds of objects are checked for what. */
  predicate HasCause(kind: Kind, cause: Cause) {
    match cause
    case ConfigCause => kind != Root
    case ImportCause => kind == Cluster || kind == Service
    case ServiceCause => kind == Cluster
    case HostComponentCause => kind == Cluster
    case RequirementCause => kind == Service
  }

  /** Whether the update decides about a concern. */
  predicate Due(db: Db, obj: Key, c: Concern)
    requires References(db) && obj in Objects(db)
  {
    c.Issue? && c.owner in Affected(db, obj) && HasCause(c.owner.kind, c.cause)
  }

  /** The whole of an update: an issue it decides about exists iff its check fails, and then is attached to
      all its owner affects besides what it was; every other issue, flag and lock stays as it was. */
  lemma UpdatedByConcern(db: Db, failing: Failures, t: Table, obj: Key, c: Concern, n: Key)
    requires References(db) && obj in Objects(db)
    ensures var u := Updated(db, failing, t, obj);
            && (Due(db, obj, c) ==>
                  && c.owner in Objects(db)
                  && (c in u.concerns <==> (c.owner, c.cause) in failing)
                  && ((n, c) in u.links <==>
                      (c.owner, c.cause) in failing && ((n, c) in t.links || n in Affected(db, c.owner))))
            && (!Due(db, obj, c) ==>
                  && (c in u.concerns <==> c in t.concerns)
                  && ((n, c) in u.links <==> (n, c) in t.links))
  {
    AffectedAreObjects(db, obj);
    if c.Issue? {
      CausesByKind(c.owner.kind, c.cause);
      assert c in IssuesOf(Affected(db, obj)) <==> c.owner in Affected(db, obj) && c.cause in CausesOf(c.owner.kind);
    }
    hide References, Affected, Objects, CausesOf, HasCause;
  }

  lemma CausesByKind(kind: Kind, cause: Cause)
    ensures cause in CausesOf(kind) <==> HasCause(kind, cause)
  {
  }

  /** The whole of a clean-up: issues and flags of deleted owners go, those that stay lose what their owner
      does not affect, and locks are left alone. */
  lemma CleanedByConcern(db: Db, t: Table, c: Concern, n: Key)
    requires References(db) && forall l :: l in t.links ==> l.1 in t.concerns
    ensures var u := Cleaned(db, t, t.concerns);
            && (c in u.concerns <==> c in t.concerns && (c.Lock? || c.owner in Objects(db)))
            && ((n, c) in u.links <==>
                (n, c) in t.links && (c.Lock? || (c.owner in Objects(db) && n in Affected(db, c.owner))))
  {
    hide References, Affected, Objects;
  }
}
