# ADCM: models and proofs

This project models the parts of the Arenadata Cluster Manager whose behaviour depends on order,
sharing or recursion, and proves what they promise. `dafny verify dfyconfig.toml` checks all of it.

**The status server** (`go/adcm/status`). Hosts and host-components report statuses; a report is a
lease that a timer takes back. `Storage.dfy` is the store with its counters and timers, `Leases.dfy`
shows that it is a lease map over whole histories. `Topology.dfy` and `Keys.dfy` are the service map
and its text keys, `Aggregation.dfy` the statuses of services, components and clusters and what they
mean, `StatusNumbers.dfy` the numbers they show and what a report stores. `StatusEvents.dfy` is the server as a state machine: reports and expiring timers save statuses,
compare them later and broadcast the changes; its main theorem, `ClientInSync`, is about a client that
joins, takes a snapshot and applies what it receives. There the check of a timer follows its clear at
once; `Interleaving.dfy` takes requests and timers apart into saves, writes, clears and checks that may
mix in any order, as the goroutines of the closures allow, and says exactly when the same client, with
its snapshot taken at any point, is still right; `Schedules.dfy` tells from the order of the parts when
it is, without reading the final table, and has a run from an empty server after which it is not.
`ServiceEvents.dfy` and `ServiceRuns.dfy` settle the same question for service events, where the answer
is no in general, and say exactly when it is yes. `StatusServer.dfy` holds the objects themselves, each
method proved to be one step of that machine. A timer is a step of its own and may fire at any time after its start; where the order of
timers matters (`Leases`), delivery in start order, which a constant timeout is meant to give, is an
explicit hypothesis of `StoreIsLeaseMap`; `AlwaysLeaseMapIff` gives the exact condition without it, and a
counterexample shows a history that breaks it.

**Hierarchy and issues** (`python/cm`). `Inventory.dfy` is the stored relation of clusters, services,
components, hosts and providers, `Ancestry.dfy` who is above and affected, row by row; `Hierarchy.dfy` is the tree of linked nodes built by walking up from
an object and then down from the root, `HierarchyClosure.dfy` shows that what the tree reports is the
closure of the relation. `Issues.dfy` keeps issues attached to what their owners affect.

**Permissions** (`python/rbac`). `Policies.dfy` has the object permission rows that policies share,
`Roles.dfy` the walk by which a composed role is applied to an object.

**Recursive checks and closures.** `Checker.dfy` is the schema checker with its error paths,
`Requires.dfy` the walk over required prototypes, `HostVariants.dfy` the host predicate solver over the
order of names in `TextOrder.dfy`.

**Reconciliation and configuration.** `Imports.dfy` replaces the import bindings of an object,
`ConfigPatch.dfy` compares two configurations and patches one in place, `GroupConfig.dfy` merges a
host group's configuration with its parent's, `Versions.dfy` numbers versions, `Lockout.dfy` blocks
users after failed logins.

Properties that the code does not have are stated together with the exact condition under which it
does, and a lemma with a case where it fails:

- service events on expiry: `ServiceRuns.ServiceEventsReliableIff`, failing in `ServiceRuns.MisleadingRun`
- cluster and host events when saves fall between a change and its check: `Interleaving.ClientIsRightIff`,
  failing in `Schedules.EventLostFromEmpty`
- the content type of a shared permission row: `Policies.SharedRowIntactIff`, failing in
  `Policies.SharedRowOverwritten`
- the declared default of a selection rule: `Checker.DeclaredIsDecidedIff`, failing in
  `Checker.DefaultRefused`
- a difference of configurations passed back as a patch: `ConfigPatch.StoredDiffThenPatchIff`, failing in
  `ConfigPatch.UnsetIntegerIsRefused`
- equal numbers for equal versions: `Versions.AlwaysTellIff`, failing in `Versions.EqualMayDiffer`

A composed role that skips a kind of objects nobody lists grants less than the full walk exactly when an
action role matches a skipped object (`Roles.ShortcutIsFullWalkIff`); action roles are created with the
kind of their action's objects (`python/rbac/upgrade/role.py:177-195`), so `Roles.ListedActionsAreGranted`
applies to them.

Where a loop runs over an unordered collection, the methods pick elements in any order, so what they
promise holds for every order. A raised exception is a `Failed`, `Refused`, `Error` or `false` result.
Python equality identifies `True`, `1` and `1.0`; values are taken up to that equality.

Two places where code and text disagree, and the model follows the code: the docstring of the
hierarchy tree draws providers below hosts (`python/cm/hierarchy.py:106-110`), but the downward walk
finds nothing below a host (`python/cm/hierarchy.py:148-149`), so hosts do not affect their provider;
and the schema checker looks for `default_variant` in the name of the rule instead of the rule
(`python/cm/checker.py:148`).

## Model

| member | source | states |
|---|---|---|
| Keys.PairKeyRoundTrip | go/adcm/status/service_map.go:210-221 | a printed "host.component" key splits into exactly its two numbers and is read back as the pair it was printed from, for every pair of 64-bit ids |
| Keys.PairKeyInjective | go/adcm/status/handlers.go:311 | two host-components never share a key |
| Keys.IntTextParses | go/adcm/status/service_map.go:210-221 | what `Atoi` makes of a printed number is that number, clamped to 64 bits |
| Keys.EventKeysDistinct | go/adcm/status/status_event.go:39-49 | the slots "hc.", "host." and "cluster." of the event table never collide |
| Keys.KeysAreTexts | go/adcm/status/status_event.go:39-49 | keys are decimal texts: host 12 and component 7 make "12.7", their slot is "hc.12.7", those of host and cluster 12 are "host.12" and "cluster.12" |
| Keys.AtoiOfOthers | go/adcm/status/service_map.go:210-221 | text that is not a number reads as 0, even if it starts with one |
| Keys.AtoiOfSigns | go/adcm/status/service_map.go:210-221 | a plus sign is read over, and an empty text or a sign alone reads as 0 |
| Topology.InitServiceMap | go/adcm/status/service_map.go:195-203 | the host index holds exactly the listed hosts, each under a cluster that lists it, and is the inverse of the lists when these are disjoint |
| Topology.GetComponentHosts | go/adcm/status/service_map.go:210-221 | exactly the hosts some key places the component on |
| Topology.ServiceMaps.ComponentKeysTogether | go/adcm/status/service_map.go:210-221 | in a consistent map a service lists all keys of a component or none |
| StatusStorage.DbMap2.Get | go/adcm/status/storage.go:185-191 | the stored status if there is one, else a zero value |
| StatusStorage.DbMap2.Set | go/adcm/status/storage.go:201-217 | a new entry starts at counter 0, a live one is overwritten with its counter one higher; 201 or 200 |
| StatusStorage.DbMap2.Clear | go/adcm/status/storage.go:219-224 | the entry goes exactly if its counter is the one given |
| StatusStorage.Storage.Set | go/adcm/status/storage.go:126-163 | one served set: the whole new store, with the timer it started |
| StatusStorage.Storage.StartTimer | go/adcm/status/storage.go:235-247 | with a timeout, one pending clear with the counter of this moment; without, nothing |
| StatusStorage.Storage.Expire | go/adcm/status/storage.go:126-156 | one served clear: the whole new store, and the closure to run |
| Leases.StoreIsLeaseMap | go/adcm/status/storage.go:126-224 | in every history with timers delivered in start order, the store reads as the map of most recent sets whose own timer has not fired |
| Leases.OldTimersAreHarmless | go/adcm/status/storage.go:219-247 | only the timer of the most recent set removes a value, it does remove it, and it touches no other entry, across deletes and restarted counters |
| Leases.ExpireRemovesIffLast | go/adcm/status/storage.go:219-224 | a timer removes its entry if and only if it belongs to the most recent set of its key |
| Leases.LastTimerIsAlone | go/adcm/status/storage.go:235-247 | when the timer of the most recent set fires, no other timer of its key is left |
| Leases.OutOfOrderTimerRemovesNewerValue | go/adcm/status/storage.go:201-217 | counterexample: delivered out of order, an old timer removes a newer value, because counters restart at 0 |
| Leases.ExpiryKeepsLeaseIff | go/adcm/status/storage.go:219-224 | with timers in any order, an expiry keeps the lease reading iff its timer belongs to the most recent set, or the entry is gone, or the entry has another counter |
| Leases.AlwaysLeaseMapIff | go/adcm/status/storage.go:126-224 | with timers delivered in any order, the store reads as the lease map at every moment of a history iff every delivered timer is harmless in that sense |
| Leases.NoTimeoutKeepsValues | go/adcm/status/storage.go:235-238 | without a timeout every key keeps its most recent value for ever |
| Aggregation.ServiceStatusMeaning | go/adcm/status/status.go:137-158 | a service is 0 iff every host-component outside maintenance mode is stored as 0 |
| Aggregation.DetailsMeaning | go/adcm/status/status.go:137-158 | the details are exactly the host-components outside maintenance mode with their stored statuses |
| Aggregation.ComponentMapMeaning | go/adcm/status/handlers.go:57-85 | a component is in the per-component map iff some detail is about it, and is 0 there iff all of these are 0 |
| Aggregation.BulkAgreesWithSingle | go/adcm/status/status.go:160-252 | in a consistent map each entry of the bulk view is 0 iff the single-component query answers 0 |
| Aggregation.ActiveHostsAreShown | go/adcm/status/status.go:137-158 | a service that shows a component shows all hosts the component is active on |
| Aggregation.ClusterServiceStatusMeaning | go/adcm/status/status.go:212-252 | 0 iff there are services and all are up |
| Aggregation.ClusterHostStatusMeaning | go/adcm/status/status.go:188-210 | 0 iff there are hosts and all outside maintenance mode are stored as 0 |
| Aggregation.ClusterStatusMeaning | go/adcm/status/status.go:254-268 | a cluster is 0 iff it has services and hosts and everything outside maintenance mode is stored as 0 |
| Aggregation.ClusterStatusFrame | go/adcm/status/status.go:188-268 | a cluster depends on nothing but its own hosts and host-components |
| StatusNumbers.ServiceNumber | go/adcm/status/status.go:137-158 | a service that is not up shows the number of the last listed host-component outside maintenance mode that is not stored as 0 |
| StatusNumbers.ClusterNumber | go/adcm/status/status.go:188-268 | a cluster that is not up shows the number of its last bad service; if its services are up, that of its last bad host outside maintenance mode; 32 without services or, after that, without hosts |
| StatusNumbers.ComponentMapNumber | go/adcm/status/handlers.go:57-85 | in the per-component map a component shows its first detail that is not 0 |
| StatusNumbers.ComponentAnswerSays | go/adcm/status/status.go:160-186 | read off the host-component table: 32 when it has no key of the component; with one, 0 iff the component is in maintenance mode or stored as 0 on every host outside it, else a number stored for one of those hosts |
| StatusNumbers.DetailAt | go/adcm/status/status.go:137-158 | the detail of an active key stands behind those of the keys before it |
| StatusNumbers.DetailCount | go/adcm/status/status.go:137-158 | there are as many details as active keys |
| StatusNumbers.SnapshotHasAll | go/adcm/status/handlers.go:57-85 | the snapshot has every cluster with a service entry and every host of a cluster, and nothing else |
| StatusNumbers.HostReportStores | go/adcm/status/handlers.go:261-283 | after a host report exactly that host has the reported status and everything else what it had; nothing is stored for a host in no cluster |
| StatusNumbers.HcReportStores | go/adcm/status/handlers.go:300-325 | after a host-component report exactly that host-component has the reported status and everything else what it had; nothing is stored for an unknown one |
| StatusNumbers.NothingReported | go/adcm/status/storage.go:185-191 | a status nobody reported reads as 16 |
| StatusNumbers.ComponentNews | go/adcm/status/status_event.go:51-68 | a component is announced iff its number differs from the one saved with this host-component, with the new one |
| StatusEvents.EveryStepGood | go/adcm/status/status_event.go:39-114 | every request and timer keeps the saved cluster and host statuses equal to the freshly aggregated ones; the last message of a step about a cluster or host is its new status if the status changed, and there is none if it did not |
| StatusEvents.RunNewsExact | go/adcm/status/status_event.go:51-84 | over any run, the last message about a cluster or host carries its present status, and without one its status is what it was |
| StatusEvents.ClientInSync | go/adcm/status/status_event.go:39-114 | a client that joins, takes a snapshot at any later time and applies all messages since it joined holds the current status of every cluster and host it was shown |
| StatusEvents.SetHostGood | go/adcm/status/handlers.go:261-283 | the step theorem for a host report |
| StatusEvents.SetHostCompGood | go/adcm/status/handlers.go:300-325 | the step theorem for a host-component report |
| StatusEvents.HostTimerGood | go/adcm/status/handlers.go:261-283 | the step theorem for a host timer and the check it runs |
| StatusEvents.HcTimerGood | go/adcm/status/handlers.go:300-325 | the step theorem for a host-component timer and the check it runs |
| StatusEvents.ReplayOverSnapshot | go/adcm/status/ws.go:67-86 | messages older than the snapshot do no harm when all are applied |
| StatusEvents.SnapshotIsCurrent | go/adcm/status/handlers.go:57-85 | the snapshot shows the current status of everything in it |
| Interleaving.StepIsParts | go/adcm/status/handlers.go:261-325 | the parts of a request or timer played with nothing in between are its step |
| Interleaving.SaveWrites | go/adcm/status/status_event.go:39-49 | a save overwrites the saved statuses of its host or host-component and cluster with the present ones, and no others |
| Interleaving.CheckMentions | go/adcm/status/status_event.go:51-84 | a check mentions a cluster or host iff its saved status is not its present one, with the present one, and leaves the table as a save does |
| Interleaving.KnownIsSavedIff | go/adcm/status/storage.go:136-140 | after any parts in any order and from any first belief, what is known of a cluster or host from the messages agrees with the saved status iff an even number of its changes was not heard of: those overwritten by saves since the last mention and, without a mention, a first belief that differed from the saved status |
| Interleaving.ClientIsRightIff | go/adcm/status/storage.go:136-140 | a client that joins, takes a snapshot at any later point and applies all messages since it joined holds the current status of a cluster or host iff the changes it has not heard of, together with one that waits for its check, are even in number; a snapshot taken between a change and its check counts as one |
| Schedules.SettledClientIsRightIff | go/adcm/status/status_event.go:39-84 | for an object that was saved or checked at all, at a moment when every write that reaches it was followed by a save or check of it, the client is right iff it has not heard of an even number of changes |
| Schedules.NothingOverwrittenIsRight | go/adcm/status/status_event.go:39-84 | and it is right there if no save overwrote a change and its snapshot was not taken between a change and its check |
| Schedules.OrderlyClientInSync | go/adcm/status/status_event.go:39-84 | a condition on the order of the parts alone: if an object is saved only when its last write was followed by a save or check, and reached or checked only after it was saved, a client with a snapshot at such a moment is right at every such moment |
| Schedules.StepIsOrderly | go/adcm/status/handlers.go:261-325 | every request and every timer with its check right after it is orderly in that sense, for every cluster and host, from every coherent state |
| Schedules.ClusterEventLost | go/adcm/status/storage.go:136-140 | a failing case, a merge of the parts of one timer and one report: a host timer takes a cluster down, another host repeats its report before the check, and a client that was shown the cluster up still holds it to be up |
| Schedules.EventLostFromEmpty | go/adcm/status/storage.go:136-140 | the same on a server that started empty, after one report of each of two hosts |
| ServiceEvents.ExpiryMisleadsIff | go/adcm/status/status_event.go:51-68 | one expiring timer misleads a service's client exactly when the number saved for its host-component is already the new status while the service changed |
| ServiceEvents.SetHostCompServiceExact | go/adcm/status/handlers.go:300-325 | the service event of a report is always right |
| ServiceEvents.ServiceUnmoved | go/adcm/status/status.go:137-158 | only a write to a listed host-component outside maintenance mode can move a service |
| ServiceRuns.ServiceEventsReliableIff | go/adcm/status/status_event.go:51-68 | service events are right in every run from an empty server if and only if host-component timers are off or at most one host-component of the service is outside maintenance mode |
| ServiceRuns.SilentExpiry | go/adcm/status/status_event.go:51-68 | the failing case: the first of several reporters expires, the service goes down and nobody is told |
| ServiceRuns.MisleadingRun | go/adcm/status/status_event.go:51-68 | for every service with two active host-components such a run exists |
| StatusServer.WsHub.Register | go/adcm/status/ws.go:67-86 | a new client receives every message broadcast from now on, and the others what they would have received |
| StatusServer.WsHub.Unregister | go/adcm/status/ws.go:67-86 | a registered client is dropped and closed, anyone else is left alone |
| StatusServer.WsHub.Broadcast | go/adcm/status/ws.go:67-91 | each registered client has received exactly the messages broadcast since it joined, in order |
| StatusServer.Hub.GetServiceStatus | go/adcm/status/status.go:137-158 | the loop computes the aggregation the lemmas speak of |
| StatusServer.Hub.GetComponentStatus | go/adcm/status/status.go:160-186 | up, not placed or in maintenance mode, or the status of one of the hosts it is not up on, in whatever order hosts are visited |
| StatusServer.Hub.GetClusterHostStatus | go/adcm/status/status.go:188-210 | the aggregate and the status of exactly the hosts outside maintenance mode |
| StatusServer.Hub.GetClusterServiceStatus | go/adcm/status/status.go:212-252 | the aggregate and the details of exactly the listed services |
| StatusServer.Hub.ShowAll | go/adcm/status/handlers.go:57-85 | the snapshot a client starts from: all clusters with the status and details of each service and host in them, and all hosts in clusters |
| StatusServer.Hub.SaveHcStatus | go/adcm/status/status_event.go:39-43 | the saved table of the specification step |
| StatusServer.Hub.SaveHostStatus | go/adcm/status/status_event.go:45-49 | the saved table of the specification step |
| StatusServer.Hub.CheckHcStatus | go/adcm/status/status_event.go:51-68 | messages and saved table of the specification step, delivered to every client |
| StatusServer.Hub.CheckHostStatus | go/adcm/status/status_event.go:70-84 | messages and saved table of the specification step, delivered to every client |
| StatusServer.Hub.SetHostStatus | go/adcm/status/handlers.go:261-283 | the request is the specification step, and stores the reported status; 404 without effect for a host in no cluster, else 200 or 201 |
| StatusServer.Hub.SetHostComponent | go/adcm/status/handlers.go:300-325 | the request is the specification step, and stores the reported status; 404 without effect for an unknown host-component, else 200 or 201 |
| StatusServer.Hub.HostTimerClears | go/adcm/status/storage.go:126-156 | the clear alone is one part of the interleaved machine, and the closure of the timer is handed back |
| StatusServer.Hub.HcTimerClears | go/adcm/status/storage.go:126-156 | the clear alone is one part of the interleaved machine, and the closure of the timer is handed back |
| StatusServer.Hub.RunClearFunc | go/adcm/status/handlers.go:261-325 | the closure alone is one part of the interleaved machine, with the messages of its check |
| StatusServer.Hub.HostTimerFires | go/adcm/status/storage.go:126-156 | the clear and the check of its closure, with nothing in between, are one specification step |
| StatusServer.Hub.HcTimerFires | go/adcm/status/storage.go:126-156 | the clear and the check of its closure, with nothing in between, are one specification step |
| Hierarchy.Node.AddChild | python/cm/hierarchy.py:54-58 | refused iff the child is a parent or the node itself |
| Hierarchy.Node.AddParent | python/cm/hierarchy.py:60-64 | refused iff the parent is a child or the node itself |
| Hierarchy.Tree.BuildTreeUp | python/cm/hierarchy.py:159-179 | terminates, raises no cycle error, and adds exactly the ancestors and the links among them |
| Hierarchy.Tree.BuildTreeDown | python/cm/hierarchy.py:128-157 | terminates, raises no cycle error, and adds exactly the descendants and the links among them |
| Hierarchy.Tree.Build | python/cm/hierarchy.py:112-118 | parents and children stay mutually inverse and the links are exactly those of both walks |
| Hierarchy.Tree.GetParents | python/cm/hierarchy.py:66-73 | all nodes linked above, directly or not |
| Hierarchy.Tree.GetChildren | python/cm/hierarchy.py:75-82 | all nodes linked below, directly or not |
| Hierarchy.Tree.GetDirectlyAffected | python/cm/hierarchy.py:190-198 | the node and both closures, without the root |
| Hierarchy.UpEdgesMeaning | python/cm/hierarchy.py:159-179 | the links of the upward walk are exactly the parent relation on the object and its ancestors |
| HierarchyClosure.TreeEdgesMeaning | python/cm/hierarchy.py:112-179 | a link is in the tree iff it belongs to the object or an ancestor, or lies below a cluster the walk reached |
| HierarchyClosure.TreeLinkIsParent | python/cm/hierarchy.py:128-157 | every link, also those of the downward queries, is a parent the database knows |
| HierarchyClosure.TreeClosureUp | python/cm/hierarchy.py:66-73 | parents in the tree are the relational ancestors |
| HierarchyClosure.TreeClosureDown | python/cm/hierarchy.py:75-82 | children in the tree are the relational descendants |
| HierarchyClosure.DescendantsAreConverse | python/cm/hierarchy.py:128-179 | the downward queries reach exactly what the upward queries come from |
| HierarchyClosure.TreeAffectedIsClosure | python/cm/hierarchy.py:190-198 | for every consistent database the affected set of the finished tree is the relational closure without the root |
| Inventory.AffectedSymmetric | python/cm/hierarchy.py:190-198 | being affected is mutual among clusters, services, components and hosts; a provider affects its hosts and is affected by none |
| Inventory.QueriesInverse | python/cm/hierarchy.py:128-179 | the parent query and the child query of two objects agree |
| Ancestry.AncestorsByRow | python/cm/hierarchy.py:159-179 | read off the stored rows: above a service is its cluster, above a component its service and cluster, above a host what its mapping rows name, above a provider its own hosts and what these are mapped under |
| Ancestry.AffectedByRow | python/cm/hierarchy.py:190-198 | an object affects itself, what is above it by these rows, and, providers aside, what it is above |
| Ancestry.ProviderBothWays | python/cm/hierarchy.py:128-179 | up and down a provider has the same neighbours, exactly its hosts |
| Issues.ConcernTable.AddIssueOnLinkedObjects | python/cm/issue.py:90-100 | the issue exists and is attached to everything its owner affects; nothing else changes |
| Issues.ConcernTable.RemoveIssue | python/cm/issue.py:103-108 | the issue and its attachments go; nothing else changes |
| Issues.ConcernTable.RecheckIssues | python/cm/issue.py:111-118 | every own issue of the object, and none other, is brought in line with its check |
| Issues.ConcernTable.UpdateHierarchyIssues | python/cm/issue.py:121-126 | the same for all affected objects, whatever the order they are visited in |
| Issues.ConcernTable.UpdateIssuesAndFlagsAfterDeleting | python/cm/issue.py:129-141 | ownerless issues and flags go, others are detached from what their owner does not affect; locks are left alone |
| Issues.UpdateAttachesAll | python/cm/issue.py:121-126 | for every affected object and cause of its type an own issue exists iff the check fails, and is attached to at least all its owner affects |
| Issues.UpdateMakesAccurate | python/cm/issue.py:121-141 | after the clean-up its attachments are exactly the affected set, whatever the table was before |
| Issues.IssuesCatchUp | python/cm/issue.py:121-141 | a correct table is correct again after a change confined to what the updated object affects |
| Issues.OthersOnlyCleaned | python/cm/issue.py:121-141 | issues of objects that are not affected keep existing or not, and only lose attachments their owner does not affect |
| Issues.CleanedIsTidy | python/cm/issue.py:129-141 | no attachment without a concern and no issue or flag without an owner is left |
| Issues.CausesByKind | python/cm/issue.py:75-87 | every object is checked for its configuration, clusters and services for imports, clusters for required services and their mapping, services for requirements |
| Issues.UpdatedByConcern | python/cm/issue.py:111-126 | for every concern and object, what an update leaves: own issues of affected objects exist iff the check fails and are attached to all their owner affects besides what they were, all other concerns are as they were |
| Issues.CleanedByConcern | python/cm/issue.py:129-141 | for every concern and object, what a clean-up leaves: issues and flags of deleted owners go, the others lose what their owner does not affect, locks keep everything |
| Policies.PermissionTables.AssignGroupPerm | python/rbac/roles.py:74-108 | one row per group, inserted or its content type overwritten, each linked to the policy |
| Policies.PermissionTables.RemovePermissions | python/rbac/models.py:261-317 | own rows that no other policy links and nobody asked to keep go, with their links |
| Policies.PermissionTables.KeptRows | python/rbac/models.py:276-287 | the own rows on objects to be kept, by content type of row and permission and by group |
| Policies.PermissionTables.Apply | python/rbac/models.py:344-347 | removal, then the role's grants |
| Policies.PermissionTables.Delete | python/rbac/models.py:335-338 | removal, then every remaining link of the policy |
| Policies.ApplyLinks | python/rbac/models.py:344-347 | after apply a policy is linked to exactly what its role grants and those old rows that others share or that were to be kept |
| Policies.ApplySparesOthers | python/rbac/models.py:261-347 | apply changes no other policy's links and removes none of its rows |
| Policies.SharedRowIntactIff | python/rbac/roles.py:91-95 | a row shared with another policy stays as it was iff the last grant of that row names the content type it has |
| Policies.SharedRowOverwritten | python/rbac/roles.py:91-95 | counterexample: the conflict key leaves out the content type, so a grant on a host rewrites the row of a cluster with the same id |
| Policies.TypedRunSparesRows | python/rbac/roles.py:74-108 | if permissions are granted only on objects of their own type, no operation on other policies changes a policy's rows in any way |
| Policies.RunKeepsValid | python/rbac/models.py:261-347 | over any sequence of apply and delete every link leads to a row and every row is linked |
| Policies.RunSparesBystander | python/rbac/models.py:261-347 | over any sequence that does not act on a policy, it keeps its links and the rows behind them |
| Policies.ApplyTwice | python/rbac/models.py:344-347 | applying a policy again with the same objects to keep changes nothing |
| Policies.DeleteEffect | python/rbac/models.py:335-338 | delete leaves nothing of the policy and everything of the others |
| Policies.DeleteKeepsValid | python/rbac/models.py:335-338 | delete leaves no row without a link |
| Policies.ApplyByRow | python/rbac/models.py:261-347 | for every row, what an apply leaves: it is there iff it was asked for, or was there and is not the policy's alone without being on an object to be kept of the type of its permission for a group of the policy; who is linked; and an unasked row keeps its content type |
| Policies.LastGrantDecides | python/rbac/roles.py:91-95 | a row that was asked for has the content type of the last grant asking for it |
| Policies.DeleteByRow | python/rbac/models.py:335-338 | for every row, what a delete leaves: it is there iff another policy links it, as it was |
| Roles.ParentRole.FindAndApply | python/rbac/roles.py:331-340 | exactly the child roles that go by the object's kind, or by an action of its prototype, are applied to it |
| Roles.ParentRole.ApplyTo | python/rbac/roles.py:355-405 | exactly the visited part of the subtree, and what is above a service or component becomes viewable |
| Roles.ParentRole.Apply | python/rbac/roles.py:342-405 | the same for each object of the policy, calls and what becomes viewable |
| Roles.ShortcutIsFullWalkIff | python/rbac/roles.py:351-405 | skipping kinds nobody is parametrized by grants what a walk of the whole subtree would grant if and only if no action role matches an object of a skipped kind |
| Roles.ListedActionsAreGranted | python/rbac/roles.py:351-405 | so it does whenever each action role lists the kind of its action's objects |
| Roles.SubtreeIsBelow | python/rbac/roles.py:375-399 | the subtree of a service or component is the part of the hierarchy it is above |
| Roles.CallsByRow | python/rbac/roles.py:331-405 | read off the stored rows: the child roles applied for a cluster, service, component, host or provider, to which services, components and hosts, and why each child matches |
| Roles.ViewedByRow | python/rbac/roles.py:355-405 | made viewable is what is above a service or component, and nothing for other objects |
| Checker.ProcessRule | python/cm/checker.py:214-229 | the recursive check with all its outcomes, terminating by data and then rule rank |
| Checker.MatchList | python/cm/checker.py:106-113 | items in order up to the first that is not fine, each under its own index |
| Checker.MatchDict | python/cm/checker.py:116-134 | required keys, then entries in order, each under its own key, against its own rule, the default or refused |
| Checker.MatchOneOf | python/cm/checker.py:155-170 | all alternatives are tried, only format errors are caught, and the collected errors are reported |
| Checker.VerdictIsConformance | python/cm/checker.py:91-229 | on every schema and value: accepted implies conforming, refused implies not conforming |
| Checker.CheckDecides | python/cm/checker.py:91-229 | on a closed schema and data with scalar selector values there is always a verdict, and it is conformance |
| Checker.ErrorsAreGrounded | python/cm/checker.py:91-170 | the path of every error and of all its nested causes leads from the root document to the stored value, and that value breaks the named rule |
| Checker.OneOfExplains | python/cm/checker.py:155-170 | a failed one_of carries the error of every alternative, in order, followed by all the errors those collected |
| Checker.NestedAt | python/cm/checker.py:155-170 | the nested errors of an alternative come behind those of the alternatives before it, in order |
| Checker.ScalarRules | python/cm/checker.py:173-201 | what each rule on scalars accepts, sets by the equality of the language; the rest is refused at the path of the value |
| Checker.DictRuleConforms | python/cm/checker.py:116-134 | a dictionary conforms iff its required keys are there and each entry conforms to the rule listed for its key, or else to the default rule |
| Checker.SelectionByVariant | python/cm/checker.py:137-145 | a listed selector value is judged by the variant listed for it |
| Checker.FirstBadItem | python/cm/checker.py:106-113 | a list is judged by its first item that is not fine, at the path of that item |
| Checker.FirstBadEntry | python/cm/checker.py:116-134 | a dictionary is judged by its first entry that is not fine, at the path of that entry |
| Checker.NoVerdict | python/cm/checker.py:137-229 | a rule or match that is not there is a schema error, a selector value that cannot be a key a type error, a default that is looked for and not declared a key error |
| Checker.LooksForDefaultIff | python/cm/checker.py:146-152 | the words are looked for anywhere in the name of the rule |
| Checker.DefaultServesIff | python/cm/checker.py:137-152 | for an unlisted selector value the outcome of the check, error and path included, is that of the declared default iff the name of the rule contains the words, whatever the rule itself declares |
| Checker.DeclaredIsDecidedIff | python/cm/checker.py:137-152 | a closed schema is checked for what it declares, defaults of selections included, if and only if no selection whose name lacks the words has a default that would accept some unlisted value |
| Checker.NamedDefaultsAreDecided | python/cm/checker.py:137-152 | it suffices that no selection whose name lacks the words declares a default |
| Checker.DefaultRefused | python/cm/checker.py:146-152 | the failing case: a selection named "root" declares a default that accepts the value, and the checker refuses it |
| Checker.DefaultsIgnored | python/cm/checker.py:148 | in a schema whose rule names avoid the words, declaring defaults changes no outcome |
| Requires.Walk.ProcessRequires | python/api/utils.py:156-186 | terminates on cyclic graphs; everything visited on the way is reachable, written down and followed, and only that is written down |
| Requires.Walk.Follow | python/api/utils.py:163-184 | one requirement: recorded, then its service and component visited |
| Requires.GetRequires | python/api/utils.py:189-217 | nothing iff the prototype requires nothing; an error iff some reachable prototype names something that is not there; else exactly the services and components named by some reachable prototype |
| Requires.WalkIsClosure | python/api/utils.py:156-186 | a finished walk with a shared visited list is the reachability closure |
| Requires.ClosedSetHoldsReached | python/api/utils.py:177-184 | not entering prototypes that require nothing, or were visited, loses nothing |
| Requires.AddingServiceReachesLess | python/api/utils.py:177-184 | with `adding_service` only service edges are followed, and nothing new is reached |
| Requires.NextByRow | python/api/utils.py:156-186 | a requirement leads to the service of that name in the bundle and, unless a service is being added, to its component of that name |
| Requires.UnresolvedByRow | python/api/utils.py:163-184 | an answer is missing iff a reachable prototype names a service its bundle does not have or a component that service does not have |
| Requires.FoundByRow | python/api/utils.py:189-217 | the prototypes of an answer are those stored under the names it shows |
| Imports.SuitableIsInterval | python/cm/api.py:109-126 | the version test is membership in the declared interval: a strict bound is excluded and counts even when empty, any other is included and ignored when empty |
| Imports.CookKeyInjective | python/cm/api.py:713-717 | two sources never share a key |
| Imports.BindTable.MultiBind | python/cm/api.py:746-820 | succeeds if and only if the request fits, every dropped binding may be dropped and no prototype is bound twice without multibind; then the importer has exactly what was requested and the rest of the table is as it was; when it fails it has bound nothing it was not asked for; requested bindings that were there stay, a request that does not fit changes nothing, and one with a binding that must stay binds nothing |
| Imports.BindTable.CheckItems | python/cm/api.py:754-786 | accepts iff every item names an import of the importer that its export meets by name and version, and no source comes twice |
| Imports.BindTable.UnbindOld | python/cm/api.py:788-795 | drops exactly the bindings not requested, or stops where one may not be dropped |
| Imports.BindTable.BindNew | python/cm/api.py:797-809 | adds exactly the bindings requested, or stops where one would clash |
| Imports.BindTable.CheckMultiBind | python/cm/api.py:877-895 | refuses iff the import is not multibind and a source of the same prototype is bound |
| Imports.SuccessIsReplacement | python/cm/api.py:746-820 | a binding is in the table after a success iff it was requested, or belongs to another importer and was there |
| Imports.AcceptedByRow | python/cm/api.py:746-820 | a call succeeds iff every source is an instance of an export of a declared name within the version range and none comes twice, every dropped source has an import that is no inactive default, and two sources of one prototype are allowed by multibind or were both bound |
| Imports.RunKeepsSingle | python/cm/api.py:877-895 | over any run of calls, successful or not, an import without multibind is never bound twice to one source prototype |
| Imports.RunSparesOthers | python/cm/api.py:746-820 | over any run, an importer nobody calls for keeps its bindings |
| Imports.RepeatIsNoChange | python/cm/api.py:746-820 | asking again for what is bound succeeds and changes nothing |
| Imports.TwoVersionsBothBound | python/cm/api.py:877-895 | the guard is per source prototype: two versions of one export can both be bound through an import without multibind |
| ConfigPatch.ParseFlatKey | python/ansible_plugin/executors/config.py:213-214 | a flat key splits into the name and the subname it was built from |
| ConfigPatch.GetAt | python/ansible_plugin/executors/config.py:209-227 | "name/" reads the parameter at the top, "name/sub" the one inside the group |
| ConfigPatch.CastByKind | python/ansible_plugin/utils.py:46-58 | an integer is cut towards zero or parsed, a float kept or parsed, anything else of these kinds refused, and other kinds are kept |
| ConfigPatch.CastOfOption | python/cm/adcm_config/config.py:787-795 | an option is kept if it is listed, read as an integer if it is digits and as a float if it is digits, a dot and digits, and else refused |
| ConfigPatch.StrippedKey | python/ansible_plugin/executors/config.py:229-244 | the slashes a key ends in are cut off |
| ConfigPatch.Target.FillConfigAndAttr | python/ansible_plugin/executors/config.py:192-246 | refused exactly for an unknown key, a value its kind cannot be cast from, an absent parameter or a group without a switch; else the patched configuration and the changed flag |
| ConfigPatch.PatchLeaves | python/ansible_plugin/executors/config.py:209-227 | every named parameter gets its cast value, every other keeps its own, and changed says whether one was different |
| ConfigPatch.PatchSwitches | python/ansible_plugin/executors/config.py:229-244 | every named switch gets its value, every other keeps its own, and changed says whether one was different |
| ConfigPatch.PatchRefusedIff | python/ansible_plugin/executors/config.py:192-246 | refused iff some key is not in the specification, some value cannot be cast, some parameter is not there after the changes before it, or some switch is none |
| ConfigPatch.GetConfigsDiff | python/ansible_plugin/executors/manage_revision.py:178-220 | exactly the differing parameters and switches, each with its old and new value |
| ConfigPatch.NewSidesMeaning | python/ansible_plugin/executors/manage_revision.py:178-220 | the difference speaks of a parameter iff its two values differ, and of nothing else |
| ConfigPatch.OldSidesMeaning | python/ansible_plugin/executors/manage_revision.py:178-220 | the old side of a parameter is the value it had |
| ConfigPatch.NoneDiffer | python/ansible_plugin/executors/manage_revision.py:178-220 | the difference is empty iff the configurations are equal |
| ConfigPatch.DiffThenPatch | python/ansible_plugin/executors/manage_revision.py:178-220 | for any casts: passing the new sides of the difference to the patch of the old configuration gives the new one, with changed set iff there is a difference, if and only if the casts leave every new value as it is |
| ConfigPatch.DiffThenUndo | python/ansible_plugin/executors/manage_revision.py:178-220 | passing the old sides to the patch of the new configuration gives the old one back, if and only if the casts leave them as they are |
| ConfigPatch.StoredDiffThenPatchIff | python/ansible_plugin/utils.py:46-58 | so the round trip of two stored configurations is complete if and only if the new one unsets no integer, float or option that was set |
| ConfigPatch.UnsetIntegerIsRefused | python/ansible_plugin/utils.py:46-58 | the failing case: the difference mentions an integer that was unset, and the patch refuses it |
| ConfigPatch.PatchTwice | python/ansible_plugin/executors/config.py:192-246 | the same changes a second time report no change |
| ConfigPatch.UpdateRelatedConfigs | python/ansible_plugin/executors/config.py:170-189 | the first record of the old configuration is replaced unless it is at position 0, which the code takes for not found |
| GroupConfig.CreateGroupKeys | python/cm/models.py:834-869 | nothing is the group's own, at any depth |
| GroupConfig.FreshAt | python/cm/models.py:834-869 | at every path the fresh keys have what the specification has: parameters that are not the group's own, groups with a switch that is not its own if they are activatable and with none otherwise |
| GroupConfig.MergeConfig | python/cm/models.py:876-898 | the merge of the specification, computed by the recursive loops |
| GroupConfig.MergeAttr | python/cm/models.py:900-914 | the group's switch where it is its own, else the parent's |
| GroupConfig.LeafOfMerge | python/cm/models.py:876-898 | at every depth a parameter of the merge comes from the group iff its key is set and it is present there, and otherwise from the parent |
| GroupConfig.MergedNames | python/cm/models.py:876-898 | the merge has an entry for every group and for every parameter of the keys that is there to be had, and no others |
| GroupConfig.FreshKeysFollow | python/cm/models.py:834-898 | with fresh keys the merge is the parent configuration, whatever the group stored and whatever the parent becomes |
| GroupConfig.FreshSwitchesFollow | python/cm/models.py:834-914 | and so are the switches |
| GroupConfig.SwitchOfMerge | python/cm/models.py:900-914 | a switch is the group's own value where the keys say so and the parent's elsewhere |
| HostVariants.VarHostSolver | python/cm/variant.py:225-260 | every argument is solved to the sorted list its meaning denotes, without repetition except for the tests that list mapping rows; an error exactly where the meaning has none |
| HostVariants.VarHostAndOr | python/cm/variant.py:96-113 | sorted and duplicate-free intersection or union, empty for no arguments |
| HostVariants.CallFunction | python/cm/variant.py:211-222 | each predicate function against its meaning; an and or an or given one list of hosts instead of several takes the names apart into letters |
| HostVariants.SolverPicks | python/cm/variant.py:225-260 | every well-formed expression is solved, to exactly the hosts it picks |
| HostVariants.PicksWithinCluster | python/cm/variant.py:96-204 | only hosts of the cluster are picked |
| HostVariants.InOrNotIn | python/cm/variant.py:130-204 | each in/not-in pair parts the cluster's hosts when its target exists and picks none when it does not |
| HostVariants.MembershipArguments | python/cm/variant.py:116-185 | a membership test without a service name is an error, of an unknown service picks nothing, of a component without its name is an error, of an unknown component picks nothing |
| HostVariants.UnknownIsError | python/cm/variant.py:225-260 | any name but the nine, a predicate without arguments and a scalar are errors |
| HostVariants.ListIff | python/cm/variant.py:246-260 | a list is solved iff every item is a predicate that picks hosts, and then item by item |
| HostVariants.SinglePredicateIff | python/cm/variant.py:96-113 | an or over a single predicate stays inside the cluster iff every letter of the hosts it is given is the name of a host, an and iff every letter they share is |
| HostVariants.SinglePredicateLeaves | python/cm/variant.py:96-113 | the failing case: over the only host "h1" of a cluster, an or picks "h" |
| Lockout.User.ProcessLoginAttempts | python/audit/middleware.py:69-131 | the new account fields and the answer of one attempt: refused iff the policy is set and the block holds, or the failure brings the counter to the limit |
| Lockout.CounterCounts | python/audit/middleware.py:97-125 | in every run an unblocked user is below the limit, a blocked one exactly at it, and the counter is the number of failures since the last accepted success or expired block |
| Lockout.BlockedByLimitIff | python/audit/middleware.py:123-127 | a user becomes blocked exactly by the failure that makes the limit, as of that failure |
| Lockout.BlockLasts | python/audit/middleware.py:90-107 | every attempt within the block time is answered with a refusal and changes nothing |
| Lockout.ForbiddenIff | python/audit/middleware.py:90-131 | in every run the answer is a refusal iff the block time has not passed or this is the failure that makes the limit |
| Lockout.NoPolicyAllows | python/audit/middleware.py:84-88 | without a limit or a block time the attempt is let through and nothing is written |
| Lockout.BlockedInThePast | python/audit/middleware.py:121-124 | stored times are never in the future |
| Lockout.LastFailureIsIdle | python/audit/middleware.py:112-117 | the time of the last failure influences neither answer, counter nor block |
| Versions.OrderModelVersions | python/cm/bundle.py:350-365 | every object gets the number of changes of version text up to its place |
| Versions.SmallerGetsLess | python/cm/bundle.py:350-365 | a version that compares smaller gets a strictly smaller number |
| Versions.EqualGetEqualIff | python/cm/bundle.py:360-363 | equal texts get equal numbers iff the sorting leaves no other text between them |
| Versions.EqualGetEqual | python/cm/bundle.py:356-363 | equal numbers mean equal texts when only equal texts compare as equal |
| Versions.AlwaysTellIff | python/cm/bundle.py:350-365 | in every stably sorted list numbers are equal iff texts are, if and only if the comparison takes only equal texts as equal |
| Versions.NoGaps | python/cm/bundle.py:354-363 | the numbers leave no gap, starting at 1, or at 0 when the first version is empty |
| Versions.EqualMayDiffer | python/cm/bundle.py:356-363 | the failing case: where "1.0" and "1_0" compare as equal and other texts by their characters, a "1_0" between two "1.0" gives these different numbers |

## Left out

- Status server: HTTP, JSON, logging, authorization, websocket connections and pings; a request is one step, its parameters already decoded.
- Status server: changes of the service map and of maintenance mode in the middle of a run; the event theorems fix both.
- Status server: a single save, write, clear or check is one step; reads inside one of them that race with another goroutine are not split further. The number a component query returns may be that of any host the component is not up on.
- Status server: a slow client whose channel is full; the hub's send is taken to succeed.
- Status server: component events, whose old value is stored per host-component like that of service events.
- Status server: counters are unbounded here, 64-bit in the original; `get1`, `pure` and the unused commands.
- Hierarchy: `get_all_affected`, which nothing calls in the modelled parts. A set of nodes is kept as the set of their keys, since nodes compare and hash by key.
- Issues: the checks themselves are a set of failing (object, cause) pairs that does not read concerns; names, messages and notifications of concerns.
- Policies: the model-permission half of removal, which filters by permission and all groups of the policy; users, SQL text and transactions. A row is named by its unique key, and the grants of a role are the list of calls it makes to assign a permission to groups.
- Roles: what object, action, task and config roles grant once they are applied to an object, beyond the permission to view what is above it; roles nested in a composed role are applied on their own. The lookup of an action is its prototype.
- Checker: message texts, line numbers and the parent passed along for them; loading of YAML and the test that the input came from the loader; NaN and infinities; lists and dictionaries among the variants of a set rule; rules without the fields their match needs. Schemas whose one_of and selection rules refer to each other in a cycle, on which the original may not terminate.
- Requires: reading the answer out into a list of display data. A query answers with at most one prototype.
- Imports: the shape checks of the request, the import issue raised or removed afterwards, and the version comparison itself, which is a parameter; whether a default import is inactive is part of the inventory. No claim is made that a failed call undoes what it did.
- ConfigPatch: what `int()` and `float()` make of a text is a parameter; numbers are exact, without the rounding of floats or their infinities; a cast of a list or dictionary is a refusal. Attributes of a group other than its switch; the grouping of differences by target. In the search for the stored record of a configuration only the primary id is kept.
- GroupConfig: the map of fields that may be customized, computed beside the group keys in the same way; configurations that lack a section of the keys, on which the original raises.
- HostVariants: `inline_list`, which gives back a literal list. The database is taken to order host names as Python does, by character.
- Lockout: the audit records and the request handling around the attempt; minutes and clock are one unit.
- Versions: the comparison and the sorting itself; the theorems hold for whatever order the sort returns.
