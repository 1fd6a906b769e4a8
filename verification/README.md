# Verification of the PegaProx core

This project models the parts of PegaProx whose correctness is hardest to see by reading them, and proves what
they keep. `dafny verify dfyconfig.toml` checks all of it with Dafny 4.11.

**Cross-cluster EVPN orchestration** (`pegaprox/api/multi_sdn.py`, the `sdn_*.dfy` files). One logical vnet, a
*span*, is built as controller, zone, vnet and subnets on several independent clusters, and a database row is the
authority for it.

- `sdn_types.dfy` holds networks, one cluster's SDN objects and the definition of a span. `sdn_validate.dfy` checks
  the definition a caller sends.
- `sdn_remote.dfy` says what each per-cluster routine does to a `Remote`: a cluster together with the replies it is
  going to give. Every lookup, listing, POST, PUT, DELETE and reload takes the next reply, and replies are arbitrary,
  so a theorem about every `Remote` is a theorem about every pattern of partial failure.
- `sdn_manager.dfy` has the same routines as they run, methods of a class that change the remote state in place;
  each is proved to do what its function on `Remote` says.
- `sdn_world.dfy` says what each handler does to the world: all clusters, the table of spans, the register of creates
  in flight and the clock. `sdn_orchestrator.dfy` has the handlers as they run, proved against these functions.
- `sdn_build.dfy`, `sdn_rollback.dfy`, `sdn_edit.dfy` and `sdn_reconcile.dfy` prove what one routine on one cluster
  achieves and leaves alone; `sdn_outcomes.dfy` proves what each handler records, builds and removes;
  `sdn_invariant.dfy`, `sdn_create.dfy` and `sdn_scanner.dfy` prove what whole runs of handlers and scanner passes
  keep; `sdn_membership.dfy` and `sdn_inflight.dfy` split the handlers into their unlocked and locked parts and prove
  what every interleaving keeps.

**Smaller cores**, one module each, imperative where the source is: the request limiter (`rate_limiter.dfy`), the
login lockout (`login_guard.dfy`), the affinity check (`affinity.dfy`), the trend line (`regression.dfy`), the
downsampling of metrics history (`bucketing.dfy`), configuration drift (`text_order.dfy`, `drift.dfy`,
`drift_scan.dfy`), the cache of task users (`task_users.dfy`) and Prometheus sample lines (`exposition.dfy`).

## What the proofs found

Where the code does less than its documentation suggests, the model follows the code and the exact condition is proved.

- A reload that fails after its POSTs succeeded is never retried: the next build finds everything in place and reports
  success (`FailedReloadIsForgotten`). A build that reports success leaves a write without a reload if and only if there
  was one before it and it found nothing to do (`AppliedLeavesUnloadedIff`).
- A rollback does not undo subnets added under a vnet that was there before: the whole cluster is restored if and only
  if every deletion succeeded and no subnet was posted, or the vnet itself was created (`RollbackRestoresSubnets`).
- A member whose report is lost is not rolled back (`FailedCreateRestores`), and after a rollback with failed deletions
  references may dangle; exactly when is `RollbackClosedIff`.
- A create with `atomic` off can record a span that is not built, exactly when some member lacked objects and a reply to
  its lookup, its listings or the POSTs of those objects was a failure (`NonAtomicCreateIff`,
  `NonAtomicCreateCanBreak`).
- A member adds then deletes, the record deletes then adds: they agree if and only if the two sets of networks are
  disjoint (`EditAgreement`). In every interleaving the record's subnets are those the last committed edit computed from
  what it read before the lock (`LastEditDecides`). Of two racing edits nothing is lost if and only if every network the
  first added was recorded or is in the second edit, and every recorded network it deleted is in its own additions or in
  the second edit (`ConcurrentEditsLoseSubnets`). Membership changes are never lost (`LastWordDecides`).
- A reconcile repairs everything except a vnet with a different zone or tag, which stays in drift
  (`ReconcileConverges`).
- The limiter admits at most `2 * limit - 1` requests in any closed interval of one window, one less than twice the
  limit, and this is reached (`LimiterBound`, `BoundIsReached`).
- The drift report cannot tell a null value from a missing key: it reproduces the change if and only if no key is
  present on one side only with a null (`RoundTripIff`, `NullIsLost`). A scan right after a reset is quiet if and only
  if objects fetched under one key read alike (`QuietAfterReset`). Scanning never settles an event: each scan of the
  same state reports the same keys again, and besides only keys it seeded that were fetched with disagreeing objects
  (`ReportedAgain`, `RescanRepeats`).
- A task registered while the table could not be written is answered with the previous user once the cache has dropped
  it (`FailedWriteIsForgotten`); what a lookup answers in every case is `LookupAnswers`. A call that starts within the
  cap of the cache ends above it if and only if it is a lookup that finds its upid in the table and not in a full cache
  (`CrossesCapIff`, `LookupExceedsCap`).
- Bucketing groups by `ts / step` if and only if no sample falls in an earlier bucket than the one before it
  (`GroupsByKeyIff`).

## Model

| member | source | states |
|---|---|---|
| SdnTypes.CanonIsNetworkEquality | pegaprox/api/multi_sdn.py:584-589 | two valid networks of one family have the same canonical form if and only if they contain the same addresses |
| SdnValidate.Validate | pegaprox/api/multi_sdn.py:159-246 | a definition is accepted if and only if every check passes, otherwise the first check that fails is reported; what is accepted is the normalised form of what was sent, has VNI, ASN and VRF in range and meets the preconditions of the orchestration |
| SdnValidate.ReadPeers | pegaprox/api/multi_sdn.py:198-209 | accepts if and only if every non-blank peer is an address, and keeps the non-blank ones in order |
| SdnValidate.PeersMeaning | pegaprox/api/multi_sdn.py:198-209 | peer by peer, a blank one contributes nothing and any other its text |
| SdnValidate.ReadSubnets | pegaprox/api/multi_sdn.py:211-233 | accepts if and only if every subnet has a valid network and a blank or valid gateway, and keeps all in order |
| SdnValidate.MembersMeaning | pegaprox/api/multi_sdn.py:235-239 | the member list holds exactly the non-blank stripped ids, each once |
| SdnValidate.MembersKeepOrder | pegaprox/api/multi_sdn.py:235-237 | de-duplication keeps the order of first appearance |
| SdnManager.Manager.Collisions | pegaprox/api/multi_sdn.py:271-319 | each conflict is reported if and only if it is there, stated on the fields of controller, zone and vnet; there is none exactly when nothing collides |
| SdnManager.Manager.PreflightOnCluster | pegaprox/api/multi_sdn.py:841-855 | reads only, and gives the verdict of the pre-flight: unreachable, unreadable, conflicting or clear |
| SdnManager.Manager.ApplyOnCluster | pegaprox/api/multi_sdn.py:322-427 | the build as it runs, for every pattern of replies: final state, writes sent, status and created list |
| SdnManager.Manager.BuildSkeleton | pegaprox/api/multi_sdn.py:346-388 | controller, zone and vnet stages: each posted only if absent, stopping at the first refusal |
| SdnManager.Manager.BuildSubnets | pegaprox/api/multi_sdn.py:389-417 | subnets compared by network with one listing read before the first POST, stopping at the first refusal |
| SdnManager.Manager.TeardownCreated | pegaprox/api/multi_sdn.py:525-546 | deletes exactly the listed kinds in reverse dependency order, going on after failures, then reloads |
| SdnManager.Manager.EditOnCluster | pegaprox/api/multi_sdn.py:625-677 | alias, additions, deletions and one reload, with the early returns of the source |
| SdnManager.Manager.LiveStatusOnCluster | pegaprox/api/multi_sdn.py:592-622 | classifies the live vnet against the definition |
| SdnManager.Manager.ReconcileOnCluster | pegaprox/api/multi_sdn.py:680-701 | a build, then at most a PUT of the alias and a reload |
| SdnOrchestrator.Orchestrator.FanOut | pegaprox/api/multi_sdn.py:862-869 | in whatever order the members run, every cluster ends where its own routine takes it and every report is its own; a lost report reads as failed |
| SdnOrchestrator.Orchestrator.SharedInfraOnCluster | pegaprox/api/multi_sdn.py:474-504 | the loop with its early break answers the plain question whether another recorded or in-flight span uses the zone and the controller on the cluster |
| SdnOrchestrator.Orchestrator.ProvisioningShares | pegaprox/api/multi_sdn.py:459-471 | an unexpired create in flight on the cluster names the zone, or the controller |
| SdnOrchestrator.Orchestrator.MergeStatusWrite | pegaprox/api/multi_sdn.py:1003-1035 | the locked section of edit, reconcile and scan |
| SdnOrchestrator.Orchestrator.CreateMultiVnet | pegaprox/api/multi_sdn.py:836-916 | pre-flight of all members, announcement, fan-out, then rollback or recording |
| SdnOrchestrator.Orchestrator.SettleCreate | pegaprox/api/multi_sdn.py:876-916 | after the fan-out: roll back each member's created list, refuse a taken name, or insert the row and withdraw the announcement |
| SdnOrchestrator.Orchestrator.ReapplyMultiVnet | pegaprox/api/multi_sdn.py:926-964 | rebuilds the members that are off, or all when none is |
| SdnOrchestrator.Orchestrator.DeleteMultiVnet | pegaprox/api/multi_sdn.py:969-995 | purges each member of what no other span shares, then drops the row |
| SdnOrchestrator.Orchestrator.RecomputeSubnets | pegaprox/api/multi_sdn.py:1100-1110 | the recorded networks become (old minus deleted) plus added |
| SdnOrchestrator.Orchestrator.EditMultiVnet | pegaprox/api/multi_sdn.py:1091-1115 | edit fan-out and merge; nothing to change is refused |
| SdnOrchestrator.Orchestrator.ReconcileMultiVnet | pegaprox/api/multi_sdn.py:1123-1150 | reconcile fan-out and merge |
| SdnOrchestrator.Orchestrator.ScanMultiVnet | pegaprox/api/multi_sdn.py:1154-1175 | live statuses of all members, merged |
| SdnOrchestrator.Orchestrator.PersistMemberList | pegaprox/api/multi_sdn.py:1178-1190 | column, stored definition and statuses agree on the members afterwards, and nothing else of the definition changes |
| SdnOrchestrator.Orchestrator.AddMultiVnetMember | pegaprox/api/multi_sdn.py:1193-1256 | pre-flight, build or roll back, then append unless already there |
| SdnOrchestrator.Orchestrator.RemoveMultiVnetMember | pegaprox/api/multi_sdn.py:1259-1301 | optional purge of the vnet alone, then removal, never of the last member |
| SdnOrchestrator.Orchestrator.ScanRowOnce | pegaprox/api/multi_sdn.py:1329-1398 | one row of a scanner pass: look, repair what is off, look again, alert, store |
| SdnOrchestrator.Orchestrator.ScanOnce | pegaprox/api/multi_sdn.py:1318-1400 | a whole pass, row by row |
| SdnBuild.ApplyGrows | pegaprox/api/multi_sdn.py:322-427 | whatever fails, a build only adds: exactly the created objects, none of which existed, and subnets under the span's vnet |
| SdnBuild.CreatedAsRequested | pegaprox/api/multi_sdn.py:249-265 | controller, zone and vnet that a build creates have the type, ASN, peers, controller, VRF, zone, VNI and alias of the definition; an object is created if and only if it was absent and is there afterwards |
| SdnBuild.SubnetsAsRequested | pegaprox/api/multi_sdn.py:389-417 | every subnet a build adds carries network, gateway and SNAT flag of one the definition asks for |
| SdnBuild.AppliedIff | pegaprox/api/multi_sdn.py:322-427 | a build reports success if and only if the lookup, the three listings and every call it sends succeed; an offline or unknown cluster is reported as such |
| SdnBuild.AppliedIsBuilt | pegaprox/api/multi_sdn.py:346-427 | a conflict-free build that reports success leaves the span built with its definition |
| SdnBuild.ApplyKeepsBuilt | pegaprox/api/multi_sdn.py:322-427 | a build disturbs no other span built on the cluster |
| SdnBuild.ApplyKeepsVnis | pegaprox/api/multi_sdn.py:308-317 | a build that was clear, or whose vnet exists, keeps VNIs pairwise distinct |
| SdnBuild.PresentIff | pegaprox/api/multi_sdn.py:322-427 | controller, zone and vnet are there afterwards if and only if they were before, or lookup, listings and the POSTs of what was lacking succeeded, whatever happens to subnets and reload |
| SdnBuild.AppliedIsComplete | pegaprox/api/multi_sdn.py:389-427 | success means all objects and every requested network are there |
| SdnBuild.SilentIffComplete | pegaprox/api/multi_sdn.py:346-424 | with readable listings, a build sends nothing and reports success if and only if nothing is missing |
| SdnBuild.BuildIdempotent | pegaprox/api/multi_sdn.py:346-424 | re-running a successful build sends no POST and no reload and changes nothing |
| SdnBuild.AppliedReloadsLast | pegaprox/api/multi_sdn.py:418-427 | a call that reports success sent nothing and changed nothing, or sent only successful POSTs and then a successful reload |
| SdnBuild.AppliedSilentIff | pegaprox/api/multi_sdn.py:346-424 | a build that reports success sent nothing if and only if nothing was missing and, if there are subnets, their listing could be read |
| SdnBuild.FailedReloadIsForgotten | pegaprox/api/multi_sdn.py:418-426 | after a failed reload the next call sends nothing and reports success |
| SdnBuild.AppliedLeavesUnloadedIff | pegaprox/api/multi_sdn.py:418-427 | a build that reports success leaves a successful write without a successful reload after it if and only if there was one before and the build found nothing to do |
| SdnRollback.AllDeletedIff | pegaprox/api/multi_sdn.py:525-546 | everything created is deleted if and only if nothing was created, or the lookup and each deletion get a good reply |
| SdnRollback.RollbackExact | pegaprox/api/multi_sdn.py:525-546 | after any prefix of a build, rollback restores controllers, zones and vnets under exactly that condition on the replies |
| SdnRollback.RollbackRestoresSubnets | pegaprox/api/multi_sdn.py:326-417 | the whole cluster is restored if and only if, besides, the vnet was created or no POST of a subnet succeeded |
| SdnRollback.ApplyKeepsClosed | pegaprox/api/multi_sdn.py:358-388 | builds keep vnet, zone and controller references closed |
| SdnRollback.RollbackClosedIff | pegaprox/api/multi_sdn.py:535-544 | after each of the three deletions the references are closed if and only if the replies did not let one deletion fail and the next one take away what its object depends on |
| SdnRollback.TeardownCalls | pegaprox/api/multi_sdn.py:525-546 | a teardown that reaches its cluster sends one deletion for each listed kind and then a reload, whatever fails |
| SdnEdit.RecordAfterEdit | pegaprox/api/multi_sdn.py:1100-1110 | recorded networks are (old minus deleted) plus added, without canonical duplicates if there were none |
| SdnEdit.RecordEntries | pegaprox/api/multi_sdn.py:1100-1110 | entry by entry: what is recorded afterwards was recorded and is not deleted, or is one of the additions, gateway and SNAT flag included; what was recorded and is not deleted stays |
| SdnEdit.EditFrame | pegaprox/api/multi_sdn.py:625-677 | whatever fails, an edit touches only the alias and the subnets of its vnet |
| SdnEdit.EditAddsAsRequested | pegaprox/api/multi_sdn.py:648-660 | whatever fails, every subnet an edit adds carries network, gateway and SNAT flag of one it was asked to add |
| SdnEdit.EditReloadsLast | pegaprox/api/multi_sdn.py:671-677 | an edit that reports success sent nothing and changed nothing, or ended in a successful reload |
| SdnEdit.EditAppliedIff | pegaprox/api/multi_sdn.py:625-677 | an edit reports success if and only if the lookup, the PUT of the alias, every POST and the reload, if there is one, succeed; a deletion may fail |
| SdnEdit.LiveAfterEdit | pegaprox/api/multi_sdn.py:641-677 | a failure-free edit leaves (live plus added) minus deleted |
| SdnEdit.EditAgreement | pegaprox/api/multi_sdn.py:648-670 | from equal networks, a failure-free edit leaves member and record equal if and only if additions and deletions are canonically disjoint |
| SdnReconcile.ReconcileKeepsStructure | pegaprox/api/multi_sdn.py:680-701 | whatever fails, no existing vnet's zone or tag, no existing zone and no existing controller changes |
| SdnReconcile.ReconcileCalls | pegaprox/api/multi_sdn.py:690-701 | after the build a reconcile sends nothing, or a PUT that fails, or one that succeeds and then a reload; nothing at all after a failed build |
| SdnReconcile.GoodBuildApplies | pegaprox/api/multi_sdn.py:322-427 | without failures a build succeeds |
| SdnReconcile.ReconcileConverges | pegaprox/api/multi_sdn.py:680-701 | a failure-free reconcile ends in_sync if and only if the vnet was missing or had a fitting zone and tag, and in drift otherwise |
| SdnInvariant.CreateKeepsInv | pegaprox/api/multi_sdn.py:836-916 | an atomic create keeps every recorded span built, and VNIs distinct on each cluster where they were, whatever fails |
| SdnInvariant.DeleteKeepsInv | pegaprox/api/multi_sdn.py:507-522 | a purge spares every other recorded span |
| SdnInvariant.AddKeepsInv | pegaprox/api/multi_sdn.py:1218-1251 | adding a member, or failing to and rolling back, keeps the invariant |
| SdnInvariant.RemoveKeepsInv | pegaprox/api/multi_sdn.py:1279-1295 | removing a member keeps the invariant |
| SdnInvariant.ScanKeepsInv | pegaprox/api/multi_sdn.py:1318-1400 | a scanner pass keeps the invariant |
| SdnInvariant.InfrastructureInvariant | pegaprox/api/multi_sdn.py:819-1400 | from any clusters, after every run of handlers with atomic creates, any write failing and any report lost, each recorded span has its controller, zone and vnet on each recorded member; each cluster that started with distinct VNIs still has them |
| SdnCreate.CheckedIff | pegaprox/api/multi_sdn.py:837-855 | a create passes its pre-flight if and only if each member is known, answers the lookup and the listings, and has no conflict |
| SdnCreate.VerdictMeaning | pegaprox/api/multi_sdn.py:841-855 | unreachable, unreadable and conflicting, each exactly when the lookup failed, a listing failed, or something collides |
| SdnCreate.FailedCreateRestores | pegaprox/api/multi_sdn.py:876-893 | a failed atomic create records nothing and restores each cluster if and only if its build made nothing, or was reported and the replies let the rollback delete it |
| SdnCreate.NonAtomicCreateIff | pegaprox/api/multi_sdn.py:876-916 | a create that does not roll back keeps the recorded spans built if and only if each member had the objects before it or its replies to the build let it get that far |
| SdnCreate.NonAtomicCreateCanBreak | pegaprox/api/multi_sdn.py:876-916 | a concrete run in which it does not |
| SdnOutcomes.RollupMeans | pegaprox/api/multi_sdn.py:727-742 | the rollup is pending if and only if there is no status, applied if and only if all are good, partial if and only if some but not all are good or one is in drift, failed otherwise |
| SdnOutcomes.CreateOutcome | pegaprox/api/multi_sdn.py:856-916 | a create that passed its pre-flight inserts its row, with each member's own status, and withdraws its announcement if and only if name and id are free and it is not atomic or every member reports applied; otherwise no row changes; it touches no cluster but its members |
| SdnOutcomes.RefusedCreateOutcome | pegaprox/api/multi_sdn.py:837-855 | a create refused by its pre-flight records, announces and writes nothing |
| SdnOutcomes.PurgeOutcome | pegaprox/api/multi_sdn.py:507-522 | a purge removes the vnet, and zone and controller if and only if no other recorded or in-flight span uses them there, each exactly when the replies let it, and nothing else of these |
| SdnOutcomes.DeleteOutcome | pegaprox/api/multi_sdn.py:969-995 | a full delete drops its row and no other, and without purge touches no cluster, with purge none but the members |
| SdnOutcomes.EditOutcome | pegaprox/api/multi_sdn.py:1091-1113 | an edit runs on every member and no other cluster and records alias, networks and each member's own outcome, and nothing else |
| SdnOutcomes.MergeMeaning | pegaprox/api/multi_sdn.py:1003-1035 | in the merge the fresh status of a member wins over the stored one, which stays if there is none; former members have none |
| SdnOutcomes.ReconcileOutcome | pegaprox/api/multi_sdn.py:1123-1150 | a reconcile runs on every member and no other cluster and stores each member's own outcome |
| SdnOutcomes.ScanOutcome | pegaprox/api/multi_sdn.py:1154-1175 | a scan writes to no cluster and stores each member's live status |
| SdnOutcomes.LiveStatusMeaning | pegaprox/api/multi_sdn.py:592-622 | each live status stated on lookup, listing and the fields of the vnet |
| SdnOutcomes.ReapplyOutcome | pegaprox/api/multi_sdn.py:926-964 | a re-apply rebuilds exactly the members whose stored status is not good, or all if every one is, and stores their own outcomes |
| SdnOutcomes.AddOutcome | pegaprox/api/multi_sdn.py:1193-1251 | a cluster joins if and only if it is new, known, readable and free of conflicts and its build reports applied; otherwise no row changes |
| SdnOutcomes.RemoveOutcome | pegaprox/api/multi_sdn.py:1259-1295 | a removal cuts one member out of column, definition and statuses, with purge the vnet goes and nothing else; the last member stays |
| SdnOutcomes.PassVisits | pegaprox/api/multi_sdn.py:1325-1400 | a scanner pass scans each listed row once, on the clusters as the rows before it left them |
| SdnMembership.CreatedRowIsCoherent | pegaprox/api/multi_sdn.py:895-915 | the row a create inserts lists its members alike in column, definition and statuses |
| SdnMembership.EditSpanCommits | pegaprox/api/multi_sdn.py:1091-1113 | run without interruption, an edit prepares and commits as in the interleavings |
| SdnMembership.MembershipCommits | pegaprox/api/multi_sdn.py:1193-1295 | the same for adding and removing a member |
| SdnMembership.MembershipCoherence | pegaprox/api/multi_sdn.py:1003-1035 | for every interleaving of a create and the requests after it, the column and the stored definition agree on the members, which are non-empty, free of duplicates and equal to those of the create with adds and removes folded in lock order; no other structure of the definition ever changes |
| SdnMembership.LastWordDecides | pegaprox/api/multi_sdn.py:1237-1295 | a cluster is a member if and only if its last committed change was a join, or it never changed and was one: no add or remove is lost |
| SdnMembership.LastEditDecides | pegaprox/api/multi_sdn.py:1046-1113 | for every interleaving, the recorded subnets are those the last committed edit computed from what it read before the lock |
| SdnMembership.ConcurrentEditsLoseSubnets | pegaprox/api/multi_sdn.py:1046-1113 | two racing edits end with the networks of the two in sequence if and only if the old record and the second edit cover the networks the first added, and what it deleted of the record is added or deleted again |
| SdnMembership.SerialEdits | pegaprox/api/multi_sdn.py:1046-1113 | run one after the other, both edits take effect |
| SdnInFlight.AlwaysAdvertised | pegaprox/api/multi_sdn.py:437-456 | in every interleaving a create is announced until its row is there |
| SdnInFlight.CreateIsPlayed | pegaprox/api/multi_sdn.py:856-916 | run without interruption, a create announces, inserts and withdraws as in the interleavings |
| SdnInFlight.InFlightProtection | pegaprox/api/multi_sdn.py:459-504 | a create that works on a cluster, announced and within its time or recorded, always counts as a user of its zone and controller there |
| SdnInFlight.HandlersKeepInfra | pegaprox/api/multi_sdn.py:1003-1190 | no locked section and no status write edits the zone or the controller of a row |
| SdnInFlight.PurgeSparesInFlight | pegaprox/api/multi_sdn.py:474-522 | in every interleaving a full delete of another span leaves zone and controller of such a create as they were |
| SdnScanner.AlertsAreTransitions | pegaprox/api/multi_sdn.py:1366-1392 | over any run of passes the alerts of a member are the transitions of its stored status into drift or missing |
| SdnScanner.PassStores | pegaprox/api/multi_sdn.py:1329-1398 | a pass stores a status for each member of an enabled row and for nobody else, with their rollup, and alerts for exactly the members that are off now and were not stored as off |
| SdnScanner.StoredStatus | pegaprox/api/multi_sdn.py:1338-1398 | the status stored for a member is how it reads after its repair, or how it reads if it was not repaired |
| SdnScanner.PassWrites | pegaprox/api/multi_sdn.py:1338-1358 | a pass reconciles a cluster once if the setting is on and it reads drift, or missing for the second time running, and only reads every other cluster |
| SdnScanner.QuietPass | pegaprox/api/multi_sdn.py:1338-1358 | with the setting off, in sync, or newly missing, nothing is written |
| SdnScanner.AliasDriftIsRepaired | pegaprox/api/multi_sdn.py:1350-1358 | a failure-free pass stores a drifted alias as in_sync and does not alert |
| SdnScanner.MissingIsRebuiltOnSecondSight | pegaprox/api/multi_sdn.py:1346-1358 | a missing member is alerted on and left alone by the first pass and rebuilt by the second |
| RateLimiter.Limiter.Check | pegaprox/app.py:379-402 | one request against one client's window, as it runs |
| RateLimiter.LimiterBound | pegaprox/app.py:379-402 | in every run with a nondecreasing clock, a closed interval of one window holds at most 2 * limit - 1 accepted requests of a client |
| RateLimiter.BoundIsReached | pegaprox/app.py:379-402 | a run with a nondecreasing clock that reaches the bound, for every limit |
| RateLimiter.RefusalJustified | pegaprox/app.py:398-399 | a refusal means limit requests were accepted in the window ending now |
| RateLimiter.NoLimit | pegaprox/app.py:379-402 | a limit of zero or less accepts every request and counts nothing |
| RateLimiter.ClientsIndependent | pegaprox/app.py:387-402 | what a client gets depends on its own requests alone |
| LoginGuard.LoginEndpoint.AuthLogin | pegaprox/api/auth.py:514-577 | one login attempt: refusals, pruning, charging and reset in the order of the source; admitted if and only if address and name are open and the credentials are right |
| LoginGuard.LoginEndpoint.RecordFailedAttempt | pegaprox/api/auth.py:579-609 | a failure charged to the address, and to the name when it is known, each locking at its own threshold |
| LoginGuard.LoginVerdicts | pegaprox/api/auth.py:514-577 | each verdict is given if and only if address and name are open or shut and the credentials fare so; only an admitted attempt clears the two entries, the others only drop what is no longer recent |
| LoginGuard.FailureVerdict | pegaprox/api/auth.py:579-609 | a failure is charged to the address, and to the name if it is known, and says `locked` if and only if it leaves one of them locked |
| LoginGuard.LockoutBound | pegaprox/api/auth.py:514-609 | without a success from an address, failures less than the attempt window apart number at most maxAttempts + ceil(attemptWindow / lockoutTime) - 1 |
| LoginGuard.UserLockoutBound | pegaprox/api/auth.py:561-606 | the same for a user name, with twice the threshold |
| LoginGuard.LockedForCause | pegaprox/api/auth.py:588-591 | a locked address has maxAttempts failures within the attempt window, the last less than the lockout time ago |
| Affinity.CheckAffinityViolation | pegaprox/api/history.py:353-410 | returns the first enabled rule of the cluster that the move breaks, and none if and only if there is none, stated on the resource listing itself |
| Affinity.PlacementMeaning | pegaprox/api/history.py:367-371 | a guest is placed exactly where the last guest entry for it says |
| Affinity.ViolationIsReal | pegaprox/api/history.py:386-408 | a violated rule does not hold after the move |
| Affinity.GuardIsExact | pegaprox/api/history.py:386-410 | where all rules hold, the check passes if and only if they all hold after the move |
| Affinity.AffinityPreserved | pegaprox/api/history.py:353-410 | after any sequence of checked moves all enabled rules of the cluster still hold |
| Affinity.TogetherPins | pegaprox/api/history.py:388-396 | a guest of a together rule with another placed guest can only stay where it is |
| Regression.LeastSquares | pegaprox/api/insights.py:62-77 | slope and intercept have the least squared error of all lines, and no other line reaches it |
| Regression.ErrorGap | pegaprox/api/insights.py:62-75 | any line's error exceeds the fitted line's by a weighted sum of the squared differences of the two lines |
| Regression.ClampIsIdle | pegaprox/api/insights.py:75-76 | the coefficient of determination lies in [0, 1] before the clamp, which never changes it |
| Regression.PerfectFit | pegaprox/api/insights.py:75-77 | the coefficient is 1 if and only if all points lie on the fitted line |
| Regression.NoSpread | pegaprox/api/insights.py:70 | the guard before the division fails if and only if all abscissas are equal |
| Regression.ConstantSeries | pegaprox/api/insights.py:73-74 | a constant series gets slope 0, its value as intercept and coefficient 1 |
| Regression.NoSlope | pegaprox/api/insights.py:70 | without spread there is no slope, the intercept is the mean, and the coefficient is 1 if and only if the values are all equal |
| Regression.FewPoints | pegaprox/api/insights.py:62-66 | fewer than two points give no line and coefficient 0 |
| Bucketing.Downsample | pegaprox/api/insights.py:609-627 | the single-pass flush loop hands out the averages of the groups, each at its bucket start |
| Bucketing.AvgSamples | pegaprox/api/insights.py:638-668 | accumulating per-node sums and counts gives each node's mean, and the maxima of the running guests |
| Bucketing.Partition | pegaprox/api/insights.py:611-627 | whatever the input, the groups are non-empty and concatenate back to it |
| Bucketing.BucketStarts | pegaprox/api/insights.py:613-622 | bucket starts are multiples of the step, at least one step apart |
| Bucketing.GroupsByKeyIff | pegaprox/api/insights.py:613-625 | the groups are the stretches of equal ts div step if and only if no sample falls in an earlier bucket than its predecessor |
| Bucketing.OrderedTimestampsAscend | pegaprox/api/insights.py:611-616 | ascending timestamps meet that condition |
| Bucketing.GroupingIsUnique | pegaprox/api/insights.py:611-625 | there is only one such grouping |
| Bucketing.TotalsConserved | pegaprox/api/insights.py:641-659 | averaging keeps the weighted total of every cluster-wide and per-node gauge |
| Bucketing.PeaksConserved | pegaprox/api/insights.py:643-644 | the maximum of running guests over buckets is that over samples |
| TextOrder.NormaliseIff | pegaprox/api/drift.py:67-69 | two list values normalise alike if and only if they hold the same items, with multiplicity |
| TextOrder.NormaliseTwice | pegaprox/api/drift.py:67-69 | normalising is idempotent |
| TextOrder.StripMeaning | pegaprox/api/drift.py:67-69 | stripping cuts the blanks off both ends and nothing else |
| Drift.StripVolatile | pegaprox/api/drift.py:62-71 | drops volatile keys and normalises comma lists |
| Drift.ComputeDiff | pegaprox/api/drift.py:148-165 | the report in key order, as it runs |
| Drift.DiffIsExact | pegaprox/api/drift.py:154-164 | the report lists exactly the keys that read differently, each once, in order |
| Drift.QuietIff | pegaprox/api/drift.py:154-157 | the report is empty if and only if both sides read alike, null reading like missing |
| Drift.RoundTripIff | pegaprox/api/drift.py:154-164 | applying the report to the baseline gives the current snapshot, and undoing it gives the baseline back, if and only if no key is on one side only with a null |
| Drift.NullIsLost | pegaprox/api/drift.py:156-157 | a concrete pair for which it does not |
| Drift.CleanQuietIff | pegaprox/api/drift.py:51-71 | cleaned snapshots show no drift if and only if they differ only in volatile keys or in order, spacing and empty items of comma lists |
| DriftScan.Store.LoadBaselines | pegaprox/api/drift.py:204-225 | the last row of each key of the cluster |
| DriftScan.BaselinesMeaning | pegaprox/api/drift.py:204-225 | the baseline of a key is the snapshot of the last row of the cluster for it |
| DriftScan.Store.SetBaseline | pegaprox/api/drift.py:230-244 | replaces the rows of one key by one |
| DriftScan.Store.ScanCluster | pegaprox/api/drift.py:278-354 | one scan: events recorded, baselines seeded, removed objects reported |
| DriftScan.ScanSeeds | pegaprox/api/drift.py:297-301 | a seeding scan gives each fetched key without a baseline the snapshot of its last object, keeps every other baseline and touches no other cluster; any other scan changes none |
| DriftScan.SeedCountMeaning | pegaprox/api/drift.py:297-301 | the reported number of seeds is the number of fetched objects without a baseline |
| DriftScan.RemovedMeaning | pegaprox/api/drift.py:312-326 | the removed scopes are those of the events for vanished objects, in order |
| DriftScan.Store.ResetBaseline | pegaprox/api/drift.py:527-551 | the cluster's rows become the fetched state and its open events are superseded |
| DriftScan.Store.Promote | pegaprox/api/drift.py:499-510 | the first fetched object of the event's key becomes its baseline |
| DriftScan.ResetMeaning | pegaprox/api/drift.py:541-548 | after a reset the cluster's baselines are the latest snapshots and no other cluster's change |
| DriftScan.ScanReportsExactly | pegaprox/api/drift.py:294-326 | a key is reported if and only if it has a baseline and an object fetched for it reads unlike it, or none was fetched |
| DriftScan.EventsExplain | pegaprox/api/drift.py:302-326 | each event is open, belongs to the cluster and carries the report that turns the baseline into a fetched object, or the baseline of an object no longer fetched |
| DriftScan.QuietAfterReset | pegaprox/api/drift.py:527-551 | a scan of the same state right after a reset is quiet if and only if objects of one key read alike, in particular for distinct keys |
| DriftScan.QuietAfterSeeding | pegaprox/api/drift.py:297-301 | a first seeding scan records nothing, and the next one nothing under the same condition |
| DriftScan.ReportedAgain | pegaprox/api/drift.py:294-326 | whatever the state, a reported key is reported again by the next scan of it |
| DriftScan.RescanRepeats | pegaprox/api/drift.py:294-326 | the next scan reports exactly the same keys, and those the first one seeded that were fetched with disagreeing objects |
| DriftScan.PromoteSilences | pegaprox/api/drift.py:499-510 | promotion silences its key and only its key |
| DriftScan.ResetClosesEvents | pegaprox/api/drift.py:542-543 | after a reset no event of the cluster is open and nothing else changed |
| TaskUsers.Cache.RegisterTaskUser | pegaprox/api/helpers.py:294-324 | one registration: cache insert, eviction over the cap, table write that may fail |
| TaskUsers.Cache.GetTaskUser | pegaprox/api/helpers.py:326-353 | cache first, then the table, caching what was found |
| TaskUsers.OldestEntries | pegaprox/api/helpers.py:307-311 | the evicted entries are as many as asked and none is younger than one that stays |
| TaskUsers.EvictionSize | pegaprox/api/helpers.py:301-311 | a registration that takes the cache above 50000 entries drops 5000, none younger than one that stays; no other drops any |
| TaskUsers.LookupAnswers | pegaprox/api/helpers.py:326-353 | after any run a lookup answers the last user registered, unless the entry was dropped since: then the last user stored, if the table can be read or was read since the drop, and nobody otherwise |
| TaskUsers.LastRegisteredWins | pegaprox/api/helpers.py:294-353 | if the last write of the upid was stored, every lookup answers the last user registered |
| TaskUsers.FailedWriteIsForgotten | pegaprox/api/helpers.py:313-324 | a run in which the write failed and the previous user comes back |
| TaskUsers.CacheSize | pegaprox/api/helpers.py:301-311 | the cache exceeds its cap by at most one entry a lookup, and never after registrations alone |
| TaskUsers.CrossesCapIff | pegaprox/api/helpers.py:301-348 | a call that starts within the cap ends above it if and only if it is a readable lookup that finds its upid in the table and not in a full cache |
| TaskUsers.LookupExceedsCap | pegaprox/api/helpers.py:336-348 | a run that ends above the cap |
| Exposition.ChainIsOnePass | pegaprox/api/metrics_exporter.py:37-41 | the three replacements are one character-by-character escape |
| Exposition.ValueRoundTrip | pegaprox/api/metrics_exporter.py:37-41 | reading a printed label value gives it back with newlines turned to spaces |
| Exposition.Sample | pegaprox/api/metrics_exporter.py:44-55 | one line, which for well-formed names parses back to the same name, ordered labels and value, and holds no newline if the value holds none |
| Exposition.SampleRoundTrip | pegaprox/api/metrics_exporter.py:44-56 | a printed line parses back to the same name, ordered labels and value |
| Exposition.SampleIsOneLine | pegaprox/api/metrics_exporter.py:44-56 | whatever the label values hold, the output is one line |

## Left out

- HTTP, permissions, tenant checks and audit logging: only the decisions behind them are modelled.
- Text forms: networks, addresses and numbers come parsed, with a flag where parsing fails; error messages and step labels are not modelled.
- A write that takes effect although it is reported as failed (a timeout after the cluster carried it out): each write either takes effect and succeeds or does neither.
- A member that times out in a fan-out: its routine is taken as finished and its report as lost, not as still running while the rollback starts.
- SQL, JSON, encryption and threads as mechanisms: tables are maps or sequences, and a locked section is one step.
- Database failures other than those of the table of task users, and of the read in the shared-infrastructure check, which is a parameter.
- SdnOrchestrator.Orchestrator.SharedInfraOnCluster: takes the rows and the in-flight register at one instant; the source reads the rows first, so a create that inserts its row and withdraws in between is not covered.
- SdnInFlight.InFlightProtection: speaks of the shared-infrastructure check only; a rollback of a concurrent create or a removal of a member with purge does not consult it.
- SdnInvariant.InfrastructureInvariant: handlers run one after the other and nothing else writes to the clusters; creates are atomic, the default (`NonAtomicCreateIff` covers the others).
- SdnMembership.MembershipCoherence: re-apply and the background scanner write statuses without the record's lock and are not among its interleaved requests; they change no member list.
- A listed subnet without an id, which the edit skips, and a zone or tag of "0", which the model does not tell from blank.
- Rounding: averages, sums and the trend line use exact reals, so the two-digit and four-digit rounding of the output is not modelled.
- Regression.LeastSquares: takes two lists of one length, which all callers pass.
- Bucketing.Downsample: starts from flattened samples; how they are loaded and percentages are formed is not modelled.
- The order of node names in an averaged sample and of labels given as an unordered set.
- The `enforce` flag and message of an affinity result.
- Severity, summary text and notification of drift events; the order in which the database lists baselines (table order here); database errors while scanning.
- Python's equality between numbers of different types in the drift report: values compare by identity of what they hold.
- TaskUsers.Cache.RegisterTaskUser: ties between equal timestamps are broken arbitrarily, and the fallback that clears the cache when sorting fails, which cannot happen, is absent.
- Login by second factor, directory and token: a right password with a missing second factor is one outcome, `Incomplete`.
- The HELP and TYPE lines and the collection of metrics around the sample lines.
- Percentiles, costs, power, groups, cluster health and the user interface: they would add only easy members.
