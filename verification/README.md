# OPM operator: a verified model of the reconcile core

The OPM operator is a Kubernetes controller. A ModuleRelease or a Release is rendered into resources,
the resources are applied by server-side apply, resources that are no longer rendered are pruned, and the
result is committed to the object's status. This project models that core in Dafny and proves what
it keeps over whole runs: retries after partial failures, lost status patches, several releases
sharing one cluster, releases that wait for one another, deletion with a finalizer.

`dafny verify dfyconfig.toml` checks everything.

## How it is modelled

- **Cluster** (`Cluster.dfy`): a map from identity (group, kind, namespace, name) to an object: the
  manifest the controller owns, plus fields of other managers by path. Server-side apply is a merge
  per object; a failed apply has applied an arbitrary subset of the manifests.
- **API calls** have any outcome. Each reconcile takes an environment that answers every call it
  makes: finalizer patches, rendering, drift dry-run, impersonation, apply, every Get and Delete of a
  prune, the status patch. A lost status patch leaves the stored status as it was.
- **Digests** (`Digests.dfy`): SHA-256 is an ideal hash, a digest is its preimage. JSON is a tree with a
  writer, and unique readability is proved, not assumed (`Json.dfy`).
- **Loops**: `ModuleRelease.dfy` and `ReleaseLoop.dfy` hold each reconcile twice: as functions on values,
  which the theorems use, and as methods that update a status, a store and a server object in
  place, phase by phase, proved equal to those functions. The same holds for pruning (`Prune.dfy`), the
  status helpers (`Status.dfy`), the deferred commit, counters and deletion (`Reconcile.dfy`), the
  digests, the stale set (`Inventory.dfy`) and the matcher (`Match.dfy`, `Render.dfy`).
- **Runs** are sequences of happenings: reconciles with any environment, spec edits, annotations,
  deletion requests, creation, and changes to the cluster by anyone (`LedgerRuns.dfy`, `ReleaseRuns.dfy`,
  `NoOpRuns.dfy`, `Ownership.dfy`, `DependsOn.dfy`). `Journal.dfy` holds what both loops do to inventory and
  cluster as a journal of passes, and proves once what the inventory covers and what becomes of a
  manifest; `ModuleJournal.dfy` and `ReleaseJournal.dfy` show that every run of a loop is such a journal.
  `Outcomes.dfy` and `ReleaseOutcomes.dfy` tell outcome, conditions, phases and digests of one reconcile
  from its inputs.
  Coverage and the conservation law of `DeletionRuns.dfy` speak of runs in which nobody else changes the
  cluster; the other laws of `DeletionRuns.dfy` allow edits and cluster changes between attempts, and
  `ModuleJournal.DeletionIsARun` ties them to runs of a ModuleRelease. Retry confluence
  (`Convergence.dfy`, `ReleaseConvergence.dfy`) is about reconciles of one spec and one rendering, with
  nothing else in between. `Sweep.dfy`, `Ledger.dfy` and `AttemptFacts.dfy` hold the facts they share.

## Where the tempting claim is false

- *A no-op means the cluster is as rendered.* A no-op only compares digests with those of the last stored
  success (`LedgerRuns.NoOpDecided`). `NoOpRuns.NoOpTruthExactly` (for a Release
  `ReleaseJournal.NoOpTruthExactly`): it is truthful exactly when everything that happened since that
  success, taken identity by identity, gives each rendered object its manifest back.
  `NoOpRuns.QuietNoOpIsTruthful`: so it is if nobody changed the cluster and no reconcile reached the apply.
  `NoOpRuns.RevertIsBlind`: reverting a spec after an attempt whose apply failed, whose prune failed or
  whose status was lost is a no-op over what that attempt left. `Counterexamples.RevertLeavesOther` and
  `Counterexamples.RevertLosesObject` are such runs.
- *Every failure is in the history.* `LedgerRuns.SilentStall`: all but those whose prune, under an
  impersonated ServiceAccount, is forbidden; `Counterexamples.SilentStallHappens` is one.
- *The inventory covers every live object the release ever applied.* `ModuleJournal.InventoryCoverage` and
  `ReleaseJournal.InventoryCoverage` give the exact exceptions; `ModuleJournal.SteadyRunsLeakNothing` and
  `ReleaseJournal.SteadyRunsLeakNothing` say when none is dropped or leaked; `Counterexamples.LeakHappens` is a
  run with a leak.
- *Nobody deletes another release's object.* `Ownership.OwnershipSafety` proves it for ModuleReleases.
  For a Release, which prunes without a UUID, `Ownership.DeletionTakes` says exactly what goes.
- *The render digest does not depend on the render order.* `Digests.RenderDigestOrderFree`: exactly
  when resources of one group, kind, namespace and name are the same resource.
- *The source digest decides path and version.* `Digests.SourceDigestExact`: some other reference has the
  same digest exactly when the path or the version holds an "@", and module paths do hold one. Two
  references whose versions hold none are still told apart (`Digests.SourceDigestDecides`).
- *The label comparison compares labels.* `MatchFacts.KeysConfused` and `MatchFacts.AmbiguityMisleads`: not
  when one key continues the other across a "=".
- *A successful Execute covers every component.* `Render.SuccessCoversComponents`: exactly when the
  provider has transformers, or there are no components. The gap is in Execute alone: both renderers of
  the reconcile loops reject an empty result, and what the loops see does cover every component
  (`Render.LoopsSeeEverything`).
- *A Release of depth k is Ready after k + 1 rounds.* With finalizers in place it is
  (`DependsOn.DepthReadyAfterRounds`), and no sooner when dependents are visited first
  (`DependsOn.DepthNotReadyBefore`). Fresh Releases are Ready after k + 2 rounds
  (`DependsOn.DepthReadyFromScratch`), and after k + 1 they are not if each is visited once a round,
  dependents first (`DependsOn.DepthNotReadyFromScratch`).
- *Skipped kinds stay in the inventory.* The decision record (adr/011-safety-exclusions-from-pruning.md, line
  33) says so; the model follows the code, which drops them unless they are rendered again
  (`Convergence.SkippedKindsLeaveInventory`).

## Model

| member | source | states |
|---|---|---|
| Convergence.RetryConfluence | internal/reconcile/modulerelease.go:304-402 | any number of attempts that fail partway (partial apply, partial prune, lost patch) followed by a clean one end with the cluster, inventory, revision and last-applied digests of one clean attempt from the start |
| Convergence.ApplyThenPruneFate | internal/reconcile/modulerelease.go:333-402 | after a successful attempt every rendered object is live with the last manifest rendered for it; with pruning on every previous entry is rendered again, gone, or unchanged because it is a Namespace/CRD, not OPM-managed or of another UUID; everything else is untouched |
| Cluster.ApplyAbsorbs | internal/apply/apply.go:33-60 | applying everything after any partial apply gives what applying everything at once gives, even when two manifests share an identity |
| Cluster.LabelsAfterApply | internal/apply/apply.go:33-60 | after an apply the labels a manifest sets are its own, and labels of others stay |
| Sweep.MidwayCloses | internal/reconcile/modulerelease.go:333-402 | from wherever failed attempts left the cluster, a full apply and an error-free prune end where they would have ended from the start |
| Convergence.SkippedKindsLeaveInventory | internal/apply/prune.go:136-143 | after a stored success the inventory is exactly what was rendered: a skipped Namespace or CRD stays live and unchanged, and stays in the inventory exactly when it is rendered again |
| ReleaseConvergence.RetryConfluence | internal/reconcile/release.go:204-280 | the same confluence for a Release, over reconciles that wait for dependencies, fail at any phase or lose their commit |
| ReleaseConvergence.ApplyThenPruneFate | internal/reconcile/release.go:417-484 | the same fate of every object after a successful attempt of a Release, pruned without a UUID |
| ReleaseConvergence.AttemptMoves | internal/reconcile/release.go:417-484 | how far an attempt of a Release takes the cluster, by how it ends |
| ModuleJournal.InventoryCoverage | internal/reconcile/modulerelease.go:192-209 | over every run without foreign cluster changes a live object the release ever applied is missing from the stored inventory exactly when it was dropped with pruning off, spared by the guard, orphaned or leaked, or applied since the last stored success and not recorded before |
| ReleaseJournal.InventoryCoverage | internal/reconcile/release.go:166-185 | the same exact exceptions for a Release |
| Journal.JournalCovers | internal/reconcile/modulerelease.go:192-209 | the coverage law for any journal of passes |
| Journal.ExceptionsOutside | internal/reconcile/modulerelease.go:203-208 | the exceptions lie outside the inventory, foreign changes or not |
| ModuleJournal.LinesChain | internal/reconcile/modulerelease.go:63-413 | every run is a journal: each reconcile is idle, a halted apply, a full pass, a deletion prune or an orphan exit, as told from its inputs |
| ReleaseJournal.LinesChain | internal/reconcile/release.go:67-280 | the same for every run of a Release |
| ModuleJournal.LifeEnds | internal/reconcile/modulerelease.go:518-646 | when the finalizer goes with pruning on, every live object the release ever applied is pending or one of the exceptions, or recorded and kept by the guard, or recorded and orphaned |
| ReleaseJournal.LifeEnds | internal/reconcile/release.go:620-739 | the same for a Release, pruned without a UUID |
| ModuleJournal.DeletionIsARun | internal/reconcile/modulerelease.go:91-96 | up to the step that drops the finalizer, the run of a release being deleted is a deletion run with the same status, finalizer and cluster |
| ModuleJournal.DeletingExactly | internal/reconcile/modulerelease.go:91-96 | a reconcile of a release being deleted is a deletion attempt under its stored UUID, events included |
| ReleaseJournal.DeletingExactly | internal/reconcile/release.go:96-98 | a reconcile of a Release being deleted is a deletion attempt without a UUID, events included |
| Journal.SuccessForgets | internal/reconcile/modulerelease.go:203-208 | what a stored success neither renders nor finds in the inventory stays as it is and is not recorded |
| ModuleJournal.SteadyRunsLeakNothing | internal/inventory/stale.go:11-31 | while the rendered identities do not change nothing is dropped, spared or leaked |
| ReleaseJournal.SteadyRunsLeakNothing | internal/inventory/stale.go:11-31 | the same for a Release |
| Counterexamples.LeakHappens | internal/reconcile/modulerelease.go:192-209 | a run after which a Ready release has a live object in no inventory |
| Ownership.MarksPersist | internal/reconcile/modulerelease.go:304-310 | run invariant: a release with an inventory to prune has a stored, non-empty UUID of its own |
| Ownership.OwnershipSafety | internal/apply/prune.go:98-114 | after any interleaving of stamped releases no reconcile removes an object that carries another release's UUID |
| Ownership.HandoverSurvives | internal/reconcile/modulerelease.go:708-736 | an object that carries another release's UUID stays exactly as it is while the others drop it, fail, retry and are deleted |
| Ownership.DeletionTakes | internal/reconcile/release.go:645-647 | of the managed, stamped objects of an inventory, a fault-free deletion takes exactly those of the owner's UUID, or all of them when there is no owner UUID |
| DependsOn.ReadySawDependencies | internal/reconcile/release.go:118-132 | a Release becomes Ready only in its own reconcile, with its finalizer in place and while all its dependencies are there and Ready |
| DependsOn.EntangledNeverReady | internal/reconcile/release.go:531-557 | a set of Releases none of which is Ready and each of which depends on one of the set stays so over every run |
| DependsOn.CycleIsEntangled | internal/reconcile/release.go:531-557 | every dependency cycle is such a set |
| DependsOn.DepthReadyAfterRounds | internal/reconcile/release.go:67-280 | in an acyclic graph of running Releases, depth k is Ready after k + 1 fault-free rounds in any order, and stays Ready |
| DependsOn.DepthReadyFromScratch | internal/reconcile/release.go:88-94 | without finalizers depth k is Ready after k + 2 fault-free rounds |
| DependsOn.DepthNotReadyBefore | internal/reconcile/release.go:118-132 | the bound is tight: when nothing is Ready at first and rounds visit dependents first, depth k is not Ready after k rounds, whatever the calls return |
| DependsOn.DepthNotReadyFromScratch | internal/reconcile/release.go:88-94 | the extra round is needed: fresh Releases visited once a round, dependents first, leave depth k not Ready after k + 1 rounds |
| DependsOn.OneVisitIsNotEnough | internal/reconcile/release.go:88-94 | one visit never makes a fresh Release Ready |
| ReleaseLoop.CheckExactly | internal/reconcile/release.go:531-557 | the check passes exactly when every dependency is met; otherwise the first one that is not decides between error and waiting |
| ReleaseLoop.CheckDependencies | internal/reconcile/release.go:536-556 | the loop over the dependencies computes the check |
| DeletionRuns.FinalizerDropsExactly | internal/reconcile/modulerelease.go:518-614 | the finalizer goes exactly when its patch succeeds and pruning is off, or the inventory is empty, was pruned without an error, or is orphaned by the exact annotation with a missing ServiceAccount |
| DeletionRuns.VerdictExactly | internal/reconcile/modulerelease.go:541-646 | exactly when a deletion stalls and for which reason, with its conditions and its event; an orphan exit emits its count; everything else leaves conditions and events alone |
| DeletionRuns.FinalizerSafety | internal/reconcile/modulerelease.go:518-614 | over every run with edits and cluster changes between attempts, once the finalizer is gone nothing deletable of the inventory is left, or an orphan event was emitted, or it went while pruning was off |
| DeletionRuns.DeletionConserves | internal/reconcile/modulerelease.go:549-578 | over every run in which nobody else touches the cluster the live deletable objects never grow, and those left plus those removed are those there were |
| DeletionRuns.DeletableAfterPrune | internal/apply/prune.go:59-133 | a prune shrinks the deletable set by exactly its removals, and empties it if it ends without an error |
| DeletionRuns.InventoryStays | internal/reconcile/modulerelease.go:594-614 | a deletion run works on the inventory it started with until an orphan exit clears it |
| DeletionRuns.DeletionFinishes | internal/reconcile/release.go:620-675 | whatever failed before, one fault-free attempt drops the finalizer |
| DeletionRuns.AttemptEffect | internal/reconcile/release.go:677-707 | an attempt prunes the inventory or leaves the cluster alone, and only the orphan exit clears the inventory |
| DeletionRuns.StallEventsFollowReady | internal/reconcile/modulerelease.go:616-645 | with stored patches, the stall events of a run are as many as the changes of the stored Ready condition |
| DeletionRuns.OneReasonOneEvent | internal/reconcile/modulerelease.go:669-672 | a deletion that only ever stalls for one reason emits at most one stall event |
| LedgerRuns.LedgerInvariant | internal/reconcile/modulerelease.go:182-228 | in every reachable status the inventory has the digest and count of its entries and a revision counting the stored successes; digests and entries are those of the last success, history is the bounded log, and each counter is the current streak of its phase |
| LedgerRuns.HistoryRefinesLog | internal/status/history.go:81-102 | after every run the stored history is the newest ten of all recorded entries, newest first, numbered by their place in the log |
| LedgerRuns.RetryFollowsStreak | internal/reconcile/modulerelease.go:367-369 | a transient failure is retried after the backoff of the streak of failures it makes, every other failure after 30 minutes, and the stored retry time says so |
| LedgerRuns.OutcomeFixesConditions | internal/reconcile/modulerelease.go:150-180 | each committed outcome fixes Ready, Reconciling and Stalled |
| Outcomes.OutcomeExactly | internal/reconcile/modulerelease.go:257-402 | exactly which inputs stall an attempt (failed rendering, failed impersonation, forbidden apply or prune under a ServiceAccount), which are retried, and which succeed with or without a prune |
| Outcomes.ConditionsExactly | internal/reconcile/modulerelease.go:266-402 | the committed Ready, Stalled and Reconciling conditions with the reason of each failure, told from the inputs |
| Outcomes.PhasesExactly | internal/reconcile/modulerelease.go:323-400 | exactly which phases ran and failed, which is what the counters count |
| Outcomes.DigestsExactly | internal/reconcile/modulerelease.go:252-290 | the digests of an attempt, failed or not, told from spec and rendering |
| Outcomes.DriftedExactly | internal/reconcile/modulerelease.go:472-492 | drift is set or cleared by every dry-run that works and cleared by every full apply; resolution is set by every rendering |
| Outcomes.HistoryExactly | internal/status/history.go:19-63 | a success records its four digests and its number of resources, a failure its digests and a message, a no-op nothing |
| Outcomes.SuspendExactly | internal/reconcile/modulerelease.go:102-123 | a suspended release reads Ready=False/Suspended, and nothing else of it or of the cluster changes |
| Outcomes.FinalizerFirst | internal/reconcile/modulerelease.go:83-89 | without the finalizer a reconcile only adds it, even to a release being deleted |
| ReleaseOutcomes.OutcomeExactly | internal/reconcile/release.go:212-280 | exactly which inputs stall, retry or complete an attempt of a Release; a forbidden apply or prune is retried |
| ReleaseOutcomes.ConditionsExactly | internal/reconcile/release.go:290-484 | the committed conditions of a Release with the reason of each failing phase |
| ReleaseOutcomes.PhasesExactly | internal/reconcile/release.go:439-475 | exactly which phases of a Release ran and failed |
| ReleaseOutcomes.DigestsExactly | internal/reconcile/release.go:392-409 | the digests of an attempt of a Release, failed or not |
| ReleaseOutcomes.IdleExactly | internal/reconcile/release.go:102-132 | a suspended or waiting Release changes its Ready condition and nothing else |
| ReleaseOutcomes.FinalizerFirst | internal/reconcile/release.go:88-94 | without the finalizer a reconcile only adds it |
| LedgerRuns.ConditionsCoherent | internal/status/conditions.go:47-75 | in every reachable status Reconciling and Stalled exclude each other and Ready=True excludes both |
| LedgerRuns.NoOpExactly | internal/reconcile/modulerelease.go:312-331 | a no-op verdict is reached exactly when the stored digests are the source digest of path and version, the config digest of the values, and the render and inventory digests of what is rendered now |
| LedgerRuns.NoOpFixpoint | internal/reconcile/modulerelease.go:151-180 | after a stored success the same spec and rendering give a no-op that leaves cluster, inventory, history and last-applied digests alone |
| LedgerRuns.NoOpDecided | internal/reconcile/modulerelease.go:312-319 | after any run a no-op happens exactly when spec and rendering are those of the last stored success as far as the four digests can tell, whatever the cluster looks like |
| LedgerRuns.StoredDigests | internal/reconcile/modulerelease.go:252-290 | in every reachable status the last-applied digests are those of the spec the last stored success ran under and of what it rendered |
| LedgerRuns.NoOpSound | internal/status/digests.go:107-116 | a no-op means that the last stored success had the same module path and version, the same values up to member order and number spelling, and the same multisets of resources and entries |
| LedgerRuns.SilentStall | internal/reconcile/modulerelease.go:388-402 | an attempt fails without a history entry exactly when, told from its inputs, it gets through to a prune of stale entries under an impersonated ServiceAccount and that prune is forbidden |
| Counterexamples.SilentStallHappens | internal/reconcile/modulerelease.go:723-726 | a run from creation whose last attempt stalls the release and leaves the history as it was |
| NoOpRuns.NoOpTruthExactly | internal/reconcile/modulerelease.go:312-331 | after a stored success and any run without another one, a no-op leaves the cluster alone, and what it rendered is live with its manifests exactly when everything that happened since folds each identity back to the manifest the success gave it |
| ReleaseJournal.NoOpTruthExactly | internal/reconcile/release.go:253-264 | the same for a Release |
| Journal.ManifestFolds | internal/apply/prune.go:69-133 | over any journal the manifest at an identity is what the passes fold to: the last one applied, none where it was removed, the one before otherwise |
| NoOpRuns.QuietNoOpIsTruthful | internal/reconcile/modulerelease.go:312-331 | in particular a no-op is truthful if since the last stored success nobody changed the cluster and no reconcile reached the apply |
| NoOpRuns.RevertIsBlind | internal/reconcile/modulerelease.go:312-331 | after a success, an attempt of another spec that reached the apply and was no stored success, and the edit undone, the next attempt is a no-op over exactly what that attempt left |
| Counterexamples.RevertLeavesOther | internal/reconcile/modulerelease.go:312-331 | such a run, with an object that keeps the undone spec's manifest |
| Counterexamples.RevertLosesObject | internal/reconcile/modulerelease.go:244-246 | such a run with a lost status patch: the release is Ready and its object is gone |
| ReleaseRuns.LedgerInvariant | internal/reconcile/release.go:144-202 | the same ledger invariant for a Release, waiting for dependencies included |
| ReleaseRuns.AttemptKeeps | internal/reconcile/release.go:204-280 | one attempt leaves the ledger to the commit, is a no-op exactly through the digests, and classifies failure, delay and conditions by outcome |
| ReleaseRuns.RetryFollowsStreak | internal/reconcile/release.go:486-492 | failed apply or prune backs off by the streak, an unavailable source or artifact waits one interval, a stall half an hour |
| ReleaseRuns.OutcomeFixesConditions | internal/reconcile/release.go:144-156 | each committed outcome fixes the condition triple of a Release |
| ReleaseRuns.ConditionsCoherent | internal/reconcile/release.go:118-132 | coherent conditions in every reachable status of a Release |
| ReleaseRuns.NoOpFixpoint | internal/reconcile/release.go:248-264 | after a success the same artifact and rendering are a no-op exactly when the artifact has a digest |
| ReleaseRuns.NoOpDecided | internal/reconcile/release.go:253-264 | after any run a no-op happens exactly when the artifact has the digest of the last stored success and renders what it rendered as far as the digests can tell |
| ReleaseRuns.StoredLedger | internal/reconcile/release.go:166-185 | in every reachable status digests and inventory are those of the last stored success's artifact and rendering |
| ReleaseRuns.NoOpSound | internal/status/digests.go:107-116 | a no-op means the same artifact digest and the same multisets of resources and entries as the last stored success |
| Prune.Store.Prune | internal/apply/prune.go:59-133 | the loop leaves the store and returns the counts and errors of pruning entry by entry |
| Prune.PruneShape | internal/apply/prune.go:69-133 | pruning only takes objects away, only deletable ones, and all of them if it ends without an error |
| Prune.PruneAccounting | internal/apply/prune.go:64-133 | deleted, skipped, gone and failed entries add up to the list, and each removal is one identity less |
| Prune.PruneLoses | internal/apply/prune.go:116-130 | the cluster loses exactly the identities whose delete went through |
| Prune.FateExactly | internal/apply/prune.go:69-130 | exactly which entries are skipped, gone, deleted, vanished or failed, by the object live when their turn comes |
| Prune.GuardExactly | internal/apply/prune.go:96-114 | the guard lets go exactly the objects managed by one of the three OPM tools and not stamped with another UUID |
| Prune.ErrorsInOrder | internal/apply/prune.go:95-125 | one error for each entry that failed, in order |
| Prune.ForbiddenExactly | internal/reconcile/modulerelease.go:749-755 | a joined error is forbidden exactly when the first API status in it is |
| Prune.PruneOrderFree | internal/apply/prune.go:69-133 | for distinct identities the result does not depend on the order of the list |
| Prune.FatesIndependent | internal/apply/prune.go:69-133 | with distinct identities every entry meets the fate it would meet alone |
| Inventory.BuildInventoryEntries | internal/render/module.go:156-166 | all entries in order, or an error if any resource does not convert |
| Inventory.EntryReads | internal/inventory/entry.go:12-30 | an entry's namespace, name and component label are the manifest's, its kind and group too unless the apiVersion has more than one "/", which empties them |
| Inventory.ApiVersionReads | internal/inventory/entry.go:12-30 | apiVersion "g/v" is group g and version v, one without "/" is a version of the core group |
| Inventory.IdentityExactly | internal/inventory/entry.go:46-51 | two manifests name one object exactly when group, kind, namespace and name agree |
| Convergence.MoveLeavesNothing | internal/inventory/stale.go:11-31 | after a successful pruning attempt a recorded, deletable object of a namespace nothing is rendered in any more is gone from it |
| Inventory.ComputeStaleSet | internal/inventory/stale.go:11-31 | the nested loops return the previous entries that are not kept, in order |
| Inventory.StaleExactly | internal/inventory/entry.go:46-51 | an entry is stale exactly when it was there and nothing current has its identity, whatever its version or component |
| Inventory.StaleInOrder | internal/inventory/stale.go:15-29 | the stale entries of a list are those of its parts, in order and duplicates included |
| Inventory.InventoryDigestDecides | internal/inventory/digest.go:15-47 | equal inventory digests exactly for permutations |
| Digests.SourceDigestExact | internal/status/digests.go:40-43 | some other module reference has the same source digest exactly when the path or the version holds "@" |
| Digests.SourceDigestDecides | internal/status/digests.go:40-43 | two references whose versions hold no "@" are told apart |
| Digests.ConfigDigestDecides | internal/status/digests.go:50-70 | equal config digests exactly for trees that differ in member order, at any depth, or in the spelling of equal numbers; a missing input never collides |
| Digests.ComputeRenderDigest | internal/status/digests.go:77-103 | copy, sort and streaming loop compute the render digest, or an error if a resource does not marshal |
| Digests.RenderDigestReads | internal/status/digests.go:77-103 | equal render digests exactly for equal key-sorted lists, because concatenated JSON objects are uniquely readable |
| Digests.RenderDigestDecides | internal/status/digests.go:77-103 | equal render digests mean the same multiset of resources, and conversely when ties are identical |
| Digests.RenderDigestOrderFree | internal/status/digests.go:80-92 | the render digest is independent of the render order exactly when resources of one group, kind, namespace and name are the same |
| Ordering.StringLessExactly | internal/status/digests.go:80-92 | strings compare by their first difference, a prefix first |
| Digests.SwapChangesDigest | internal/status/digests.go:80-92 | swapping two different resources with one sort key changes the digest |
| Digests.HashInOrder | internal/status/digests.go:94-102 | the streaming loop hashes the concatenation, or fails at a resource that does not marshal |
| Digests.CanonicalDecides | internal/status/digests.go:50-70 | two trees get one canonical form exactly when they differ in member order or number spelling only |
| Json.TextInjective | internal/status/digests.go:50-70 | a JSON text has one tree |
| Json.StreamInjective | internal/status/digests.go:94-102 | concatenated JSON objects (section 4 of RFC 8259) are uniquely readable without separators |
| Status.HistoryKeepsNewest | internal/status/history.go:81-102 | recording a log of any length leaves its newest ten entries, newest first |
| Status.Subject.RecordHistory | internal/status/history.go:81-89 | prepends with the next sequence number and trims |
| Status.Subject.ComputeNextSequence | internal/status/history.go:91-102 | one more than the largest stored sequence number, 1 for an empty history |
| Status.Subject.EnsureCounters | internal/status/counters.go:26-33 | a missing counter field becomes zeros, nothing else changes |
| Backoff.BackoffLaw | internal/reconcile/backoff.go:23-32 | min(5s * 2^(n-1), 5min): monotone, within bounds, at the cap exactly from the seventh failure |
| Reconcile.UpdateFailureCounters | internal/reconcile/modulerelease.go:428-465 | each counter counts on, is reset or is left, by whether its phase ran and failed |
| Reconcile.CommitStatus | internal/reconcile/modulerelease.go:150-247 | the deferred function's whole effect on the status |
| Reconcile.RecordOutcome | internal/reconcile/modulerelease.go:192-216 | last-applied digests, inventory and history together on success, the history alone on a failure with a message |
| Reconcile.ApplyAll | internal/apply/apply.go:33-60 | the manifests the call got to are merged in order, all of them on success |
| Ledger.CommitKeepsLedger | internal/reconcile/modulerelease.go:192-216 | a commit records a success in inventory, digests and log at once, or leaves inventory and last-applied digests alone |
| Ledger.CommitKeepsCounters | internal/reconcile/release.go:561-588 | a commit moves every counter by exactly one step of its streak |
| Ledger.CommitSchedules | internal/reconcile/modulerelease.go:222-228 | a failure leaves its retry time, anything else clears it |
| Ledger.DeletionUntouched | internal/reconcile/release.go:620-739 | deletion records nothing in digests, history or counters |
| Reconcile.Server.Delete | internal/reconcile/modulerelease.go:518-578 | the deletion path updates status, finalizer, cluster and events as the deletion function says |
| Reconcile.Server.DeleteWithoutClient | internal/reconcile/modulerelease.go:584-646 | orphan exit, missing-ServiceAccount stall and generic stall |
| Reconcile.Server.StallOnDeletion | internal/reconcile/modulerelease.go:551-564 | Stalled and Ready=False with the reason, and an event unless Ready already said so |
| ModuleRelease.ReconcileModuleRelease | internal/reconcile/modulerelease.go:63-413 | one call turns object, cluster and events into those of the step the run theorems are about |
| ModuleRelease.RunAttempt | internal/reconcile/modulerelease.go:249-412 | the body up to its return leaves status, cluster and verdict as the phase functions say |
| ModuleRelease.ApplyAndPrune | internal/reconcile/modulerelease.go:333-402 | apply and prune phases, with forbidden stalls |
| ModuleRelease.PruneStaleResources | internal/reconcile/modulerelease.go:708-736 | outcome, success, error and condition of the prune phase |
| ModuleRelease.ExtractReleaseUUID | internal/reconcile/modulerelease.go:811-818 | the first non-empty UUID label |
| ModuleRelease.UUIDExactly | internal/reconcile/modulerelease.go:811-818 | the UUID is that of the first manifest that has one |
| ReleaseLoop.ReconcileRelease | internal/reconcile/release.go:67-280 | one call turns object, cluster and events into those of the step the run theorems are about |
| ReleaseLoop.RunAttempt | internal/reconcile/release.go:204-280 | the body after the dependency check leaves status, cluster and verdict as the phase functions say |
| ReleaseLoop.ApplyAndPrune | internal/reconcile/release.go:417-484 | the apply and prune phases of a Release, without forbidden stalls and without an owner UUID |
| AttemptFacts.AttemptKeeps | internal/reconcile/modulerelease.go:249-412 | one attempt leaves the ledger to the commit and its verdict fits its outcome |
| AttemptFacts.AttemptMoves | internal/reconcile/modulerelease.go:333-402 | how far an attempt takes the cluster, by how it ends |
| Match.Match | pkg/render/match.go:44-116 | the nested loops compute the plan, or an error |
| Match.MatchRow | pkg/render/match.go:63-90 | one component against every transformer |
| Match.HandledTraits | pkg/render/match.go:96-105 | the traits the matched transformers require or allow for |
| Match.UnhandledTraits | pkg/render/match.go:106-111 | the component's other traits, sorted |
| Match.MissingMapLabels | pkg/render/match.go:225-243 | the required pairs the component lacks, sorted |
| Match.MissingKeys | pkg/render/match.go:247-265 | the required keys the component lacks, sorted |
| Match.LabelPairs | pkg/render/match.go:192-206 | the pairs of all string fields |
| Match.ComputeFieldKeys | pkg/render/match.go:210-221 | the regular labels, sorted |
| MatchFacts.MatchMeansFits | pkg/render/match.go:60-90 | a match never misses a fitting transformer and, with unambiguous label keys, means that all required labels, resources and traits are there |
| MatchFacts.KeysConfused | pkg/render/match.go:192-206 | two label keys can be confused exactly when one continues the other across "=" |
| MatchFacts.AmbiguityMisleads | pkg/render/match.go:225-243 | for any such keys a transformer matches a component without the label |
| MatchFacts.UnmatchedExactly | pkg/render/match.go:92-94 | unmatched components are exactly those no transformer matches, in order |
| MatchFacts.UnhandledExactly | pkg/render/match.go:96-111 | a trait is unhandled exactly when no matching transformer requires it or allows for it |
| MatchFacts.MissingExactly | pkg/render/match.go:76-86 | a result lists exactly the required labels, resources and traits the component lacks, in order |
| MatchFacts.PlanExactly | pkg/render/match.go:60-90 | the plan holds exactly the pairs of components and transformers, each with its own result |
| MatchFacts.MatchFailsExactly | pkg/render/match.go:44-71 | exactly when matching is an error, and that without transformers the plan is empty |
| Render.MatchedPairs | pkg/render/match.go:120-136 | whatever order the maps are read in, the strictly sorted list of exactly the matched pairs |
| Render.NonMatchedPairs | pkg/render/match.go:141-163 | the same for the non-matched pairs, each with its missing items |
| Render.PairListUnique | pkg/render/match.go:120-163 | such a list is unique, so it does not depend on map order |
| Render.PairsPartition | pkg/render/match.go:118-163 | the two lists partition components x transformers |
| Render.MatcherCorrect | pkg/render/match.go:44-136 | with unambiguous label keys, a pair is listed exactly when everything required is there |
| Render.ExecuteTransforms | pkg/render/execute.go:43-74 | up to the first observed cancellation the resources can be cut into what each pair gave, in order, with nothing missing and nothing else, and every failure is collected |
| Render.InOrderMembers | pkg/render/execute.go:64-70 | such resources hold exactly what the pairs gave |
| Render.FailuresExactly | pkg/render/execute.go:64-68 | the errors name exactly the pairs that failed |
| Render.Execute | pkg/render/module_renderer.go:77-120 | the unmatched gate and the all-or-nothing result: a success is what the matched pairs gave, in order |
| Render.RenderingExactly | pkg/render/module_renderer.go:91-109 | rendering succeeds exactly when every component has a matching transformer, every matching pair executes and nothing cancels |
| Render.SuccessCoversComponents | pkg/render/match.go:55-58 | a success of Execute covers every component exactly when the provider has transformers or there are no components; otherwise it is an empty success |
| Render.RenderResources | internal/render/module.go:102-117 | match, execute, reject an empty result, build the entries; a success is what the matched pairs gave, in order |
| Render.LoopsSeeEverything | internal/render/release.go:77-87 | a rendering the reconcile loops accept covers every component, executes every matched pair, and holds exactly what the matched pairs gave, in their order |

## Left out

- CUE loading, unification, finalisation, validation and the execution of one pair: the renderer and the pair executor are arbitrary outcomes.
- Source resolution, fetching, archive extraction and path navigation: arbitrary outcomes of each phase.
- Flux server-side apply internals (staging, readiness waits, forced recreation of immutable objects): apply is a per-object merge under one field manager; drift detection and impersonated clients are arbitrary outcomes.
- Interleaving inside one reconcile: reconciles are atomic with respect to each other, reads of the object are current, and nothing happens between the Get and the Delete of one pruned entry except that the object may vanish.
- The entry's API version in the prune's Get: objects are found by group, kind, namespace and name, so a version that is no longer served is only an arbitrary API error.
- Other finalizers on a deleted object: the finalizer is added before the deletion branch is reached, so progress is stated for runs that end when this finalizer goes.
- The link between deletion runs and runs of a Release: stated for a ModuleRelease only.
- Timestamps, durations, observedGeneration, metrics, log and event texts, and every event but those of deletion; error messages are only empty or not.
- Warnings of the match plan and of single pairs, component summaries, `IdentityEqual`: display or unused here.
- int64 overflow of counters, revisions and sequence numbers: they are unbounded.
- Digests.ConfigDigestDecides: how float64 prints a number is a parameter, so numbers compare by their printed form.
- UTF-8: strings are sequences of code points, on which Go's byte order agrees; invalid UTF-8 is not modelled.
- BundleRelease (a stub), `pkg/resourceorder`, manager wiring, watches and rate limiters.
