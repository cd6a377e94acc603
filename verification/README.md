# Verified model of the platform core

A Dafny model of the parts of the Unikorn core library whose correctness is an argument
about interleavings, whole runs or whole trees, with proofs of what those parts promise:

- the **refresh-ahead cache**: an indexed snapshot refreshed in the background, with a
  write-through overlay, epochs that identify the visible view, and coalescing invalidations;
- the **manager's object lifecycle**: finalizers, optimistic updates, conditions, the
  provisioning log, and the path from a provisioner's error to the status a user sees;
- the **provisioner algebra**: serial, concurrent and conditional groups, and remote clusters
  shared by reference count;
- the **ArgoCD driver's** identity bookkeeping by label selection;
- the dictionary **trie**, the **saga** runner and **deterministic resource names**.

`dafny verify dfyconfig.toml` checks the whole project.

## How it is laid out

Shared state that concurrent actors touch is modelled twice. The code that changes it is a class
or a loop with a contract (`RefreshAheadCache`, `Reconciler`, `Provisioners`, `RemoteCluster.Remote`,
`ArgoDriver.Driver`, `Trie`, `Saga`, `ResourceId`), and the interleavings are a state machine of
atomic steps: a run is any sequence of steps each of which is enabled, nondeterminism is in the
steps' arguments, and the theorems are about every run.

| files | what they hold |
|---|---|
| `CacheModel`, `CacheRuns`, `InvalidateProtocol`, `InvalidateResults`, `RefreshAheadCache` | critical sections of the cache as functions; runs of refreshes, local writes and backend changes; the invalidation protocol around them, and what its callers are told; the object |
| `ProvisioningStatus`, `ResourceReferences`, `ReconcileModel`, `ReconcileRuns`, `Reconciler` | error trees and conditions; references among finalizers; store, reconciler and other actors; their runs; the passes as code |
| `ProvisionerTree`, `TreeSoundness`, `TreeConvergence`, `Provisioners`, `RemoteCluster`, `RemoteHandles` | traces of a tree; what a result means; how many passes it takes; the groups' loops; shared remotes, and what each handle on them returns |
| `ArgoDriver`, `Trie`, `Saga`, `ResourceId`, `Common` | one component each, and `Option` |

## Assumptions

- Cache items are values, their `Equal` is an equivalence relation, and `Index` and `Equal` do not
  panic. For read-your-writes, the backend write precedes the local one, and a refresh lists every
  key as the backend held it at some moment after the refresh began (not one snapshot of all keys). For
  what an insert is worth, the backend keeps every item under its own index.
- Only the reconciler removes its own finalizer and writes the Available condition; one worker at a
  time handles an object, reads are linearizable, and updates land only on the version they were
  made from, although the reply may be lost.
- The predicates of conditional provisioners do not change during a pass; for the number of passes,
  no leaf occurs twice and each yields a fixed number of times before it succeeds.
- One worker at a time handles an application identifier, list calls are linearizable, and a reply to a
  write may be lost.

## What the code does not promise

Each of these is a lemma; the condition under which the promise does hold is one too.

- A refresh callback that panics makes `Invalidate` return nil without any commit
  (`PanicBreaksFreshness`); in a run without panics every nil is backed by one (`NilMeansFresh`), and
  what the backend held when the call began is then visible (`NilShowsNewValues`).
- `InsertIfAbsent` on a taken key is no write and gives no read-your-writes: the stale value may stay
  (`NoOpInsertIsNotReadYourWrites`), and even the right one may go again (`UnheldIsLost`). The promise
  holds iff the key was free or the item was already safe (`InsertKeepsPromiseIff`).
- A parked failure can show as still provisioning: a yield joined to a terminal error, or a terminal
  error with a reason of its own (`ParkedAsProvisioning`, `ParkedShowsErrorIff`).
- A crash or a lost reply between committing a condition and logging it loses that transition for good
  (`CrashLosesTransition`); nothing else does (`LogIsHistoryWithoutStutters`).
- The README of the remote cluster package says the remote exists before children are provisioned and
  goes only after all of them are done. A sibling proceeds after a failed registration
  (`SiblingProceedsUnregistered`), so the first is sure only of a single handle
  (`ChildrenAlwaysRegisteredIff`) or a registration that succeeds (`RegisteredForAllIff`). A false
  predicate above one of several handles can delete the remote under a child being provisioned
  (`MixedPassDeletesLiveRemote`), so the second is sure iff all handles go in one direction
  (`RemoteOutlivesChildrenIff`).
- Identifiers whose label maps are contained in one another end up with ambiguous lookups
  (`OverlapBreaksLookup`, `UnambiguousIffAntichain`).
- The comments on deterministic names say distinct invariants never collide. An invariant made of the
  sixteen bytes of a UUID that the loop passed over does, whatever the hash
  (`PassedOverUuidIsASecondInvariant`, `SameNameIff`).
- The README of the provisioners package says an untyped error is stringified onto the condition; the
  code writes a fixed message, and the model follows the code (`NonInterference`).

## Model

| member | source | states |
|---|---|---|
| `CacheRuns.Refinement` | pkg/util/cache/refresh_ahead.go:298-407 | in every run the view equals the last committed data overridden, key by key, by the last local write later than that refresh's start, and the overlay is exactly those writes |
| `CacheRuns.EpochIdentity` | pkg/util/cache/refresh_ahead.go:599-632 | over any stretch of any run the published epoch never goes back, and two snapshots with equal epochs are Equal key for key |
| `CacheRuns.RefreshKeepsEpochIffUnchanged` | pkg/util/cache/refresh_ahead.go:604-632 | a refresh keeps the epoch if and only if the view is Equal to the one before; otherwise the new epoch is strictly later, also when it is the older refresh-start epoch |
| `CacheRuns.FirstCommitPublishes` | pkg/util/cache/refresh_ahead.go:604-632 | the first refresh that commits fills the cache with exactly its data and publishes the epoch at which it began; an empty listing fills it without publishing one |
| `CacheRuns.ReadYourWrites` | pkg/util/cache/refresh_ahead.go:183-209 | a write that lands after its backend commit stays visible through any number of overlapping refreshes until its key is written again |
| `CacheRuns.InsertKeepsPromiseIff` | pkg/util/cache/refresh_ahead.go:298-330 | once the backend holds the item, InsertIfAbsent on a filled cache shows it at once iff its key was free or showed it already, and in every undisturbed continuation iff the key was free or the item was already safe from the refresh in flight |
| `CacheRuns.UnheldIsLost` | pkg/util/cache/refresh_ahead.go:308-312 | an item that is visible but not safe can be hidden again by the refresh in flight, with nothing else written at its key |
| `CacheRuns.NoOpInsertIsNotReadYourWrites` | pkg/util/cache/refresh_ahead.go:308-312 | a run in which the insert reports success and the stale value stays visible |
| `CacheRuns.StepKeepsInv` | pkg/util/cache/refresh_ahead.go:576-602 | every step keeps the refinement, the order of all epochs, and that a published epoch newer than the refresh in flight belongs to a write that outlives it |
| `CacheRuns.RunKeepsHeld` | pkg/util/cache/refresh_ahead.go:388-398 | what protects a written item from the refresh in flight is kept by every undisturbed run |
| `InvalidateProtocol.NilMeansFresh` | pkg/util/cache/refresh_ahead.go:459-492 | in every run in which the callback never panics, a call that returned nil, sender or joiner, was followed by the commit of a refresh whose epoch was allocated after the call began |
| `InvalidateProtocol.NilShowsNewValues` | pkg/util/cache/refresh_ahead.go:456-492 | over protocol and cache together: if the backend holds an item when a call enters and from then on nothing else is written at its key and no callback panics, readers see it from the call's nil on, whatever older writes and refreshes were around |
| `CacheRuns.LaterCommitShows` | pkg/util/cache/refresh_ahead.go:365-398 | what the backend holds is visible from the commit of any refresh begun afterwards on, older local writes at its key notwithstanding |
| `InvalidateProtocol.InvalidateFreshness` | pkg/util/cache/refresh_ahead.go:428-442 | in every run, the only other way to a nil is that the refresh serving that very call panicked |
| `InvalidateProtocol.PanicBreaksFreshness` | pkg/util/cache/refresh_ahead.go:568-574 | from every idle state, a panicking callback yields a nil with no such commit |
| `InvalidateResults.InvalidateReturns` | pkg/util/cache/refresh_ahead.go:436-517 | in every run at most one refresh serves a request; a call on it that has returned was told nil iff that refresh committed or panicked, and an error iff it failed or met a conflict or the queue was closed; a refresh is among the commits iff its data had no conflict |
| `InvalidateResults.RunReturns` | pkg/util/cache/refresh_ahead.go:411-454 | in every run, once the first refresh is over Run has failed iff it neither committed nor panicked and serves iff it did, and the loop has stopped iff it was shut down |
| `InvalidateProtocol.ProtocolSafety` | pkg/util/cache/refresh_ahead.go:428-449 | the pending request's refresh has not begun, done channels are closed exactly once when decided and never otherwise, and every waiter's request is closed or has a live owner, also when shutdown closes the queue mid-send |
| `InvalidateProtocol.EventKeepsInv` | pkg/util/cache/refresh_ahead.go:465-517 | every step of callers, loop and panic recovery keeps the protocol invariant |
| `InvalidateProtocol.RunsProject` | pkg/util/cache/refresh_ahead.go:411-454 | the protocol runs at most one refresh at a time, so each of its runs is a run of the cache machine |
| `RefreshAheadCache.CacheMapEqual` | pkg/util/cache/refresh_ahead.go:126-143 | comparing sizes and then only the left map's keys decides equality in both directions |
| `RefreshAheadCache.BuildIndex` | pkg/util/cache/refresh_ahead.go:586-596 | the index is built iff no index occurs twice, holds every item under its index and nothing else, and a reported conflict names one that does |
| `RefreshAheadCache.Prune` | pkg/util/cache/refresh_ahead.go:385-398 | one walk in any order keeps exactly the entries later than the refresh and lays them over the data |
| `RefreshAheadCache.Cache.NewEpoch` | pkg/util/cache/refresh_ahead.go:284-288 | epochs are allocated one after the other |
| `RefreshAheadCache.Cache.InsertIfAbsent` | pkg/util/cache/refresh_ahead.go:298-330 | the fields change as the machine's insert step says; ErrInvalid before the first refresh |
| `RefreshAheadCache.Cache.Upsert` | pkg/util/cache/refresh_ahead.go:340-363 | the fields change as the machine's upsert step says; ErrInvalid before the first refresh |
| `RefreshAheadCache.Cache.MergeAndPruneOverlay` | pkg/util/cache/refresh_ahead.go:369-407 | the overlay keeps the surviving writes and the result is the merged view |
| `RefreshAheadCache.Cache.Commit` | pkg/util/cache/refresh_ahead.go:599-633 | the locked part of a refresh does what the machine's commit says |
| `RefreshAheadCache.Cache.FinishRefresh` | pkg/util/cache/refresh_ahead.go:568-633 | nil iff committed or panicked; a failed callback and a repeated index each have their own error, the latter naming the index, and like a panic change no field |
| `RefreshAheadCache.Cache.Get` | pkg/util/cache/refresh_ahead.go:520-539 | the item of the current view with its epoch, or the error that says why not |
| `RefreshAheadCache.Cache.List` | pkg/util/cache/refresh_ahead.go:542-565 | every item of the view once, with its epoch |
| `ProvisioningStatus.NonInterference` | pkg/manager/reconcile.go:314-375 | errors that differ only in wrap prose and untyped text give the same condition, both ways, and the same requeue decision |
| `ProvisioningStatus.StatusAgreesWithRequeue` | pkg/server/conversion/conversion.go:46-93 | for any chain of wraps around sanctioned errors: complete shows provisioned, a yield provisioning, a parked failure an error |
| `ProvisioningStatus.ParkedShowsErrorIff` | pkg/manager/reconcile.go:256-280 | for any error tree, exactly when a parked failure shows as an error |
| `ProvisioningStatus.ParkedAsProvisioning` | pkg/provisioners/errors.go:149-159 | two parked failures that show as provisioning |
| `ProvisioningStatus.DeriveCondition` | pkg/manager/reconcile.go:299-376 | the derivation in two phases leaves what the tips of the error tree call for; status true iff no error, untouched iff cancelled without a yield |
| `ProvisioningStatus.DerivedShowsOutcome` | pkg/manager/reconcile.go:314-375 | for every error tree, by its tips: done without an error; else reason and message of the first typed tip; without one the waiting words iff a tip yields, and Errored with its fixed message for every other failure, parked or retried |
| `ProvisioningStatus.RequeueByTips` | pkg/manager/reconcile.go:256-281 | complete iff no error, parked iff a tip is terminal or waits for the user, retried otherwise |
| `ProvisioningStatus.PlainFailureShowsError` | pkg/manager/reconcile.go:339-358 | a failure without typed tip, yield or cancellation shows as an error in the API, also while it is retried |
| `ProvisioningStatus.DependenciesShow` | pkg/provisioners/errors.go:195-214 | the three dependency errors under any wraps: reason, message, requeue decision and coarse status |
| `ProvisioningStatus.AsFindsFirst` | pkg/provisioners/errors.go:108-147 | what is recovered from a tree is its first typed error depth first, and nothing only if it has none |
| `ProvisioningStatus.IsFindsAny` | pkg/provisioners/errors.go:131-135 | a disposition is found iff some tip of the tree is it or carries it |
| `ProvisioningStatus.ChainReadsAsBase` | pkg/provisioners/errors.go:131-147 | wrapping hides nothing from Is and As |
| `ResourceReferences.GetResourceReferences` | pkg/manager/reference.go:75-89 | exactly the finalizers other than the two ignored ones |
| `ResourceReferences.ReferencesInOrder` | pkg/manager/reference.go:84-88 | they are kept in order |
| `ResourceReferences.ReferenceIsNeverIgnored` | pkg/manager/reference.go:59-69 | a generated reference on an object always counts as one |
| `ResourceReferences.LegacyReference` | pkg/manager/reference.go:59-69 | the exact text of a reference, with the legacy group written as the Kubernetes service's own |
| `ResourceReferences.ReferencesCoincideIff` | pkg/manager/reference.go:40-69 | two references are equal iff kind, name and group agree, up to the legacy group |
| `ReconcileRuns.NoOrphanedResources` | pkg/manager/reconcile.go:171-245 | in every run, an object on which Provision was invoked and no later Deprovision returned nil is in the store under our finalizer |
| `ReconcileRuns.ReferencesBlockDeletion` | pkg/manager/reconcile.go:174-226 | a finalizer removal that lands finds no reference and no dependents finalizer stored, nothing still provisioned, and the object vanishes |
| `ReconcileRuns.LogIsHistoryWithoutStutters` | pkg/manager/reconcile.go:377-397 | the logged transitions are the committed conditions without stutters, the last being the stored one, iff no event of the run is a crash or a lost reply between a changed condition's commit and its log line, and fall short by the number of such events |
| `ReconcileRuns.DedupMeans` | pkg/manager/reconcile.go:377-391 | without stutters: no two neighbours are equal, no condition is lost altogether, and a history without stutters is unchanged |
| `ReconcileRuns.QuietRunLogsEverything` | pkg/manager/reconcile.go:377-397 | a run without crashes and without lost replies to status updates logs exactly that history |
| `ReconcileRuns.CoarseStatusFollowsLife` | pkg/server/conversion/conversion.go:46-93 | in every run: deprovisioning once deletion is requested, pending exactly until a first condition is committed, then each status exactly for the last committed reasons it stands for |
| `ReconcileRuns.CrashLosesTransition` | pkg/manager/reconcile.go:385-394 | a run that loses one |
| `ReconcileRuns.EventKeepsInv` | pkg/manager/reconcile.go:125-162 | every step of the reconciler, of others and every crash keeps coherence of copies, draining before finalizing, no orphans and the log's account |
| `ReconcileRuns.RefusedWritesNothing` | pkg/manager/reconcile.go:217-243 | a refused write leaves store and history as they are |
| `Reconciler.Manager.HandleReconcileCondition` | pkg/manager/reconcile.go:299-397 | succeeds iff the condition was written and the reply heard or there was none to write, commits exactly the condition derived from the pass's error if the write landed, and goes on to remove the finalizer exactly after a nil deprovision |
| `Reconciler.Manager.ReconcileDelete` | pkg/manager/reconcile.go:171-231 | the delete pass continues the run; with the condition dealt with, a yield is requeued, any other error backs off, a nil is done once the finalizer is seen removed, and then the object has vanished |
| `Reconciler.Manager.FinalizeObject` | pkg/manager/reconcile.go:217-230 | our finalizer is the last one, and removing it makes the object vanish |
| `Reconciler.Manager.ReconcileNormal` | pkg/manager/reconcile.go:235-281 | the normal pass continues the run; it backs off without provisioning if the finalizer is not seen added, and otherwise is requeued iff the condition was not dealt with or the provisioner's error is neither nil nor terminal |
| `Reconciler.Manager.ProvisionObject` | pkg/manager/reconcile.go:245-281 | the same from the provisioner's call on |
| `Reconciler.Manager.Reconcile` | pkg/manager/reconcile.go:94-163 | a whole pass under arbitrary interference continues the run; from the object read: an absent, paused or finalizer-free deleted object is left alone and done, a deletion blocked by anybody else's finalizer is requeued without deprovisioning, and otherwise the result is the delete or normal verdict on the tips of what the provisioner returned, and the condition committed is the one it calls for; no orphan is left |
| `TreeSoundness.TreeSound` | pkg/provisioners/conditional/provisioner.go:53-68 | under every interleaving, nil means exactly one successful call per leaf, in the direction the predicates above it give; an error is one of the leaves' |
| `TreeSoundness.SerialOrder` | pkg/provisioners/serial/provisioner.go:49-89 | in every pass no leaf is touched before each leaf that precedes it in a serial node, later ones first when deprovisioning, has returned nil |
| `TreeSoundness.EveryMemberRuns` | pkg/provisioners/concurrent/provisioner.go:54-129 | whatever its siblings return, every member completes a run of its own, read off the calls on its leaves; the group returns nil iff all members do, and else one member's error |
| `TreeSoundness.ConcurrentSound` | pkg/provisioners/concurrent/provisioner.go:54-129 | the calls of a concurrent group are among the expected ones, all of them iff it reports nil |
| `ProvisionerTree.ShuffleOrder` | pkg/provisioners/concurrent/provisioner.go:61-84 | interleaving keeps the order within each member |
| `TreeConvergence.PassLowersWorkByOne` | pkg/provisioners/serial/provisioner.go:49-89 | a pass returns nil iff no work is left, and otherwise yields and leaves exactly one unit less: a sum over serial, a maximum over concurrent children |
| `TreeConvergence.Converges` | pkg/provisioners/concurrent/provisioner.go:54-129 | over any number of passes, each interleaved in its own way, the i-th one succeeds iff i has reached the initial work |
| `TreeConvergence.PlayedOnce` | pkg/provisioners/concurrent/provisioner.go:61-84 | with no leaf called twice, threading the leaves' state through any interleaving gives the same answers |
| `Provisioners.Cluster.RunSerial` | pkg/provisioners/serial/provisioner.go:49-89 | the forward and the backward loop with early return are serial runs |
| `Provisioners.Cluster.RunConcurrent` | pkg/provisioners/concurrent/provisioner.go:54-129 | running all members and keeping the first error is a concurrent run |
| `Provisioners.Cluster.RunTree` | pkg/provisioners/conditional/provisioner.go:53-68 | executing a tree is a run of it and lowers its work by one |
| `RemoteCluster.DriverCallsExactly` | pkg/provisioners/remotecluster/provisioner.go:157-191 | whatever the directions: one registration iff the first handle counted provisions, one deletion iff all were counted and the last one deprovisions |
| `RemoteCluster.RegisteredOnceBeforeChildren` | pkg/provisioners/remotecluster/provisioner.go:224-256 | a provisioning pass attempts registration once, over before any child begins, and never deletes |
| `RemoteCluster.DeletedOnceAfterAll` | pkg/provisioners/remotecluster/provisioner.go:259-325 | a deprovisioning pass deletes iff every handle was counted, which once all have returned is iff each had finished without error, and only after the last of them |
| `RemoteCluster.RegisteredForAllIff` | pkg/provisioners/remotecluster/provisioner.go:157-191 | once a child has begun in a provisioning pass, all of them began on a registered remote iff the registration did not fail |
| `RemoteCluster.ChildrenAlwaysRegisteredIff` | pkg/provisioners/remotecluster/provisioner.go:165-191 | that holds in all runs iff the remote has at most one handle |
| `RemoteCluster.SiblingProceedsUnregistered` | pkg/provisioners/remotecluster/provisioner.go:165-191 | with two handles or more, a run in which a sibling's child begins after the failed registration |
| `RemoteCluster.RemoteOutlivesChildrenIff` | pkg/provisioners/remotecluster/provisioner.go:303-322 | in all runs no deletion begins under a running child, iff all handles go in one direction |
| `RemoteCluster.MixedPassDeletesLiveRemote` | pkg/provisioners/remotecluster/provisioner.go:303-322 | in every pass with mixed directions, any deprovisioning handle can delete the remote under any provisioning one's child |
| `RemoteHandles.HandleReturns` | pkg/provisioners/remotecluster/provisioner.go:224-325 | in every pass, for all directions and interleavings, from the steps of the run: a provisioning handle returns nil iff its registration if any, its connection and its child succeeded, a deprovisioning one iff its child finished or the configuration was gone and its deletion if any succeeded; an error iff one of these failed |
| `RemoteHandles.LogIsTrue` | pkg/provisioners/remotecluster/provisioner.go:157-191 | in every pass, the caller that registers is the first handle counted and the one that deletes the last of all, calls end as their caller was told, and children begin and finish as their steps say |
| `RemoteCluster.Remote.ProvisionOn` | pkg/provisioners/remotecluster/provisioner.go:139-155 | every handle is counted into refCount |
| `RemoteCluster.Remote.EnterProvision` | pkg/provisioners/remotecluster/provisioner.go:160-168 | the counter and the decision to register |
| `RemoteCluster.Remote.EnterDeprovision` | pkg/provisioners/remotecluster/provisioner.go:303-314 | the counter and the decision to delete |
| `ArgoDriver.ApplicationsAreUnique` | pkg/cd/argocd/driver.go:354-412 | for a family without overlapping selectors, every run keeps at most one application per identifier, no lookup is ambiguous, and after a foreground delete that returned nil there is none until its worker creates it anew |
| `ArgoDriver.UnambiguousIffAntichain` | pkg/cd/argocd/driver.go:229-250 | lookups are unambiguous in all runs iff no identifier's labels are contained in another's |
| `ArgoDriver.OverlapBreaksLookup` | pkg/cd/argocd/driver.go:229-250 | the run that breaks the lookup for any such pair |
| `ArgoDriver.ExtraLabelOverlaps` | pkg/cd/argocd/driver.go:229-233 | an identifier with one label more is picked by the shorter one's selector, and not the other way round |
| `ArgoDriver.LabelsMean` | pkg/cd/argocd/driver.go:104-115 | the last label of every name wins, the application key holds the identifier's name unless a label takes it, and there is nothing else |
| `ArgoDriver.ApplicationLabels` | pkg/cd/argocd/driver.go:104-115 | the loop builds that label map |
| `ArgoDriver.Driver.Lookup` | pkg/cd/argocd/driver.go:229-250 | not found, found or ambiguous as the number of selected applications says |
| `ArgoDriver.LookupDecides` | pkg/cd/argocd/driver.go:229-250 | by the applications there are: none, several, one under deletion or one to act on decide what either operation goes on to do |
| `ArgoDriver.CheckStatus` | pkg/cd/argocd/driver.go:390-411 | nil iff synchronized and healthy, or degraded where that is allowed; otherwise a yield |
| `ArgoDriver.RefusedChangesNothing` | pkg/cd/argocd/driver.go:367-388 | a refused request changes no application |
| `ArgoDriver.Driver.CreateOrUpdate` | pkg/cd/argocd/driver.go:354-412 | with other workers acting before every request, the call continues the run by its own steps, which with the reply and the reported status decide its error; a write heard to land leaves an application with the identifier's labels; without overlapping selectors the call meets no ambiguity and that application is the only one |
| `ArgoDriver.Driver.Delete` | pkg/cd/argocd/driver.go:415-465 | with other workers acting before every request, the call continues the run by its own steps; if the lookup decides, nil iff nothing is found or, in the background, the one found is under deletion, a yield iff so in the foreground, a mismatch iff several are found; else the replies decide; a foreground nil means none is left, a background one that what is left is being deleted |
| `ArgoDriver.Driver.WriteApplication` | pkg/cd/argocd/driver.go:367-388 | a create after a lookup that found nothing, else a patch, and an application is there if it landed |
| `ArgoDriver.Driver.RequestDeletion` | pkg/cd/argocd/driver.go:441-458 | the deletion is sent only after the finalizer's reply was heard, and then marks all that is left |
| `ArgoDriver.OthersTouchNothing` | pkg/cd/argocd/driver.go:354-465 | without overlapping selectors, in every run of the other workers an identifier's applications stay as they are or go away |
| `Trie.Dictionary.constructor` | pkg/util/trie/trie.go:45-51 | a new trie holds no word |
| `Trie.Dictionary.AddWord` | pkg/util/trie/trie.go:54-68 | the words are the old ones and this one |
| `Trie.Dictionary.CheckWord` | pkg/util/trie/trie.go:83-95 | true iff the word is among them |
| `Trie.Dictionary.AddDictionary` | pkg/util/trie/trie.go:71-80 | the words are the old ones and all those read |
| `Trie.LoadAndCheck` | pkg/util/trie/trie.go:45-95 | from an empty trie, a word checks iff it was loaded |
| `Trie.ShapeGrows` | pkg/util/trie/trie.go:57-65 | a node hung below another keeps the nodes a tree |
| `Saga.Run` | pkg/server/saga/saga.go:59-94 | the state, the error and the exact calls of a run, successful or unwound |
| `Saga.OneAfterTheOther` | pkg/server/saga/saga.go:59-66 | running one list of actions after another is running the second from where the first ended |
| `Saga.CompensationsCalled` | pkg/server/saga/saga.go:66-85 | the non-nil compensations before the failure, in reverse: all of them, each succeeding, or up to and including the first that fails |
| `Saga.UnwindingRestores` | pkg/server/saga/saga.go:64-85 | compensations that undo their actions lead back to the initial state |
| `Saga.RunRestores` | pkg/server/saga/saga.go:59-94 | a failing saga ends in the initial state with the failing action's error, given only that the actions reached are undone by their compensations and the failing one changes nothing |
| `ResourceId.GenerateDeterministicResourceID` | pkg/util/resource.go:47-67 | the text of the first UUID of the rehash chain that starts with a letter: 36 characters, lowercase hexadecimal digits and four dashes, beginning with a letter |
| `ResourceId.LetterFirst` | pkg/util/resource.go:50-64 | the text starts with a letter iff the first byte is at least 0xa0 |
| `ResourceId.TextSpells` | pkg/util/resource.go:66-66 | the text is canonical and spells the sixteen bytes in order, high digit first |
| `ResourceId.TextIsInjective` | pkg/util/resource.go:66-66 | distinct UUIDs have distinct names |
| `ResourceId.CollisionReduction` | pkg/util/resource.go:40-67 | two distinct invariants not sixteen bytes long share a name only through two distinct inputs on their chains with one hash |
| `ResourceId.PassedOverUuidIsASecondInvariant` | pkg/util/resource.go:50-64 | the bytes of a UUID passed over get the same name |
| `ResourceId.SameNameIff` | pkg/util/resource.go:40-67 | without such a collision, two invariants share a UUID iff one is a UUID the other's loop passed over |

## Left out

- The wrap-around of the 64-bit epoch counter: epochs are unbounded here.
- A panic inside `Equal` while the cache lock is held, which would leave a pruned overlay beside the old view, and items that readers share with the cache by reference.
- Calling `Invalidate` before `Run`, which blocks for ever, and liveness of the refresh loop, tickers and clocks.
- `TimeoutCache` and the LRU cache, which are thin.
- ResourceId.GenerateDeterministicResourceID: takes as a ghost argument a step at which its chain reaches a letter; the code loops for ever without one.
- Provisioners.Cluster.RunConcurrent: runs the members one after the other; all other interleavings are covered by the lemmas on `ConcurrentRuns`, which also let a failing group report any member's error and not only the first.
- Stale reads from informer caches, leader election and the watch that wakes a parked object.
- Adding and removing references on other objects (`AddResourceReferences` and its siblings): the model lets others change finalizers at will, except ours.
- Applications' specifications; a create request that lands after its worker gave up on it.
- Strings that are not valid UTF-8 in the trie: words are sequences of characters, as Go's `range` yields them.
- Hash functions, HTTP middleware, OpenAPI and options code, messaging, cascading deletion, semantic versions and tags.
