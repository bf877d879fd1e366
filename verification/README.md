# Verification of the addon-compliance controller

The controller tells an addon manager when the validations (AddonCompliances) that concern a new cluster
are loaded: it puts an annotation on the cluster. Three reconcilers share one map, the readiness gate,
from each cluster to the AddonCompliances it still waits for. A reconcile of an AddonCompliance records
which clusters match it and which objects it refers to in two indexes, which later decide what an event
puts back on the work queue; it collects the validations from the referenced objects; and it ends by
erasing itself from the gate and annotating every cluster that this made ready.

This project models that behaviour in Dafny and proves what it keeps.

| file | content |
|---|---|
| `ObjectReferences.dfy` | object references, keys, and the reference set as a heap class |
| `ReadinessGate.dfy` | the gate as a map; what whole sequences of operations do to it |
| `Loader.dfy` | the manager with its sets on the heap, proved against the gate |
| `ClusterEntry.dfy` | the snapshot a new cluster waits for |
| `GateHistory.dfy` | histories of the protocol, and what justifies an annotation |
| `GateProtocol.dfy` | the protocol: API server, manager, one worker per key, every interleaving, restarts |
| `GateSafety.dfy` | safety over every run |
| `GateIncarnations.dfy` | names used again: whose snapshot an entry holds, and an annotation rests on |
| `GateLiveness.dfy` | wake-ups: when a waiting cluster can still be annotated, and when it never will be |
| `GateProgress.dfy` | when reconciles can still bring a waiting cluster to its annotation |
| `GateReconciles.dfy` | whole reconciles from beginning to end |
| `GatePromises.dfy` | what no run ever does |
| `GatePublication.dfy` | what an annotation says about the published status |
| `GateScenarios.dfy` | runs in which the code does less than its comments promise |
| `TwoWayIndex.dfy` | the two-way index, as a value and as a class over heap sets |
| `Requeue.dfy` | the reconciler's memory, the keys, and the requeue functions |
| `Convergence.dfy` | the cluster index as a cache fed by events, against the match computed from scratch |
| `Sections.dfy` | splitting into sections; the two patterns as leftmost matchers |
| `EmptyLines.dfy` | what taking out empty lines comes to, line by line |
| `CommentLines.dfy` | what taking out comments and empty lines comes to, character for character |
| `Collection.dfy` | collecting the policies of a data map in any order |
| `CollectionCounts.dfy` | in which order, and how often, policies are collected |
| `Validations.dfy` | the keys of validations, and merging across references |
| `Annotation.dfy` | annotating with versioned updates and conflict retries, among other writers |

Run `dafny verify dfyconfig.toml` here to verify everything.

## How the protocol is modelled

Each call of a reconciler on the manager, on the index or on the API server is one atomic step; between two
of them any other worker, user or restart may take any number of steps. The work queue is modelled by one
program counter per key. The set a listing matches is left open (any subset of the compliances that
exist), so the theorems hold for whatever selectors do; `ClusterEntry.AddClusterEntry` says which
subset it is. Where a promise of the code fails, a run or an input shows the failure, and the condition
under which the promise holds is proved.

Where the code departs from its comments, the model follows the code:

- The comments (`controllers/loader.go:50-51`, `controllers/loader.go:72-75`) say that an
  AddonCompliance reconcile fails when a matching cluster has no entry. There is no such check.
  `GateScenarios.LoadedWhileListedStillWaits` is the run that check was meant to exclude;
  `GateHistory.EntryOrigin` says exactly which members stay in an entry.
- A failed annotation is never retried (`GateScenarios.FailedAnnotationSticks`). Whether the cluster can
  then still be annotated, short of a restart or the removal of its entry, depends on one thing: whether
  another worker is already on the way to it (`GateLiveness.FailureSticksIff`,
  `GateLiveness.OwnFailureSticksIff`; `GateScenarios.FailureNeedNotStick` is such a run).
- The finalizer is not enough to keep a member of an entry from vanishing, even if listing and inserting are
  one step: a listing still returns a compliance whose delete reconcile has already erased it
  (`GateScenarios.AtomicListingCanOrphan`). `GateLiveness.OrphansIffUnsound` is the exact condition.
- The annotation promises that validations were collected; they are published only afterwards, and so
  after every annotation that a loading reconcile makes (`GatePublication.LoadingAnnotatesUnpublished`;
  `GatePublication.SnapshotPublishedIff` is the exact condition for a whole snapshot).
- A pending annotation is addressed by name, and can reach a later cluster of that name
  (`GateScenarios.ReusedNameAnnotatedEarly`); `GateLiveness.AnnotatedEarlyIffHeld` and
  `GateIncarnations.OwnSnapshotIff` say exactly when.
- A cluster deleted and created again between two reconciles keeps the old entry
  (`GateScenarios.RecreatedClusterForgotten`); `GateLiveness.RecreatedForgottenIff` is the exact condition.
- An empty selector matches every cluster in the snapshot and none in the compliance's own match, and
  cluster references count in the second only (`ClusterEntry.SnapshotAgreesWithMatching`,
  `GateScenarios.NamedButNotWaitedFor`).
- OCIRepository references are recorded under a key that no event looks up, because an empty `case` in Go
  ends the switch (`Requeue.EventFindsReference`); for the same reason nothing is collected from
  OCIRepository and Bucket references (`Validations.CollectValidations`).
- Cleaning keeps the stored selector of a deleted compliance (`Requeue.CleanedStillRequeued`).
- Empty lines are not all removed: of the blank lines before a line that is not blank, one always stays
  (`EmptyLines.EmptyLineStays`); `EmptyLines.EmptyLinesRemovedIffTrailing` is the exact condition.
- A comment line that is a bare `#` takes the next line with it (`Sections.BareHashSwallowsNextLine`).

## Model

| member | source | states |
|---|---|---|
| ObjectReferences.ClusterInfoInjective | controllers/sveltoscluster_controller.go:186-200 | A Cluster and a SveltosCluster of one name, or two names of one type, never share a gate key |
| ReadinessGate.EntryOverTrace | controllers/loader.go:174-192 | Over any sequence without insertion or removal of its entry, an entry loses exactly what was erased, and its cluster is returned once if it empties and never if it does not |
| ReadinessGate.DischargedExactlyOnce | controllers/loader.go:108-192 | After inserting a non-empty snapshot, the entry is empty, and exactly one call has returned the cluster, if and only if every member was erased |
| ReadinessGate.WaitingOnlyShrinks | controllers/loader.go:175-192 | No operation but an insertion adds to what the gate waits for |
| Loader.Manager.AddClusterEntry | controllers/loader.go:108-120 | Stores the caller's own set; entries stay unaliased if that set was in no entry |
| Loader.Manager.RemoveClusterEntry | controllers/loader.go:122-134 | Removes exactly one entry |
| Loader.Manager.HasEntryForCluster | controllers/loader.go:138-151 | Says whether there is an entry, empty or not |
| Loader.Manager.GetNumberOfAddonCompliance | controllers/loader.go:155-172 | How many compliances the cluster still waits for, none without an entry |
| Loader.Manager.RemoveAddonCompliance | controllers/loader.go:175-192 | Every entry loses the compliance and nothing else; the clusters that waited for it alone are returned, each once, if and only if no two of them share a set object |
| Loader.CompleteIffNoneShared | controllers/loader.go:175-192 | Naming one cluster per set object is a complete list exactly when no set is shared |
| ClusterEntry.AddClusterEntry | controllers/sveltoscluster_controller.go:108-132 | The entry holds exactly the listed compliances whose selector matches, in a set of its own, so entries are never aliased |
| ClusterEntry.SnapshotAgreesWithMatching | controllers/sveltoscluster_controller.go:118-125 | The snapshot and the compliance's own matching agree on a cluster exactly when the empty selector and the cluster references do not set them apart |
| GateHistory.EntryOrigin | controllers/loader.go:108-192 | Every entry goes back to the last insertion for its cluster in this life of the process, and holds a compliance if and only if it was inserted then and not erased since |
| GateHistory.EntryIff | controllers/loader.go:108-151 | A cluster has an entry if and only if it was inserted, and neither removed nor forgotten by a restart since |
| GateSafety.InvStep | controllers/addoncompliance_controller.go:164-232 | The invariant on API server, gate, program counters and history survives every step |
| GateSafety.AnnotationsAreEarned | controllers/sveltoscluster_controller.go:134-161 | In every run, before each annotation there is an insertion for that cluster in the same life of the process, every member of which was erased in between, by a delete reconcile or by one that had collected its validations |
| GateIncarnations.InsertedOncePerIncarnation | controllers/sveltoscluster_controller.go:95-105 | In every run, within one life of the process, later insertions for a cluster are for later incarnations, so each incarnation is inserted at most once |
| GateIncarnations.OwnSnapshotIff | controllers/addoncompliance_controller.go:638-654 | In every run, annotating a cluster that has an entry or is not being deleted rests on its own snapshot if and only if there is an entry, it has run empty, and this incarnation is the one inserted last |
| GateSafety.RememberedNamesExist | controllers/addoncompliance_controller.go:164-199 | In every run, names in the inverse maps and members of soundly inserted entries exist and carry the finalizer |
| GateLiveness.NoLostWakeUp | controllers/loader.go:180-189 | In every run, names used again or not: if the entry is empty, was inserted for the incarnation that is there, and no annotation of the cluster has failed since, the cluster is annotated or a worker is about to annotate it |
| GateLiveness.OneHolder | controllers/addoncompliance_controller.go:642-645 | As long as a cluster has been inserted only once in this life of the process, at most one compliance's worker holds it, and its entry is empty |
| GateLiveness.StuckForGood | controllers/sveltoscluster_controller.go:143-158 | An empty entry with no worker on the way is never followed by an annotation, until the entry is removed or the process restarts |
| GateLiveness.AwakensIffToken | controllers/addoncompliance_controller.go:644-651 | A cluster whose entry is empty can still come to be annotated, short of restart or removal, if and only if some worker is already on the way |
| GateLiveness.FailureSticksIff | controllers/addoncompliance_controller.go:644-651 | After a compliance reconcile fails to annotate a cluster with an empty entry, the cluster can still be annotated, short of restart or removal, if and only if its own worker or another compliance's is on the way; only its own counts while it has been inserted once |
| GateLiveness.OwnFailureSticksIff | controllers/sveltoscluster_controller.go:154-156 | After a cluster reconcile fails to annotate its cluster, the same holds with the compliances' workers |
| GateLiveness.RecreatedForgottenIff | controllers/sveltoscluster_controller.go:143-158 | A cluster created under a name whose entry is left and empty can come to be annotated, short of restart or removal, if and only if a worker is still on the way to the old one |
| GateLiveness.AnnotatedEarlyIffHeld | controllers/addoncompliance_controller.go:679-702 | A waiting cluster can be annotated while it still waits, short of restart or removal, if and only if a compliance's worker already holds its name |
| GateLiveness.AnnotatedUninsertedIffHeld | controllers/addoncompliance_controller.go:679-702 | A cluster with no entry can be annotated before anything is inserted for it, and so without ever being waited for, if and only if a compliance's worker already holds its name |
| GateLiveness.NeverEarlyIfInsertedOnce | controllers/addoncompliance_controller.go:642-645 | It cannot as long as it has been inserted only once in this life of the process |
| GateLiveness.SoundEntryNeverOrphaned | controllers/addoncompliance_controller.go:164-185 | An entry inserted from a sound snapshot never waits for a compliance that is gone |
| GateLiveness.OrphansIffUnsound | controllers/addoncompliance_controller.go:119-122 | An inserted entry can come to wait for a vanished compliance if and only if, when it is inserted, some member is gone, has no finalizer, or has been erased by its delete reconcile |
| GateLiveness.OrphanBlocksIff | controllers/loader.go:175-192 | A cluster that waits for a vanished compliance can be annotated, before that compliance is created anew, the entry is removed or the process restarts, if and only if a compliance's worker already holds its name |
| GateProgress.MembersLoad | controllers/loader.go:74-82 | Whatever the workers are doing, if every compliance that a cluster waits for exists, a run of compliance reconciles alone leads to its annotation |
| GateProgress.ServedIffMembersExist | controllers/loader.go:44-54 | A cluster that still waits can come to be annotated, without a restart, the removal of its entry or a new compliance, if and only if every compliance it waits for exists or a compliance's worker holds its name from before |
| GateReconciles.ClusterReconcileDoes | controllers/sveltoscluster_controller.go:134-161 | Any undisturbed reconcile of a cluster removes its entry if it is gone or being deleted, changes nothing if it is annotated or has an entry, and otherwise inserts what it listed and annotates the cluster exactly if that is nothing |
| GateReconciles.ClusterReconcileCanEnd | controllers/sveltoscluster_controller.go:134-161 | Every reconcile of a cluster that has been seen can run to its end without failing |
| GateReconciles.MarkedIsRemoved | controllers/sveltoscluster_controller.go:137-141 | An undisturbed reconcile of a cluster just marked for deletion takes it out of the gate |
| GateReconciles.NormalReconcileDoes | controllers/addoncompliance_controller.go:187-232 | Any undisturbed normal reconcile that does not fail leaves the compliance finalized, indexed and in no entry, and has annotated exactly the clusters that waited for it alone, and published last |
| GateReconciles.DeleteReconcileDoes | controllers/addoncompliance_controller.go:164-185 | Any undisturbed delete reconcile that does not fail leaves the compliance in no entry and out of the index, and gone, and has annotated exactly the clusters that waited for it alone |
| GateReconciles.ComplianceReconcileCanEnd | controllers/addoncompliance_controller.go:155-232 | Every reconcile of a compliance that exists can run to its end without failing |
| GatePromises.AnnotatedNeverInserted | controllers/sveltoscluster_controller.go:95-105 | Over any run, restarts included, an annotated cluster whose worker is at rest is not inserted again until it is dropped |
| GatePromises.FailedDeleteKeepsFinalizer | controllers/addoncompliance_controller.go:174-182 | After a delete reconcile failed to annotate a cluster, the compliance exists with its finalizer over any run in which it is not erased again |
| GatePromises.DoomedNeverLoaded | controllers/addoncompliance_controller.go:155-161 | Over any run, a compliance that is being deleted is not collected, published or erased as loaded before it is created anew |
| GatePromises.AnnotatedIffLogged | controllers/addoncompliance_controller.go:694-699 | In every run, a cluster carries the annotation if and only if this controller made one for this incarnation |
| GatePublication.LoadingAnnotatesUnpublished | controllers/addoncompliance_controller.go:213-222 | In every run, each annotation by a loading reconcile rests on a snapshot with the reconciled compliance in it, whose collected validations are not published yet |
| GatePublication.SnapshotPublishedIff | controllers/addoncompliance_controller.go:147-153 | In every run, what was last collected for the members of a snapshot is published if and only if no member's reconcile is between collecting and closing, and none failed to close and no restart came in that time |
| GateScenarios.AtomicListingCanOrphan | controllers/addoncompliance_controller.go:164-185 | Listing and inserting in one step, with every member finalized, can still orphan an entry |
| GateScenarios.LoadedWhileListedStillWaits | controllers/sveltoscluster_controller.go:113-129 | A compliance loaded and published between listing and insertion stays in the entry, with nobody on the way |
| GateScenarios.FailedAnnotationSticks | controllers/addoncompliance_controller.go:644-651 | A run in which one failed annotation leaves a cluster stuck although all it waited for is loaded and published |
| GateScenarios.FailureNeedNotStick | controllers/sveltoscluster_controller.go:149-157 | A run in which the cluster's own worker annotates it after a compliance's worker failed to |
| GateScenarios.AnnotatedBeforePublished | controllers/addoncompliance_controller.go:149-153 | A run in which a cluster is annotated before the validations it waited for are published |
| GateScenarios.ReusedNameAnnotatedEarly | controllers/addoncompliance_controller.go:679-702 | A run in which a pending annotation reaches a later cluster of the same name, which still waits |
| GateScenarios.NamedButNotWaitedFor | controllers/sveltoscluster_controller.go:118-129 | A run in which a compliance names a cluster it does not select, and the cluster is annotated with nothing loaded |
| GateScenarios.RecreatedClusterForgotten | controllers/sveltoscluster_controller.go:143-158 | A run in which a cluster deleted and created again between two reconciles keeps the old entry and is stuck |
| TwoWayIndex.RecordConsistent | controllers/addoncompliance_controller.go:352-423 | Recording keeps the two directions mirror images |
| TwoWayIndex.CleanExact | controllers/addoncompliance_controller.go:425-450 | Cleaning takes a compliance out of both directions, changes no other membership, and keeps exactly the keys that have a consumer left |
| TwoWayIndex.IndexSaysLastRecorded | controllers/addoncompliance_controller.go:323-450 | After any sequence of updates, cleans and lookups, both directions say exactly what each compliance recorded last since it was last cleaned |
| TwoWayIndex.CleanedForGood | controllers/addoncompliance_controller.go:425-450 | Once cleaned, a compliance is in neither direction of the index, over any further updates, cleans and lookups, until it is recorded again |
| TwoWayIndex.RecordInTwoLoops | controllers/addoncompliance_controller.go:371-384 | The loop that erases the difference never undoes the loop that inserts, in any order of either |
| TwoWayIndex.TwoWayMap.GetForEntry | controllers/addoncompliance_controller.go:323-339 | A lookup returns the set of its key and leaves at most an empty placeholder |
| TwoWayIndex.TwoWayMap.Update | controllers/addoncompliance_controller.go:387-423 | The insert and erase loops over heap sets make exactly the recorded index, and no two keys come to share a set |
| TwoWayIndex.TwoWayMap.CleanUp | controllers/addoncompliance_controller.go:425-450 | Erasing from every set and deleting emptied keys while ranging makes exactly the cleaned index |
| Requeue.EventFindsReference | controllers/utils.go:107-121 | The key an event looks up is among the recorded keys exactly if the compliance lists that object and it is not an OCIRepository |
| Requeue.ClusterRequeueCovers | controllers/addoncompliance_transformations.go:156-209 | Given a consistent index, a cluster event requeues exactly who recorded the cluster or has a stored selector matching the new labels |
| Requeue.MachineRequeueCovers | controllers/addoncompliance_transformations.go:229-265 | Given a consistent index, a machine event requeues exactly who recorded its cluster, whether or not the cluster's labels are known, or has a stored selector matching the labels that are |
| Requeue.TypeInformationIsFirst | controllers/utils.go:89-105 | The type information set on an object is that of the first registered type that has a kind and a version that is not internal |
| Requeue.VersionedKinds | controllers/utils.go:107-121 | Exactly the kinds whose case ends in a return have an API version |
| Requeue.FillRequests | controllers/addoncompliance_transformations.go:84-97 | Filling a list made of zero values leaves none of them, and names each consumer once |
| Requeue.RecordersOf | controllers/addoncompliance_transformations.go:140-153 | The consumers found under a key are exactly the compliances that recorded it |
| Requeue.Reconciler.UpdateMaps | controllers/addoncompliance_controller.go:341-350 | Both indexes record the compliance, and its selector is stored |
| Requeue.Reconciler.CleanMaps | controllers/addoncompliance_controller.go:425-450 | Both indexes forget the compliance; its stored selector stays |
| Requeue.Reconciler.RequeueForCluster | controllers/addoncompliance_transformations.go:156-209 | Stores the labels and requeues exactly the recorded consumers and the matching stored selectors, each at most twice, with no zero-valued request |
| Requeue.Reconciler.RequeueForMachine | controllers/addoncompliance_transformations.go:211-266 | Requeues exactly who recorded the cluster its label names, with or without known labels, and who matches the labels that are known, each at most twice; nobody without that label |
| Requeue.Reconciler.RequeueForSource | controllers/addoncompliance_transformations.go:37-154 | Requeues each compliance that recorded the source's key, once |
| Requeue.MachineAgreesIffSameGroupVersion | controllers/addoncompliance_transformations.go:169-232 | After a cluster's event, an event on one of its machines requeues the same compliances, whatever the index holds, if and only if the two keys, which are built in different ways, come from one group and version and the spelled-out kind is the cluster's |
| Requeue.MachineAgreesWithCluster | controllers/utils.go:89-105 | With the registered types they do, and event keys are the gate's keys |
| Requeue.SourceEventsComplete | controllers/addoncompliance_controller.go:486-503 | Whatever happened before, an event on a source object requeues exactly the compliances whose last recorded references list it; an OCIRepository event requeues none |
| Requeue.CleanedStillRequeued | controllers/addoncompliance_controller.go:425-450 | A deleted compliance is still requeued by every event whose labels match its stored selector, and by no other |
| Convergence.InvStep | controllers/addoncompliance_predicates.go:256-408 | Whatever each compliance has recorded or is about to record is right or excused, across every change, delivery and reconcile step |
| Convergence.IndexConverges | controllers/addoncompliance_transformations.go:156-209 | In every run, a compliance neither queued nor in flight has recorded each cluster as a computation from scratch would, except for a cluster with an event to come, one created paused with no event announced since, or one whose last event it missed in flight |
| Convergence.WrongIffMissed | controllers/addoncompliance_transformations.go:156-209 | In every run, the record of a compliance at rest about a cluster with no event to come, and not created unseen, is wrong if and only if the cluster's last event was delivered while the compliance was in flight with a listing out of date, and did not requeue it |
| Convergence.MissedIff | controllers/addoncompliance_transformations.go:178-206 | Who misses an event: exactly the live, unqueued compliances in flight whose listing is out of date, that had not recorded the cluster, and whose earlier selector matches it neither as it was nor as it is |
| Convergence.CreatedUnpausedConverges | controllers/addoncompliance_predicates.go:256-408 | If every cluster is created unpaused, though perhaps paused later, and no delivery divides its own reconciles, a live compliance is queued, or in flight, or has an event to come of each cluster on which its record is wrong |
| Convergence.QuietIndexIsExact | controllers/addoncompliance_controller.go:387-484 | Once nothing is queued, in flight, pending or created unseen, and no live compliance has missed an event, both directions of the index equal the match computed from scratch |
| Convergence.UndividedReconcilesConverge | controllers/addoncompliance_controller.go:201-211 | If no delivery falls between a compliance's own listing and storing, only pending events and clusters created paused with no event since can excuse a wrong record |
| Convergence.ResyncRepairs | main.go:203-206 | A resync puts the record of a live compliance at rest right, whatever it missed |
| Convergence.UndeliveredIff | controllers/addoncompliance_predicates.go:258-295 | An update is held back exactly if it changes no labels, does not unpause the cluster and does not make a SveltosCluster ready |
| Convergence.ForgottenForGood | controllers/addoncompliance_controller.go:164-185 | From the moment its maps are cleaned, whether the delete reconcile then fails or releases it, a compliance is in neither direction of the index in every run that does not create it anew |
| Convergence.EventMissedInFlight | controllers/addoncompliance_controller.go:201-211 | A run in which, with listing, writing and storing apart, an event is missed and the record stays wrong until the next reconcile |
| Convergence.PausedClusterUnseen | controllers/addoncompliance_predicates.go:296-313 | A run in which a matching cluster created paused goes unrecorded although nothing is left to do |
| Convergence.WrongIffCreatedPausedAndMatching | controllers/addoncompliance_predicates.go:296-313 | Creating a cluster paused makes the record of a compliance at rest wrong if and only if its selector matches and it does not name the cluster |
| Sections.JoinOfSplit | controllers/utils.go:173 | Joining undoes splitting, and no section contains the separator |
| Sections.SplitOfJoin | controllers/utils.go:173 | Splitting undoes joining for any non-empty list of separator-free sections |
| EmptyLines.EmptyLinesRemovedIffTrailing | controllers/utils.go:162-163 | What is left, line by line: no two blank lines in a row, and none at all if and only if no blank line of the text has a line after it that is not blank |
| EmptyLines.EmptyLineStays | controllers/utils.go:157-163 | An empty line between two others is not removed |
| CommentLines.KeptLinesIff | controllers/utils.go:157-165 | The lines that are left and not blank are, in order and character for character, the lines that are neither blank nor comments, if and only if no line but the last is a bare `#` |
| CommentLines.RemoveIsLineByLine | controllers/utils.go:157-165 | And then the whole result is the text's lines, each comment with the blank lines before it made one empty line, and blank lines squeezed |
| CommentLines.NoHashUnchanged | controllers/utils.go:160-161 | Taking out comments leaves a text without `#` as it is |
| CommentLines.WhitespaceIs | controllers/utils.go:162-163 | What counts as whitespace: tab, newline, form feed, carriage return and space |
| Sections.StripBlankKeepsInk | controllers/utils.go:162-163 | Taking out empty lines loses and moves nothing but whitespace |
| Sections.DroppedIffOnlyComments | controllers/utils.go:157-165 | A section yields no policy if and only if nothing but whitespace is left once comments are taken out |
| Sections.KeepsWhatIsNotComment | controllers/utils.go:157-165 | Apart from whitespace, what is left is what stands outside comment lines, if and only if no line but the last is a bare `#` |
| Sections.CommentsOnlyDropped | controllers/utils.go:157-165 | A section of comment lines and blank lines yields no policy, and no other does where no line but the last is a bare `#` |
| Sections.BareHashSwallowsNextLine | controllers/utils.go:160-161 | A bare `#` takes the whole next line with it |
| Collection.CollectContent | controllers/utils.go:169-185 | Yields the sections of all values, stripped and non-empty, in some order of the keys and in order within each value |
| Collection.CollectedAlike | controllers/utils.go:169-185 | Every iteration order yields the same multiset of policies, and as many |
| Collection.PolicyOrigin | controllers/utils.go:169-185 | A policy is collected if and only if it is what is left of some section of some value, and not nothing |
| CollectionCounts.NonEmptyInOrder | controllers/utils.go:174-181 | The sections of a value that leave something are collected in order, each once |
| CollectionCounts.CollectedAsOften | controllers/utils.go:169-185 | A policy is collected exactly as often as there are sections, of whatever key, that it is what is left of |
| Validations.ParsePrintKey | controllers/addoncompliance_controller.go:558 | A key parses back to kind, namespace, name and index |
| Validations.KeyOfParses | controllers/addoncompliance_controller.go:557-559 | The key of a reference's n-th policy, counted from 0, parses back to the reference's object and n |
| Validations.DecimalDigits | controllers/addoncompliance_controller.go:558 | Numbers are printed with digits only and no leading zero |
| Validations.SameKeySameParts | controllers/addoncompliance_controller.go:558 | Two policies share a key if and only if their references are to the same object and their numbers are the same |
| Validations.CollectValidations | controllers/addoncompliance_controller.go:524-563 | Fails exactly if a kind that is read cannot be read; otherwise numbers the collected policies; nothing for other kinds |
| Validations.CollectedIff | controllers/addoncompliance_controller.go:540-555 | Reading fails for three kinds only; an object that is not there is no failure, and yields nothing |
| Validations.NothingThere | controllers/addoncompliance_controller.go:569-576 | If no referenced object is there, nothing fails and there are no validations |
| Validations.CollectLuaValidations | controllers/addoncompliance_controller.go:505-522 | Fails exactly if some reference fails, and then yields nothing; otherwise merges all references in order |
| Validations.MergedKeys | controllers/addoncompliance_controller.go:510-519 | The keys are exactly those of the policies of all references |
| Validations.LastReferenceWins | controllers/addoncompliance_controller.go:516-518 | A policy is found under its key unless a later reference to the same object has one of that number |
| Validations.SameKeysWhateverTheOrder | controllers/addoncompliance_controller.go:557-560 | Collected again in any order, the validations have the same keys |
| Validations.NoneLostIffNothingOverwritten | controllers/addoncompliance_controller.go:505-563 | There are as many validations as collected policies if and only if no two references to one object both have a policy; never more |
| Validations.EveryPolicyFound | controllers/addoncompliance_controller.go:505-563 | Then every policy is found exactly as often as it was collected |
| Validations.SamePoliciesWhateverTheOrder | controllers/addoncompliance_controller.go:557-560 | Then collecting in another order publishes every policy equally often |
| Validations.PathsOverwrite | controllers/addoncompliance_controller.go:510-519 | Two references that differ in their path alone overwrite one another |
| Annotation.StepKeepsInv | controllers/addoncompliance_controller.go:679-702 | Every version is what the events before it wrote, every copy is what its version held, and every call that returned tells the truth, across every step of every writer |
| Annotation.NoWriteLost | controllers/addoncompliance_controller.go:682-701 | Under every interleaving, each field but the annotation is as its last successful writer left it, annotating calls not counted |
| Annotation.SuccessAnnotates | controllers/sveltoscluster_controller.go:163-184 | Every annotating call that returned without an error either found no cluster, or knew the annotation to be there, and then it is there unless someone took it off or deleted the cluster since; a call that wrote, wrote only that |
| Annotation.AnnotatesOnlyUnannotated | controllers/addoncompliance_controller.go:694-697 | An annotating call never writes over an annotation that is there |
| Annotation.PutOutcome | controllers/addoncompliance_controller.go:682-699 | A put is taken exactly if nothing happened since the version read; if the cluster is gone the call fails, and otherwise it tries again as long as it has attempts left |
| Annotation.GivesUpOnlyUnderContention | controllers/addoncompliance_controller.go:682 | During a call that runs out of attempts the cluster changed at least as often as the call's reads were up to date: five times if all were |
| Annotation.StaleReadsExhaust | controllers/addoncompliance_controller.go:682-683 | A run in which, with reads out of date, a call runs out of attempts although nothing changes during it |

## Left out

- The Kubernetes client, cache, work queue and watches: kept are the results of lists, gets and updates, version conflicts, ordered delivery of each cluster's events, and one worker per key.
- Stale caches: reads return the current state, except in `Annotation`, where a read may return any earlier version.
- Parsing and matching of selectors: a selector is an abstract value, matching an arbitrary function, and a selector is assumed to parse, since a parse error is dropped at the call sites.
- The reference set and the retry helper of the libraries: the set has a contract for insert, erase, length, items and difference; the helper is five attempts, the next one only after a conflict.
- Fetching and unpacking Flux sources, reading files, and the type check of Secrets: a reference's content is a parameter, which is data, absent or failed.
- The controller library: an update event makes it run the requeue function on the old and on the new object, which is modelled; both requests count as one delivery.
- Clusters reported by the matching library: the match computed from scratch is selector on labels plus cluster references; clusters that are being deleted or paused are not filtered out.
- Other writers removing the annotation: in `GateProtocol` only this controller writes it; `Annotation` covers arbitrary writers.
- Conflicts and retries inside `GateProtocol`: an annotating call is one step there, which succeeds, finds nothing to do or fails; `Annotation` looks inside it.
- The AddonCompliance's finalizer in `Convergence`: a deleted compliance stays queued until it is released, and its names are cleaned before it goes.
- Marking a cluster as deleting in `Convergence`: a cluster is there or is gone.
- controllers/cluster_controller.go: its entry point is that of the SveltosCluster, with the other cluster type.
- Memory-model races: the write of the stored selector outside the lock (`controllers/addoncompliance_controller.go:349`) is an atomic step of its own in `Convergence`.
- Predicates of ConfigMaps, Secrets, Machines and Flux sources: single checks.
- Status other than the collected validations, logging, flags, health checks and manifests.
- Validations.ParsePrintKey: kinds without ':' and namespaces without '/' only, which is what the API server admits.
- Characters are those of a string; invalid UTF-8 in a policy is not modelled.
