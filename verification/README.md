# quarks-job, modelled and proved in Dafny

quarks-job is a Kubernetes operator. A `QuarksJob` describes a batch Job that runs when something
triggers it, and how the Job's output files become Secrets. This project models the operator's three
hard parts and proves what they keep:

* **The errand protocol** (`ErrandReconciler`, `ErrandController`, `ErrandSystem`, `ErrandInvariant`,
  `ErrandTriggers`, `ErrandOrder`, `ErrandTheorems`, `ErrandQuiescence`, `MergingQueue`, `JobReconciler`,
  `Reconciles`). A reconcile is an automaton over API calls; the imperative `Reconcile` is proved to
  follow it whatever it is answered. `ErrandSystem` runs that automaton against an API server with
  optimistic locking, a work queue, an informer that may skip versions, a user, and any number of Job
  reconciles that write the same status, interleaved one API call at a time, with arbitrary failures and
  stale reads. The theorems quantify over every reachable state.
* **The output persistor** (`Secrets`, `FileTracker`, `PersistContainer`, `PersistPod`, `PersistOutput`,
  `PersistedSecrets`).
  Workers run as code over maps in arbitrary order; `PersistPod` interleaves them with a joiner over one
  unbuffered channel. The theorems quantify over every interleaving and iteration order.
* **The pod template** (`JobCreator`, `Paths`, `PodPaths`). The rewrite edits a deep copy on the heap; the
  paths it mounts are resolved and compared with the paths the persistor reads.

Conventions:

* Times are nanoseconds on one nondecreasing operator clock. The meltdown window of `last` is
  `[last, last + 10 s)`; the repository's tests expect a future `last` to be outside and a moment just passed to be inside.
* A failed API call did nothing. An update succeeds only on the stored version, stores a new one and
  refreshes the caller's copy. Status and spec are separate subresources.
* A read returns any version the object ever had; a reported absence is at least as recent as the
  informer's cache.
* The work queue keeps every requested requeue as an entry of its own (`merge == false`). The queue of
  client-go keeps one delayed entry per key, the earliest (`merge == true`). The no-loss theorems
  (`NoTriggerLost`, `MeltdownEnds`, `RestMeansAnswered`) need the former, and `MergingQueue` states exactly
  what the latter loses. The other theorems hold for both.
* The libraries for name sanitizing, versioned secret names, JSON, the file system and the kubelet are
  function parameters or enumerated answers, with the contracts stated where they are needed.

Where the code and its own comments differ, the model follows the code: `types.go:64-65` says that `now`
is reset after the Job was started, the reconciler resets it before (`ManualBeforeJob`); the comment at
`errand_reconciler.go:24` suggests ten seconds between Jobs, which holds exactly if timestamps are stored as
they are (`JobsAreSpacedIff`); they are stored in whole seconds, so the distance is only more than nine
(`JobsAreSpacedBySeconds`, tight by `NineSecondsHappen`).

What turned out false, with the exact condition:

* `isLowerVersion` compares by string prefix, which is exact if and only if, among the secret names in use,
  no base name is a prefix of another secret's name with a higher version: `PrefixCollisionDropsAChange`,
  `PrefixTestIsExactIff`.
* With the queue of client-go an accepted trigger can be lost: `MergingQueueLosesATrigger`,
  `MergeIsHarmlessIff`, `LossNeedsHarmfulMerge`, `LossIffNoWakeUp`.
* `persistPod` awaits one message per container but one, not one per worker that comes to an end, so it can
  return too early, hang for want of workers, or hang because a worker waits for ever, for a file that
  never comes or came between the check and the start of the watch: `NilIffEnoughCleanWorkers`, `NilMeansFinishedIff`,
  `StuckIffTooFewWorkers`, `JoinReturns`, `WorkersAgainstMessages`, `UnmappedPodsNeverSucceed`.
* A file means different files to the writer and the reader if its name climbs out of its directory, unless
  the container is named quarks and the name climbs one level and comes back through quarks, or if a mount
  of the container's own lies on the way from /mnt/quarks to the file: `ClimbingInput`, `ShadowInput`,
  `ClimbingDisagrees`, `FilesAgreeIff`.

## Model

| member | source | states |
|---|---|---|
| ErrandTheorems.DeliveryAcceptsTriggers | pkg/kube/controllers/quarksjob/errand_controller.go:50-90 | delivering a version accepts a trigger, with an entry due now, iff the object is new with now or once, changed from manual to now, or is an auto-errand with UpdateOnConfigChange whose config names changed without what looks like a downgrade; it does nothing else |
| ErrandTheorems.NothingElseIsAccepted | pkg/kube/controllers/quarksjob/errand_controller.go:98-175 | a config event is accepted iff the cached object is a once or done errand with UpdateOnConfigChange, and no other step accepts a trigger |
| ErrandTheorems.DeliveredTriggersAreNotLost | pkg/kube/controllers/quarksjob/errand_reconciler.go:57-132 | from the delivery of such a version on, in every continuation, it is answered by a Job made from a later version, its object was deleted, or an entry or a reconcile is left for it |
| ErrandTheorems.NoTriggerLost | pkg/kube/controllers/quarksjob/errand_reconciler.go:57-132 | in every reachable state an accepted trigger is answered by a later create result for a Job made from a later version than the accepted one, its object was deleted since, or the queue holds an entry or a reconcile is in flight that will requeue or create from such a version |
| ErrandTheorems.JobsComeFromStoredVersions | pkg/kube/controllers/quarksjob/errand_reconciler.go:94-109 | every Job is made from a version of the QuarksJob that was stored before, whose strategy is not now |
| ErrandTheorems.MeltdownEnds | pkg/kube/controllers/quarksjob/errand_reconciler.go:76-92 | a stored timestamp whose window is open always has a queue entry due at or after the window's end, or a reconcile about to ask for it |
| ErrandTheorems.TriggersPayForJobs | pkg/kube/controllers/quarksjob/errand_reconciler.go:65-131 | Jobs created, queue entries and reconciles that may still create never outnumber the accepted triggers |
| ErrandTheorems.JobsAreSpaced | pkg/kube/controllers/quarksjob/errand_reconciler.go:76-109 | over any run two create results are further apart than the window less the grain of stored timestamps |
| ErrandTheorems.JobsAreSpacedExactly | pkg/kube/controllers/quarksjob/errand_reconciler.go:23-26 | with exact timestamps they are at least ReconcileSkipDuration apart |
| ErrandTheorems.JobsAreSpacedBySeconds | pkg/kube/apis/quarksjob/v1alpha1/types.go:121-124 | with timestamps in whole seconds they are more than nine seconds apart |
| MergingQueue.JobsAreSpacedIff | pkg/kube/controllers/quarksjob/errand_reconciler.go:76-99 | for every way of storing timestamps, no run has two Jobs closer than the window less d iff storing a timestamp never loses more than d; with d = 0, the full ten seconds iff timestamps are stored as they are |
| MergingQueue.NineSecondsHappen | pkg/kube/controllers/quarksjob/errand_reconciler.go:76-99 | with whole seconds there is a run with two Jobs nine seconds and one nanosecond apart |
| ErrandTheorems.ManualBeforeJob | pkg/kube/controllers/quarksjob/errand_reconciler.go:101-109 | a create result of a reconcile that read now comes after that reconcile stored the change from now to manual |
| ErrandTheorems.JobBeforeDone | pkg/kube/controllers/quarksjob/errand_reconciler.go:109-129 | a done stored by the reconciler replaces once and comes after a create result of the same reconcile |
| ErrandTheorems.OnceBecomesDone | pkg/kube/controllers/quarksjob/errand_reconciler.go:122-129 | a reconcile that made a Job from a once object and has ended has stored done, unless that update failed or met a newer version |
| ErrandTheorems.CreateResultsAreLogged | pkg/kube/controllers/quarksjob/errand_reconciler.go:109-120 | each create result without error is recorded with its time, the copy sent and whether a Job was created, and nothing else is recorded as one |
| ErrandTheorems.WritersRespectEachOther | pkg/kube/controllers/quarksjob/job_reconciler.go:87-122 | the Job reconciler's write changes completed only, the errand reconciler's writes the timestamp only, or the strategy from now to manual or once to done only, in every interleaving with stale reads |
| ErrandTheorems.CompletedIsFinal | pkg/kube/controllers/quarksjob/job_reconciler.go:116-122 | completed never goes back to false while the object lives |
| ErrandTheorems.NoSelfTrigger | pkg/kube/controllers/quarksjob/errand_controller.go:70-90 | an event that spans only the controllers' own writes, however many, passes no watch predicate; DeliveryAcceptsTriggers says what does |
| ErrandQuiescence.ReconcilesArePaid | pkg/kube/controllers/quarksjob/errand_reconciler.go:57-132 | over every run, for either queue, the reconciles made and the work left are paid for by the work there was, two units for each accepted trigger, stored Job write, stale read, missing reference or failed call, three for a user's write; a conflict is paid for by the write that caused it |
| ErrandQuiescence.ReconcilesAreBounded | pkg/kube/controllers/quarksjob/errand_reconciler.go:76-131 | so from every reachable state a run makes at most two reconciles for each entry, four for a reconcile in flight or one without, and what its disturbances pay for |
| ErrandQuiescence.Quiescence | pkg/kube/controllers/quarksjob/errand_reconciler.go:57-132 | from every reachable state, for either queue and with a reconcile or Job reconciles in flight, some run without user writes, stale reads or failures other than conflicts empties the queue and lets the informer catch up |
| ErrandQuiescence.UndisturbedRunsEnd | pkg/kube/controllers/quarksjob/errand_reconciler.go:57-132 | once the informer has seen the user's writes, every such run takes entries, makes calls and returns only a bounded number of times, in terms of the queue and the stored Job writes |
| ErrandQuiescence.OnlyIdlenessEndsWork | pkg/kube/controllers/quarksjob/errand_reconciler.go:57-132 | the operator can go on, at once or when an entry is due, iff it is not idle, so every such run that goes on while it can comes to rest |
| ErrandQuiescence.UndisturbedRunsAreBounded | pkg/kube/controllers/quarksjob/errand_reconciler.go:57-132 | once the informer has seen the user's writes, every such run, with Job writes at any time, makes at most two reconciles for each entry and each stored Job write, four for a reconcile in flight or one without |
| ErrandQuiescence.RestMeansAnswered | pkg/kube/controllers/quarksjob/errand_reconciler.go:57-132 | where it rests every accepted trigger was answered by a create result for a later version, unless its object was deleted |
| ErrandQuiescence.TriggersAreAnswered | pkg/kube/controllers/quarksjob/errand_reconciler.go:57-132 | after any delivered trigger some undisturbed run comes to rest, and in it a Job was made from a later version, unless the object was deleted |
| MergingQueue.OneDelayedEntry | pkg/kube/controllers/quarksjob/errand_reconciler.go:89-92 | in every reachable state a merging queue has at most one entry due later than now |
| MergingQueue.HarmlessRunsKeepTriggers | pkg/kube/controllers/quarksjob/errand_reconciler.go:65-118 | a merging queue loses no trigger as long as each merge leaves every open window an entry at or after its end, a condition on the entries before the merge |
| MergingQueue.MergeIsHarmlessIff | pkg/kube/controllers/quarksjob/errand_reconciler.go:89-92 | a merge meets that condition iff no unanswered trigger can be lost after it without a further harmful merge |
| MergingQueue.LossNeedsHarmfulMerge | pkg/kube/controllers/quarksjob/errand_reconciler.go:80-92 | every run that loses a trigger contains a merge that violates the condition |
| MergingQueue.LossIffNoWakeUp | pkg/kube/controllers/quarksjob/errand_reconciler.go:89-92 | between reconciles an unanswered trigger can be lost without further harmful merges iff some open window has no entry due at or after its end |
| MergingQueue.MergingQueueLosesATrigger | pkg/kube/controllers/quarksjob/errand_reconciler.go:80-92 | a reachable loss: a stale read, a conflict, and a retry merged with the wake-up call |
| ErrandReconciler.Reconciler.Reconcile | pkg/kube/controllers/quarksjob/errand_reconciler.go:57-132 | makes exactly the calls of the protocol's automaton, in order, and returns its result, for every sequence of answers; said of the trace itself: an object without a timestamp gets one and ten seconds, inside them nothing is done, after them the timestamp is cleared, now goes back to manual, the Job is asked for with the object last stored, a missing reference is retried after five seconds, and a Job made for a once object is followed by exactly one call, the move to done, any other by none |
| ErrandReconciler.EpisodesAreLegal | pkg/kube/controllers/quarksjob/errand_reconciler.go:57-132 | every complete sequence of calls the automaton allows has that form |
| ErrandReconciler.Reconciler.Proceed | pkg/kube/controllers/quarksjob/errand_reconciler.go:94-131 | the same for the part after the meltdown has ended, from the clearing update to the move to done |
| ErrandReconciler.Reconciler.Start | pkg/kube/controllers/quarksjob/errand_reconciler.go:109-131 | the same for the part from the request for the Job on: its answer decides between no further call, exactly the move to done, a retry after five seconds, and a failure |
| ErrandInvariant.StepKeepsBase | pkg/kube/controllers/quarksjob/errand_reconciler.go:76-131 | every step keeps: each copy in flight is the stored version it claims to be up to the edit to be sent, and each stored version respects its writer's role |
| ErrandTriggers.StepKeepsWake | pkg/kube/controllers/quarksjob/errand_reconciler.go:76-92 | every step keeps a wake-up call for each open window, a merge if the other entries or the merged one come late enough |
| ErrandTriggers.StepKeepsTriggers | pkg/kube/controllers/quarksjob/errand_reconciler.go:65-131 | every step keeps unanswered triggers alive |
| ErrandTriggers.StepKeepsPaid | pkg/kube/controllers/quarksjob/errand_reconciler.go:65-131 | every step keeps the account of triggers |
| ErrandOrder.StepKeepsSpacing | pkg/kube/controllers/quarksjob/errand_reconciler.go:76-109 | every step keeps create results spaced and timestamps not older than the last of them |
| ErrandOrder.StepKeepsOrder | pkg/kube/controllers/quarksjob/errand_reconciler.go:101-129 | every step keeps the order of strategy writes and create results |
| ErrandController.IsLowerVersion | pkg/kube/controllers/quarksjob/errand_controller.go:208-221 | true iff some old secret with the prefix has a higher version, in whatever order the map is ranged over |
| ErrandController.HasConfigsChanged | pkg/kube/controllers/quarksjob/errand_controller.go:183-206 | true iff the name sets differ and no versioned new secret is older than an old secret matching its prefix |
| ErrandController.PrefixTestIsExact | pkg/kube/controllers/quarksjob/errand_controller.go:208-221 | with prefix-free base names of the versioned secrets that is the comparison of versions of the same secret |
| ErrandController.PrefixTestIsExactIff | pkg/kube/controllers/quarksjob/errand_controller.go:183-221 | over a set of secret names, the decision is the comparison of versions of the same secret for every change among them iff no name's base is a prefix of another secret's name with a higher version |
| ErrandController.PrefixCollisionDropsAChange | pkg/kube/controllers/quarksjob/errand_controller.go:210-216 | a genuine change that the prefix test drops |
| Reconciles.GetReconciles | pkg/kube/util/reference/reconciles.go:21-90 | returns the requests of the specification, and an error iff the list fails or an unknown object meets a once or done errand of its namespace with UpdateOnConfigChange |
| Reconciles.ReferencedBy | pkg/kube/util/reference/reconciles.go:22-59 | reference by exact name, or for a versioned secret by any version of it, independently of key order |
| Reconciles.KeysOf | pkg/kube/util/reference/reconciles.go:47-52 | the slice filled by index holds exactly the names |
| Reconciles.RequestsAreExact | pkg/kube/util/reference/reconciles.go:71-89 | each request comes from a same-namespace auto-errand with UpdateOnConfigChange that refers to the object, in list order, and each such QuarksJob has its request |
| Reconciles.RequestsAreUnique | pkg/kube/util/reference/reconciles.go:71-89 | no QuarksJob is requested twice when names are unique |
| Reconciles.SkipReconciles | pkg/kube/util/reference/reconciles.go:94-125 | skips iff the config cannot be read or its version has moved on |
| JobReconciler.Reconcile | pkg/kube/controllers/quarksjob/job_reconciler.go:55-126 | fails iff the Job or its named parent cannot be read; for a succeeded Job the writes are, in order, the deletion of the Job, of its latest pod if the label asks for it, and the object it read with completed set; a missing pod to delete ends it after the first; otherwise nothing is written |
| JobReconciler.ParentName | pkg/kube/controllers/quarksjob/job_reconciler.go:76-81 | the last controlling owner |
| JobReconciler.JobPod | pkg/kube/controllers/quarksjob/job_reconciler.go:144-157 | the latest pod, the first of equally late ones |
| PersistedSecrets.NilMeansWhatIsAsked | pkg/kube/controllers/quarksjob/output_persistor.go:77-186 | when persistPod returns nil on the pod of a fully mapped template: for each file of the output map of each container whose exit code qualifies, or each key of a fan-out file, the destination built from that entry's name and versioned flag holds the data parsed from that file, with the labels and annotations of output, entry, container and remote id; every other destination is untouched; every file had arrived, and whatever was read could be used |
| PersistedSecrets.NilMeansOneOfTheAsked | pkg/kube/controllers/quarksjob/output_persistor.go:77-186 | where entries compete for a destination it holds what one of them asks for |
| PersistedSecrets.WrittenIsPersisted | pkg/kube/controllers/quarksjob/output_persistor.go:114-182 | end to end: what a container writes at /mnt/quarks/f is the data its secret holds when persistPod has returned nil |
| PersistedSecrets.WorkersAreForTheOutputMap | pkg/kube/controllers/quarksjob/output_persistor.go:80-92 | what the started workers are for, taken together, is exactly what the output map asks for |
| PersistOutput.NilMeansExactlyTheOutputs | pkg/kube/controllers/quarksjob/output_persistor.go:77-186 | when persistPod returns nil the store holds exactly the secrets the output map asks for, over what it held before, for every interleaving and iteration order, and no worker met an error |
| PersistOutput.EveryRunStoresSomeOutputs | pkg/kube/controllers/quarksjob/output_persistor.go:77-186 | in every state of every run, whatever it has returned, the store is the one specified for some subset of the outputs |
| PersistOutput.PersistingTwiceIsPersistingOnce | pkg/kube/controllers/quarksjob/output_persistor.go:322-380 | after a run that failed or was cut off anywhere, a run that returns nil leaves the specified store over what there was before the first; it changes nothing if the first had returned nil |
| PersistOutput.RetryingConverges | pkg/kube/controllers/quarksjob/output_persistor.go:322-380 | the same after any number of runs, each cut off anywhere |
| PersistOutput.DistinctIsConsistent | pkg/kube/apis/quarksjob/v1alpha1/types.go:95-98 | pairwise distinct sanitized destination names of all files and keys leave no two writes in competition |
| PersistOutput.OtherSecretsUntouched | pkg/kube/controllers/quarksjob/output_persistor.go:127-182 | secrets that no file or key maps to are left alone in every state of every run, whatever it returns |
| PersistOutput.StartWorkers | pkg/kube/controllers/quarksjob/output_persistor.go:80-92 | one worker per mapped container other than the persistor, in order, the k-th with the name, remote id and output map entry of the k-th such container and the output's labels and flag |
| PersistOutput.WorkersAgainstMessages | pkg/kube/controllers/quarksjob/output_persistor.go:81-95 | as many workers as awaited messages iff exactly one container starts none, more iff all start one |
| PersistOutput.RewrittenPodsMatch | pkg/kube/controllers/quarksjob/job_creator.go:114-115 | the pod that Create makes from a fully mapped template has as many workers as awaited messages |
| PersistOutput.MappedPodsArePersisted | pkg/kube/controllers/quarksjob/output_persistor.go:48-102 | on such a pod, whatever the interleaving, nil means the store is the specified one, and a run that cannot be extended has returned nil iff every worker came to its end and none had an error |
| PersistOutput.UnmappedPodsNeverSucceed | pkg/kube/controllers/quarksjob/output_persistor.go:81-95 | with a container of the template unmapped persistPod never returns nil; once nothing can move it hangs iff no worker had an error |
| PersistPod.NilMeansAllFinishedClean | pkg/kube/controllers/quarksjob/output_persistor.go:94-101 | with no more workers than awaited messages, nil means every worker has come to its end, none waits for ever and none attempted an error, under every interleaving |
| PersistPod.NilMeansPersisted | pkg/kube/controllers/quarksjob/output_persistor.go:94-186 | and then the store is one function of what the workers store, independent of order |
| PersistPod.NilIffEnoughCleanWorkers | pkg/kube/controllers/quarksjob/output_persistor.go:81-101 | nil can be returned iff at least as many workers are free of errors as messages are awaited |
| PersistPod.NilMeansFinishedIff | pkg/kube/controllers/quarksjob/output_persistor.go:81-101 | nil means that all workers came to their ends, in every run, iff no more workers run than messages are awaited, or nil cannot be returned; workers that wait for ever are included |
| PersistPod.StuckIffTooFewWorkers | pkg/kube/controllers/quarksjob/output_persistor.go:94-101 | the join can hang iff fewer workers come to an end than messages are awaited, because too few run or some wait for ever, and none has an error to send |
| PersistPod.JoinReturns | pkg/kube/controllers/quarksjob/output_persistor.go:94-101 | a run that cannot be extended has returned iff as many workers come to an end as messages are awaited, or some worker has an error to send |
| PersistPod.JoinReturnsNilIffClean | pkg/kube/controllers/quarksjob/output_persistor.go:94-101 | with no more workers than awaited messages it has returned nil iff there is one worker per message, each comes to an end and none has an error to send |
| PersistPod.RunsAreFinite | pkg/kube/controllers/quarksjob/output_persistor.go:94-186 | a run makes no more steps than the workers have events |
| PersistContainer.Worker.Run | pkg/kube/controllers/quarksjob/output_persistor.go:106-186 | goes on exactly if every path built from its files is there or its creation is reported before any error, sends the tracker's error twice if that fails, and waits silently otherwise; then errors only, if any, then one final message; nothing but the container's outputs is stored, and all of them unless an API call fails; an error iff the exit code or a file was unusable, or an API call failed |
| PersistContainer.Worker.PersistFile | pkg/kube/controllers/quarksjob/output_persistor.go:128-180 | one file: no final message, an error iff something failed, none but the file's secrets stored, and all of them unless an API call fails |
| PersistContainer.Worker.PersistFanOut | pkg/kube/controllers/quarksjob/output_persistor.go:149-166 | the secrets of the file's keys and no others, in any key order; all of them unless an API call fails, even when values cannot be parsed |
| PersistContainer.PrefixedPaths | pkg/kube/apis/quarksjob/v1alpha1/types.go:204-210 | the prefixed path of every file and nothing else, in any order |
| Secrets.PersistOneMore | pkg/kube/controllers/quarksjob/output_persistor.go:347-380 | one more create-or-update takes the specified store of a set to that of the larger set |
| Secrets.PersistMore | pkg/kube/controllers/quarksjob/output_persistor.go:322-380 | some upserts first and others after them come to the same as all at once, whatever the store held; in particular the specified store is reached once and for all |
| Secrets.SecretClient.CreateSecret | pkg/kube/controllers/quarksjob/output_persistor.go:347-380 | stores the secret whether or not it existed, or reports a failure and stores nothing |
| Secrets.SecretClient.CreateVersionedSecret | pkg/kube/controllers/quarksjob/output_persistor.go:322-344 | appends a version unless the latest is identical, or reports a failure and stores nothing |
| Secrets.NewLabels | pkg/kube/controllers/quarksjob/output_persistor.go:307-320 | the loops over unordered maps compute the label specification |
| Secrets.LabelPrecedence | pkg/kube/controllers/quarksjob/output_persistor.go:307-320 | remote id over container name over the file's labels over the general ones, all but the remote id sanitized |
| FileTracker.CheckForOutputFiles | pkg/kube/controllers/quarksjob/output_persistor.go:206-258 | complete iff every path is a file at the check or its creation is reported before any error; fails iff not and there is no watcher or an error is reported |
| FileTracker.Seen.CheckAll | pkg/kube/controllers/quarksjob/output_persistor.go:290-296 | keeps the key set, and sets exactly the entries of existing files |
| FileTracker.Seen.Complete | pkg/kube/controllers/quarksjob/output_persistor.go:281-288 | true iff every entry is |
| JobCreator.Create | pkg/kube/controllers/quarksjob/job_creator.go:59-165 | posts a Job built from a fresh, rewritten copy with the latest secret names iff everything succeeds; an unreadable reference is answered with a retry if the first is missing and with an error if it is broken; a missing name or owner is an error; a rejected post is both; nothing the caller can see is changed |
| JobCreator.PodTemplate.Rewrite | pkg/kube/controllers/quarksjob/job_creator.go:73-120 | the in-place edits yield the specified rewrite of the template, element by element |
| JobCreator.PodTemplate.MountOutputs | pkg/kube/controllers/quarksjob/job_creator.go:92-112 | one volume, one container mount and one persistor mount per container, appended in order |
| JobCreator.PodTemplate.DeepCopy | pkg/kube/controllers/quarksjob/job_creator.go:61 | an equal template that is new in every part |
| JobCreator.PodTemplate.SetSecretReferences | pkg/kube/controllers/quarksjob/job_creator.go:122-124 | secret volumes get the latest name of their secret, and nothing else changes |
| JobCreator.ValidateReferences | pkg/kube/controllers/quarksjob/job_creator.go:167-190 | succeeds iff every reference is present, and otherwise reports one that is not, ConfigMaps first |
| JobCreator.Submit | pkg/kube/controllers/quarksjob/job_creator.go:126-164 | success, retry without error, error, or both, each exactly for the answers that cause it |
| PodPaths.RewriteKeepsMountsNamed | pkg/kube/controllers/quarksjob/job_creator.go:73-115 | every mount of the rewritten pod names one of its volumes, if that held before |
| PodPaths.RenamingKeepsMountsNamed | pkg/kube/controllers/quarksjob/job_creator.go:122-124 | replacing secret names keeps that |
| PodPaths.VolumesStayUnique | pkg/kube/controllers/quarksjob/job_creator.go:73-100 | volume names stay unique iff Sanitize keeps the containers apart and the new names are new |
| PodPaths.Literals | pkg/kube/controllers/quarksjob/job_creator.go:25 | the two paths are /mnt/quarks and /mnt/quarks/ |
| PodPaths.PathsAgree | pkg/kube/controllers/quarksjob/job_creator.go:102-111 | for a name that stays in its directory and a container with no mount of its own on the way, the file it writes at /mnt/quarks/f and the file the persistor reads for it are the same file of its output volume |
| PodPaths.FilesAgreeIff | pkg/kube/controllers/quarksjob/output_persistor.go:114-129 | for every name and any mounts of the container, writer and persistor mean one and the same file iff no mount of the container's own lies on the way and the name does not climb out of its directory, or the container is named quarks and it climbs one level and comes back through quarks |
| PodPaths.FilesAgreeIffStaying | pkg/kube/controllers/quarksjob/output_persistor.go:114-129 | for a container not named quarks that is: iff the name never climbs out of its directory and no mount of the container's own lies on the way |
| PodPaths.FilesNeverAlias | pkg/kube/controllers/quarksjob/output_persistor.go:114-129 | whatever path one container writes to and whatever staying name the persistor reads for another, they are never the same file |
| PodPaths.ClimbingDisagrees | pkg/kube/apis/quarksjob/v1alpha1/types.go:204-210 | for container c the persistor reads ../d/x as the file x of the output volume of container d, and c means no file by that name that the persistor means, unless both are named quarks |
| PodPaths.ClimbingInput | pkg/kube/apis/quarksjob/v1alpha1/types.go:204-210 | a concrete pod with containers a and b on which ../b/x, mapped for a, is read from b's volume and means no common file |
| PodPaths.ShadowInput | pkg/kube/controllers/quarksjob/job_creator.go:102-111 | a concrete pod whose container a has its own volume at /mnt/quarks/sub, on which sub/x means no common file |
| Paths.RelativeWalk | pkg/kube/controllers/quarksjob/output_persistor.go:114-129 | joining a relative name climbs a fixed number of levels and descends to a fixed place, whatever directory it starts in; it climbs none iff the name never leaves its directory |
| Paths.JoinIsCanonical | pkg/kube/controllers/quarksjob/output_persistor.go:114-129 | joined paths are the same text iff they lead to the same place, so reports of created files can be compared with them as text |

## Left out

- Several QuarksJobs at once: the keys share nothing but the clock, so one key is modelled; deletion and re-creation under the same name are included.
- Operator restarts, and updates that are applied but reported as failed: the in-window branch returns without a requeue, so either can lose a trigger.
- Deduplication of entries that are already due: the queue model keeps them apart, which only adds reconciles.
- Event delivery order between the informers of ConfigMaps, Secrets and QuarksJobs: a config event may be accepted whenever the cached QuarksJob is an auto-errand with UpdateOnConfigChange.
- No-op updates that the API server does not give a new version: every stored update gets one.
- FileTracker.CheckForOutputFiles: does not claim that files created between the check and the start of the watch are noticed; the code does not either. A file status that fails for another reason than absence makes the code dereference nil and is not modelled.
- PersistContainer.Worker.Run: takes the exit code as given; the busy wait for it depends on the cluster.
- The physical names of versioned secrets, which could coincide with a plain secret's: the two kinds are separate destinations. Writers of secrets other than the persistor are not modelled.
- Slices with spare capacity: an append makes a new sequence; the deep copy leaves no spare capacity to share.
- Init containers, environment references in SetSecretReferences, resource fields: carried along unread.
- JobReconciler.ParentName: takes the controller flag as present; the code dereferences it unchecked.
- Namespace predicate, Job watch predicate, logging, events, command line, CRD registration, generated clients, service account lookup: plumbing, or given as answers.
