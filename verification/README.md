# What the controller keeps: a Dafny model

The simplek8s controller runs as one pod on every node of a Kubernetes cluster. The pods
elect a leader through a lease; the leader cordons, drains and supervises reboots; the pod on
a node issues the reboot and, as update pod, stages kernels on the boot partition, keeps the
bootloader's default at the node's goal (`next-kernel`) and asks for a reboot when it is due.
All of them, the HTTP API and the operator write the same Node objects under optimistic
concurrency. This project models that machinery and proves what it keeps, over every
interleaving, failure and crash the model has.

How the files follow the program:

| files | part of the program |
|---|---|
| `Lease` | leader election: one pod's `Sync` as a class, many pods on one lease as a state machine |
| `NodeState`, `Store`, `RequestApi` | annotations, merge patches (section 2 of RFC 7386), guarded writes, the retry loop `PatchTransition`, the API's two writes |
| `RebootWorld`, `RebootExecution`, `RebootEvidence`, `RebootSlots`, `RebootProgress` | the reboot protocol: leader, executors, API, update pods, hosts and operator as interleaved steps with stale views; three families of invariants, and a run that completes a reboot |
| `RebootExecutor`, `Admission`, `Drain` | the executor's cycle, the leader's admission phase and one drain cycle as imperative code |
| `Names`, `Grub`, `GrubPrune`, `GrubConfig` | stored names, the GRUB menu editor as functions on lines, and the in-place editor proved against them |
| `Purge`, `Retention`, `Staging`, `Boot`, `StagingRefinesBoot` | retention planning, first on kernels and then on the files of the partition, the staging sequence with a trace of every intermediate state, the partition as the update pod sees it |
| `BootGoal` | the update pod's cycle over goal, staged kernels, default and pod memory |
| `Calendar`, `Cron`, `CronFields` | maintenance windows: the bounded backward scan, and reading the fields |

A loop that changes things step by step is a method with invariants, proved against a
function, a predicate or the recorded history; laws about runs are lemmas over sequences of
worlds. Failures (lost replies, conflicts, refused mounts, cut copies) are inputs. Ghost
histories record every version of a node, every state of the partition and every re-pointing
of the default; no decision reads them. "Undisturbed" in the table means: nobody else writes
between the calls and no call fails; then the exact outcome is stated.

## What is assumed

- Lease: one monotone clock in whole microseconds, shared; only pods write the lease object
  and nobody deletes it (`Lease.DeletedLeaseMakesTwoLeaders` shows this is needed); a call takes
  no effect after its client gave up.
- Reboot protocol: one admitting leader at a time and a fixed configuration; boot ids are
  never used twice; pods die with their host; a patch of a node lands while its call lasts or
  never, so not after its client gave up; reboot clocks count whole seconds; nobody edits
  the `reboot-*` annotations by hand (the cordon and `next-kernel` may be edited). A nil exec record where the
  executor's guards dereference it counts as a crash without a write.
- Menu, where a default is said to boot: blocks close, the first `set default` line stands
  before the entries, and the default is a name, found by id or by title. For a numeric default
  `GrubPrune.PruneKeepsNumberExactly` and `Staging.NumericDefaultInRun` give the exact
  condition. Re-pointing needs that no entry is found for the path that does not also lead to it
  by id (`Grub.PointAtThenDefault`). Writing the menu is atomic. What a staging run may do to
  any other menu is in `Staging.Derived`.
- Boot goal: during a cycle nobody else changes the partition; the flavor a listing resolves to is any fixed function of it.

Where the code and its comments differ, the model follows the code:

- `planPurge` keeps the newest `keepNewest` kernels overall, protected ones included, not that
  many unprotected ones (purge.go:48-66).
- The kernels removed to make room (staging.go:208-238) are collected but not looked at: only a
  deletion by the final retention purge triggers the menu prune.
- A copy cut short leaves a file of the right name, which the name-only check later takes
  for staged (staging.go:142-152); `Staging.File.whole` keeps the two apart.
- The loop over `lo, lo + step, ...` runs on 64-bit numbers (cron.go:211). A step that reaches
  2^63 from its start wraps below zero, so a field such as `5-10/9223372036854775807` also lists
  3 and 1, and negative numbers; `CronFields.StepFits` is the exact condition.
- The 4-year horizon is given only to the exact list `29`; a list such as `29,30` in February gets
  366 days although 29 February is all it can match (cron.go:261-265), and no horizon covers
  a century that skips its leap day.

## Model

| member | source | states |
|---|---|---|
| Lease.Leaser.Sync | internal/engine/lease.go:57-119 | for any replies to read, conditional write and re-read: a failed read leaves the belief, a write that landed makes this pod leader with this instant as its renewal, a refused one leaves to the re-read or to the belief what the source leaves to it; memory and state are those of the protocol's step functions |
| Lease.Leaser.Classify | internal/engine/lease.go:131-149 | after a conflict the re-read decides: only an own record younger than 30 s makes this pod leader |
| Lease.Leaser.Leader | internal/engine/lease.go:164-175 | leadership is believed exactly within 30 s of the last own renewal |
| Lease.NextKeepsInv | internal/engine/lease.go:57-169 | every step of any number of pods, with lost replies and retried writes, keeps: while a pod may lead, the lease is held by it with a renewal no older than it remembers |
| Lease.AtMostOneLeader | internal/engine/lease.go:164-169 | at every instant of every run at most one pod satisfies `Leader()` |
| Lease.UndisturbedSyncLeads | internal/engine/lease.go:81-119 | with the lease absent, or stale in another's name, one undisturbed sync makes the pod leader |
| Lease.UndisturbedSyncMeans | internal/engine/lease.go:57-119 | every undisturbed sync, seen from outside: an own lease renewed 10 s ago or longer, an absent one and a foreign one gone stale end with this pod's name and this instant, and with this pod leading; an own lease renewed more recently and a fresh foreign one stay as they are |
| Lease.PromptPodGoesOnLeading | internal/engine/lease.go:68-79 | in every run, a leading pod whose syncs are undisturbed and start at most 20 s apart satisfies `Leader()` throughout |
| Lease.DeletedLeaseMakesTwoLeaders | internal/engine/lease.go:104-119 | deleting the lease under a leader lets a second pod become leader |
| NodeState.WritesFollowTheDiagram | internal/nodestate/state.go:296-441 | every guarded write of every writer, on every node it accepts, moves the state along one of that writer's documented edges or not at all |
| NodeState.AdmissionMeans | internal/nodestate/state.go:296-303 | a request is admitted onto a node without a reboot or with a finished one, starts afresh, and touches nothing else |
| NodeState.DeletionMeans | internal/api/api.go:425-443 | DELETE clears all four annotations, but for a draining node and one without a state; it uncordons exactly a node past draining whose earlier cordon is known to be absent |
| NodeState.DrainingMeans | internal/nodestate/state.go:349-368 | the drain starts with the cordon in the same write, remembers one found before, and forgets the blockers |
| NodeState.FailingMeans | internal/nodestate/state.go:386-394 | a failure is recorded with its reason and keeps what the status says of the cordon |
| NodeState.BlockingMeans | internal/nodestate/state.go:425-432 | blockers are noted on a requested node only, and nothing else of the node is touched |
| NodeState.UpdatePodMeans | internal/nodestate/state.go:305-345 | the update pod requests only for the stored goal, well-formed and not running, on a node without a state; it forgets exactly a completed reboot and leaves the cordon |
| NodeState.StatusSurvivesRewrite | internal/nodestate/state.go:241-279 | reading, changing and writing back the shared status loses no field the writer did not mean to change |
| Store.NodeStore.GetNode | internal/kubetest/fakeapi.go:429-459 | a read returns the stored node with its version, or fails and changes nothing |
| Store.NodeStore.PatchNode | internal/kubetest/fakeapi.go:429-459 | a write lands exactly when the version it carries is the stored one; success means it landed, a conflict means it did not |
| Store.NodeStore.Attempt | internal/nodestate/state.go:463-479 | one round: a write that landed was built from the very version it replaced |
| Store.NodeStore.PatchTransition | internal/nodestate/state.go:460-482 | the retry loop refines one atomic guarded step: success is exactly one write, made where `build` held on the stored node; abort and exhaustion wrote nothing; a failed call wrote nothing or that step |
| RequestApi.Server.Admit | internal/api/api.go:230-276 | admission is one write on a node re-requestable at that moment; every refusal wrote nothing; undisturbed, the first failing check decides |
| RequestApi.Server.DeleteReboot | internal/api/api.go:415-453 | success is one guarded clear, built from the node it replaced; a refusal wrote nothing and the node was seen draining, or without a state, during the call |
| RebootExecution.NextKeepsExecution | internal/features/reboot/local.go:26-122 | every step of the protocol keeps the bounds that tie commands, journals, exec records and executors' plans together |
| RebootExecution.AtMostTwoCommands | internal/features/reboot/local.go:44-121 | over every run at most two exec records and two commands per request, each command matched by the record with its attempt and boot id |
| RebootExecution.CommandsAreAnnounced | internal/features/reboot/local.go:124-162 | when a command starts, the record of that request with the current boot id is already durable |
| RebootEvidence.NextKeepsEvidence | internal/features/reboot/orchestrator.go:237-280 | every step keeps: views are earlier versions of their own request, sightings speak of their own record |
| RebootEvidence.CompletionRestsOnItsOwnRecord | internal/features/reboot/orchestrator.go:237-280 | in every run, each rebooting-to-completed step rests on a record of the same request: confirmed with the boot id changed since, or an earlier step of the run at which the leader, holding a version of that node it had listed, saw it NotReady by a clock strictly past the record's issue |
| RebootEvidence.SightingsAreGenuine | internal/features/reboot/orchestrator.go:237-262 | every sighting in use goes back to a leader step of the run that took it of a NotReady view, and that view to a list of the then stored node, made no sooner than the record in the view was issued |
| RebootEvidence.RunMoves | internal/features/reboot/orchestrator.go:266-280 | over every run the state moves along the documented edges only, each taken by the actor it belongs to, on that actor's own node |
| RebootEvidence.DrainingIsNotInterrupted | internal/api/api.go:434-442 | a draining node is left to the leader: it goes to rebooting or failed, never cleared by DELETE |
| RebootEvidence.FailedStays | internal/nodestate/state.go:334-345 | a failed node is no longer failed only after a DELETE or a new request for it |
| RebootEvidence.StepKeepsCordon | internal/features/reboot/orchestrator.go:286-327 | no controller or API step that leaves the request in place lifts a cordon found at admission |
| RebootEvidence.CordonSurvives | internal/nodestate/state.go:349-394 | over every run such a cordon stays as long as the request is neither cleared nor replaced and no operator edits it |
| RebootWorld.DrainingManaged | internal/features/reboot/orchestrator.go:218-232 | the leader leaves a draining node while the drain is pending, moves it to rebooting when done, and to failed with the reason when it failed |
| RebootWorld.RebootingManaged | internal/features/reboot/orchestrator.go:237-261 | it completes a rebooting node exactly when the node is ready and either confirmed or seen NotReady after the record was issued; it takes that sighting exactly of a node not ready since |
| RebootWorld.FinishedManaged | internal/features/reboot/orchestrator.go:286-327 | it uncordons a finished node, unless the node was cordoned before or its status cannot be read, and changes nothing else |
| RebootSlots.NextKeepsSlots | internal/features/reboot/orchestrator.go:53-136 | the counts the leader took from its snapshot still bound the nodes in flight when its write lands |
| RebootSlots.SlotsAreBounded | internal/features/reboot/orchestrator.go:53-136 | over every run at most `MaxConcurrentReboots` nodes are in flight, and at most one of them a control plane |
| RebootSlots.PhasesAreBounded | internal/features/reboot/orchestrator.go:53-136 | the same of the nodes that are draining or rebooting, whichever they are |
| RebootProgress.RebootCompletes | internal/features/reboot/orchestrator.go:53-261 | from every point of every run where a ready node is requested, nothing is in flight and neither the leader nor the node's pod is amid a cycle, the run can go on to drain it, reboot its host with exactly one command, complete it and give it back with the cordon there was before, no other node touched |
| RebootExecutor.Executor.WriteAhead | internal/features/reboot/local.go:127-149 | the record is written only onto a rebooting node whose record still passes the guard, and success leaves it in the node's history |
| RebootExecutor.Executor.Carry | internal/features/reboot/local.go:151-162 | a command starts only after its record's write is known to have succeeded |
| RebootExecutor.Executor.RunLocal | internal/features/reboot/local.go:26-122 | one cycle starts at most one command, announced in the node's history with the current boot id; every own write is guarded; undisturbed, record, boot id and grace decide: no record means attempt 1 and a command; the same boot means attempt 2 and a command once within the grace, then waiting, and a failed node past it; another boot is confirmed once; all else is left alone |
| RebootExecutor.NoStartFails | internal/features/reboot/local.go:153-162 | a command that was announced and does not start leaves the node failed, with the record in place; one that starts leaves nothing but the record |
| Admission.BeforeIsStrictOrder | internal/features/reboot/orchestrator.go:180-191 | the queue order is strict and transitive, and total on distinct names |
| Admission.BeforeMeans | internal/features/reboot/orchestrator.go:180-191 | the older request goes first; of two as old a worker; of two of a kind the name that is less in its first differing byte, or the shorter one |
| Admission.SortQueueSorts | internal/features/reboot/orchestrator.go:180-191 | sorting yields the same candidates in that order |
| Admission.Cluster.AdmissionCounts | internal/features/reboot/orchestrator.go:156-176 | one pass yields the number of nodes in flight, of control planes among them, and both hold conditions |
| Admission.Cluster.Queue | internal/features/reboot/orchestrator.go:72-80 | exactly the requested nodes, in order |
| Admission.Cluster.PassHeld | internal/features/reboot/orchestrator.go:86-108 | the walk stops at the first candidate that is forced, or unblocked with a window open, having noted the blockers of exactly the budget-held ones before it |
| Admission.Cluster.Admit | internal/features/reboot/orchestrator.go:53-136 | one cycle admits at most one node, the least eligible one, and one whenever any is eligible; none under pause, NotReady hold or a full slot; the admitted node is draining and cordoned from now; nothing else changes but noted blockers |
| Drain.DenyBackoff | internal/features/reboot/drain.go:96-108 | the doubling loop is five seconds times a power of two, sixty at most |
| Drain.BackoffSpelled | internal/features/reboot/drain.go:96-108 | that is 5, 10, 20 and 40 seconds, then a minute each time |
| Drain.Drainer.Evict | internal/features/reboot/drain.go:62-83 | an eviction is tried exactly when managed or forced and not refused too recently; refusals in a row are at least their back-off apart |
| Drain.Drainer.RunDrain | internal/features/reboot/drain.go:26-93 | timed out, done, failed delete and pending are told apart exactly; every pod's refusal record afterwards is what its own answer makes of it |
| Names.StoredNameRoundTrip | internal/updatecore/staging.go:51-66 | a stored name reads back as its version and flavor |
| Names.ParsedNameIsStored | internal/updatecore/versions.go:46-57 | every name that reads back is the stored name of what it reads as |
| Names.BaseOfKernelPath | internal/updatecore/bootloader.go:537-540 | the path an entry names ends in the stored name |
| Names.SpelledOut | internal/updatecore/staging.go:62-66 | an instance: version 7 of flavor rpi is `simplek8s.7.rpi.efi` |
| Names.NewerByDigit | internal/updatecore/versions.go:93-102 | of two versions of one width the first digit that differs decides, up to 18 digits |
| Names.NewerByWidth | internal/updatecore/versions.go:93-102 | a longer version that does not start with a zero is newer |
| Grub.PointAtKeepsEntries | internal/updatecore/bootloader.go:383-463 | setting the default keeps every entry's title, id and kernel, in order; at most one new entry, in front |
| Grub.PointAtKeepsOtherLines | internal/updatecore/bootloader.go:383-476 | every line but `set default` lines stays verbatim and in order; only the new entry and a missing options line are added |
| Grub.PointAtThenDefault | internal/updatecore/bootloader.go:336-402 | reading back yields the path set if and only if no entry was found for it or the entry its name leads to has that very path |
| Grub.PointAtIsIdempotent | internal/updatecore/bootloader.go:383-476 | setting the same default twice changes nothing the second time |
| Grub.NewDefaultSpelled | internal/updatecore/bootloader.go:404-461 | in a menu without a default or an entry for the path, what is added stands between header and first entry: a blank line where one is needed, the options line, the default line, the entry and a blank line |
| Grub.LookupMeans | internal/updatecore/bootloader.go:336-373 | a number counts the entries from zero; a name leads to the first entry with that id, and only if there is none to the first with that title |
| GrubConfig.EntryMeans | internal/updatecore/bootloader.go:303-334 | an entry runs from its menuentry line to the first closing brace, and its kernel is the first one named in between |
| GrubConfig.ExtentMeans | internal/updatecore/bootloader.go:704-747 | what a prune takes away with an entry runs to its closing brace and one blank line further |
| GrubConfig.MenuFile.ParseEntries | internal/updatecore/bootloader.go:303-334 | the index loops find every block with its end and first kernel, in order |
| GrubConfig.MenuFile.CurrentDefault | internal/updatecore/bootloader.go:336-373 | the lookup by number, id and title is the specified one |
| GrubConfig.MenuFile.SetDefault | internal/updatecore/bootloader.go:383-476 | the in-place edit yields exactly the specified menu |
| GrubConfig.MenuFile.Prune | internal/updatecore/bootloader.go:704-794 | marking lines and copying the rest is pruning block by block, and nothing is written when nothing is stale |
| GrubConfig.MaskIsPrune | internal/updatecore/bootloader.go:704-747 | the mask over all lines and the block-wise prune agree on every menu, closed blocks or not |
| GrubConfig.ExactlyStaleExtentsGo | internal/updatecore/bootloader.go:704-747 | on every menu exactly the lines of the stale blocks go, each from its menuentry line through its closing brace and one blank line after it |
| GrubPrune.PruneKeepsBlocks | internal/updatecore/bootloader.go:704-747 | when blocks close, the surviving blocks are the non-stale ones, verbatim and in order |
| GrubPrune.PruneKeepsGlobals | internal/updatecore/bootloader.go:704-747 | lines outside every block stay in order, and all but the blank lines behind the blocks that go, counted |
| GrubPrune.PruneIsIdempotent | internal/updatecore/bootloader.go:704-747 | a second prune is a no-op |
| GrubPrune.PruneKeepsDefault | internal/updatecore/bootloader.go:336-373 | a default found by id or by title resolves to the same kernel after a prune that spares its line and its block |
| GrubPrune.PruneKeepsDefaultExactly | internal/updatecore/bootloader.go:336-373 | with one entry for its kernel, a default of any kind stays what it was if and only if its entry stays and, when it is a number, no entry before it goes |
| GrubPrune.PruneKeepsNumberExactly | internal/updatecore/bootloader.go:350-360 | a numeric default whose entry is not stale stays if and only if no entry before it is stale |
| GrubPrune.PruneFileKeepsBoot | internal/updatecore/bootloader.go:755-794 | a menu that boots a present kernel by id or title boots the same one after the prune, and pruning it again changes nothing |
| GrubPrune.DeadEntriesGo | internal/updatecore/bootloader.go:755-794 | after the prune, what is left for a kernel of the flavor that is gone is the default's own entry |
| GrubPrune.LivingEntriesStay | internal/updatecore/bootloader.go:755-794 | every other entry is still there |
| GrubPrune.PruneFileAndNumber | internal/updatecore/bootloader.go:755-794 | one that boots a present kernel by number still does if and only if no entry before its own names a kernel that is gone |
| GrubPrune.NumericDefaultMoves | internal/updatecore/bootloader.go:350-360 | an instance: "1" boots the second of two entries, and nothing once the first is pruned |
| Purge.Sort | internal/updatecore/purge.go:57-70 | the same kernels, in order when all versions are numbers of 64 bits |
| Purge.PlanPurge | internal/updatecore/purge.go:51-83 | nothing when there is space enough; else the shortest prefix of the deletable kernels, in sorted order, that reaches the target as counted in 64 bits, or all of them |
| Purge.PlanIsSafe | internal/updatecore/purge.go:51-83 | a deleted kernel is unprotected and one of more than `keepNewest`; when the versions are numbers of 64 bits, at least `keepNewest` others are as new, ties included, and every older unprotected one is deleted too |
| Purge.KeptRanks | internal/updatecore/purge.go:55-66 | a kept version is unprotected and outranked by fewer than `keepNewest`; an unprotected one with at most `keepNewest` as new as it, itself included, is kept |
| Purge.KeptIsAmongNewest | internal/updatecore/purge.go:55-66 | with distinct versions, one is kept exactly when unprotected and outranked by fewer than `keepNewest` others |
| Purge.PurgeReachesCap | internal/updatecore/purge.go:95-103 | afterwards usage is at most the cap, rounded up, or nothing deletable remains |
| Purge.TargetFreeMeans | internal/updatecore/purge.go:95-103 | the space to keep free is the part of the whole beyond the cap, rounded down; without a cap none |
| Retention.PlannedMeans | internal/updatecore/purge.go:51-83 | on the names in the directory: only unprotected kernels of the flavor go, each once, each while the target is not reached; older before newer; none that fewer than `keepNewest` others are as new as; and they go until the target is reached or the rest is protected or among the newest |
| Staging.Partition.ApplyPurge | internal/updatecore/purge.go:86-93 | removes the named files, in order, up to the first that cannot be removed, and no other; every state on the way is safe |
| Staging.Partition.PurgeFor | internal/updatecore/purge.go:111-128 | exactly the files of such a plan go, or, when one is stuck, those before it; with space enough none |
| Staging.Partition.PurgeAndPrune | internal/updatecore/purge.go:111-134 | what goes is such a plan for `preserve` and the usage cap, and the menu is pruned exactly when something went; what boots before boots after at every step; any other menu changes by the prune alone |
| Staging.RepointBoots | internal/updatecore/bootloader.go:383-476 | re-pointing a well-formed menu with room for the path leaves it well-formed and booting that path by id |
| Staging.PruneBoots | internal/updatecore/bootloader.go:755-794 | pruning such a menu keeps it well-formed and booting the same kernel |
| Staging.NewEntrySpelled | internal/updatecore/bootloader.go:404-463 | the entry added for a stored kernel, line by line |
| Staging.Partition.Stage | internal/updatecore/staging.go:130-275 | every state of a run, whatever fails and wherever it is cut, is safe; "already staged" is answered exactly for a file of the name with the expected checksum, when there is one to compare; a verified image goes in place of a plan that makes room and keeps nothing for its age, and a plan for `preserve` and the cap follows; files and menu afterwards are exactly these steps' and the staged image is whole and, unless told not to, booted; where nothing fails the run succeeds |
| Staging.FirstDefaultWhole | internal/updatecore/staging.go:243-250 | whatever the menu, the first default's file, whole at the start, is whole at every point of a run if and only if the run does not write that very file |
| Staging.DefaultStaysWhole | internal/updatecore/staging.go:130-275 | on a well-formed menu with room for the target, under the same condition exactly, the file of the default of the moment is whole at every point, re-pointed or not |
| Staging.NumericDefaultInRun | internal/updatecore/staging.go:130-275 | through a run that leaves the default alone a numeric one keeps its file, and its kernel in exactly the states where no entry before its own was pruned |
| Staging.SafeMeans | internal/updatecore/staging.go:105-126 | in a safe state no running or foreign-flavor file is gone or changed, and the default is the one at the start or the target, its file present |
| Staging.Partition.EnsureBootGoal | internal/updatecore/bootstore.go:207-232 | the default is touched only with the file present; a matching one is left alone; success means it reads back as the goal |
| StagingRefinesBoot.StagingKeepsImages | internal/updatecore/staging.go:105-126 | seen as images, staging keeps what the update pod relies on |
| StagingRefinesBoot.StagingAddsTheTarget | internal/updatecore/staging.go:105-126 | seen as images, staging adds none but the target |
| StagingRefinesBoot.StagingKeepsDefault | internal/updatecore/staging.go:130-275 | seen as an image, the default is the one before or the target, and is there |
| StagingRefinesBoot.EnsuringRefines | internal/updatecore/bootstore.go:207-232 | seen as images, ensuring the goal keeps the images, tells whether the goal's is there, and on success leaves it the default, re-pointed exactly when it was not |
| Boot.BootPartition.EnsureBootGoal | internal/updatecore/bootstore.go:207-232 | absent, failed, unchanged or re-pointed, with what each leaves |
| Boot.BootPartition.Stage | internal/updatecore/bootstore.go:179-198 | adds at most the target, keeps foreign, running, target and default images, re-points to the target only |
| BootGoal.Updater.Bootstrap | internal/features/update/update.go:264-303 | undisturbed, a node without a goal gets the running version when it is local, else a newest local one |
| BootGoal.Updater.ApplySafeState | internal/features/update/reconcile.go:120-185 | undisturbed, a goal still judged bad gives way to the safe one, which becomes the default, and a completed state is forgotten; any other goal stays |
| BootGoal.Updater.Reconcile | internal/features/update/reconcile.go:26-94 | a steady pod makes no call; otherwise the default follows the goal, and a completed state is forgotten exactly when goal or default moved |
| BootGoal.Updater.MaybeStage | internal/features/update/update.go:317-425 | undisturbed: a missing listed goal is staged, a missing unlisted one corrected, and a quiescent node takes an adoptable or stageable newest release as goal and default |
| BootGoal.Updater.Reconverge | internal/features/update/update.go:376-402 | beside a newer local kernel a held local goal is made the default again and stays the goal |
| BootGoal.Updater.ClaimCheck | internal/features/update/update.go:242-256 | an occurrence is claimed exactly when no claim for it or a newer one is stored |
| BootGoal.Updater.MaybeEnqueue | internal/features/update/enqueue.go:24-80 | every request in the history comes after the verification of its goal's file and default in this cycle; undisturbed, it is made exactly when due and the window is open, and otherwise the node stays as it is |
| BootGoal.Updater.RunLocal | internal/features/update/update.go:144-223 | against any other writers: each write of the goal replaces exactly a value its recorded decision assumed (none; none or the running one; the one value judged bad) by that decision's target, and each decision rests on a goal read earlier in the cycle, on the kernels found and on the check; a request has no state before it and is written after its goal was verified in this cycle, not merely beside it; a held goal stays and is the only one ever made default; a completed attempt rests. Undisturbed, the whole cycle's outcome: goal, default, claim and state afterwards, the state going from absent to requested exactly when the goal standing at the end is well-formed, local, not running, and the window open |
| BootGoal.Updater.RunOn | internal/features/update/reconcile.go:80-94 | any number of cycles and pod restarts leave a completed mismatch, its goal and its default as they are |
| BootGoal.GoalStaysThrough | internal/nodestate/state.go:460-482 | a goal both sides leave alone is the goal at every version of the node a transition passes through |
| Calendar.DateOf | internal/cron/cron.go:265-267 | every day number is the number of a valid date |
| Calendar.DateOfNumber | internal/cron/cron.go:265-267 | and of one only |
| Calendar.NumbersCountDays | internal/cron/cron.go:265-268 | the number after a date's is the next date's, through months, years and leap days |
| Calendar.KnownDays | internal/cron/cron.go:307-309 | 1 January 1970 was a Thursday, 5 January 2026 a Monday |
| Calendar.WeekdaysFollow | internal/cron/cron.go:307-309 | weekdays follow each other and come again every seven days |
| Calendar.NoLaterLeapDay | internal/cron/cron.go:260-264 | the last 29 February up to a day is the last |
| Cron.LatestInDay | internal/cron/cron.go:274-292 | the two loops yield the latest listed time of day at or before the bound |
| Cron.FieldsMean | internal/cron/cron.go:304-320 | an instant is an occurrence exactly when month, hour and minute are listed and the day is listed by the one day field that is restricted, by either if both are |
| Cron.IntervalsMean | internal/cron/cron.go:253-259 | an interval is counted from midnight |
| Cron.Scan | internal/cron/cron.go:253-296 | midnight-anchored intervals exactly; for fields the latest occurrence, or that none lies within the horizon |
| Cron.RegularWithinAYear | internal/cron/cron.go:258-264 | a schedule with a date every common year has, or with a weekday, matches a day in any 366 |
| Cron.ScanIsExact | internal/cron/cron.go:253-302 | the scan is the declared latest occurrence if and only if not (29 February alone can match and the last one lies behind the horizon) |
| Cron.LastOccurrence | internal/cron/cron.go:253-297 | the greatest occurrence at or before the instant, under that exact condition; always one for regular schedules |
| Cron.FourYearsSuffice | internal/cron/cron.go:260-264 | the longer horizon suffices while no century skips a leap day |
| Cron.MixedListMisses | internal/cron/cron.go:300-302 | any other list that only 29 February can match is missed throughout the years two after a leap year |
| Cron.SkippedCenturyMisses | internal/cron/cron.go:260-264 | around a skipped leap day even the longer horizon misses |
| Cron.ScanMisses | internal/cron/cron.go:253-302 | under that condition the scan finds nothing though there was an occurrence |
| Cron.FebruaryListMisses | internal/cron/cron.go:300-302 | for one, `0 0 29,30 2 *` on 1 January 2026 |
| Cron.WindowsOpen | internal/cron/cron.go:335-348 | open exactly when some schedule has an occurrence O with O <= now < O + grace, for a grace up to 366 days |
| Cron.SundaysOpen | internal/cron/cron.go:335-348 | an instance: `0 4 * * 0` with an hour's grace is open at 04:30 on Sunday 4 January 2026 and closed a day later |
| Cron.NewestOccurrence | internal/cron/cron.go:354-366 | an occurrence of one schedule that nothing the scans reach beats |
| CronFields.ElementIsExact | internal/cron/cron.go:203-222 | the 64-bit loop over an element lists exactly the values it stands for if its first step stays below 2^63, and a negative number as well if not |
| CronFields.SteppedRange | internal/cron/cron.go:167-200 | `lo-hi/step` stands for `lo`, `lo + step` and so on up to `hi`, and for nothing between |
| CronFields.PlainElements | internal/cron/cron.go:167-212 | what a star, a range and a single value stand for, and which elements are refused |
| CronFields.FieldIsExact | internal/cron/cron.go:167-222 | a field's values are those its elements stand for, and within its bounds, if and only if every step fits |
| CronFields.HugeStepWraps | internal/cron/cron.go:211-213 | `5-10/9223372036854775807` in the hours stands for 5 and lists 5, 3, 1 and four negative numbers |
| CronFields.ParseField | internal/cron/cron.go:167-233 | accepts exactly the grammar's fields; the list is ascending, and exact and within the bounds if and only if every step fits |
| CronFields.SortInPlace | internal/cron/cron.go:225-231 | the in-place insertion sort: same values, ascending |
| CronFields.NormalizeWeekdays | internal/cron/cron.go:70-82 | the in-place compaction keeps every weekday, with 7 as 0 |
| CronFields.Parse | internal/cron/cron.go:43-93 | five fields parse exactly when each is accepted; the schedule is valid if and only if every step fits, and then means what they list |

## Left out

- HTTP handlers, tokens, TLS, request retries and pagination: a call succeeds, conflicts, fails or loses its reply.
- JSON, RFC 3339 and regular expressions: annotations are absent, corrupt or parsed; menu lines come classified.
- Signature checks, downloads, decompression and hashing: a verified image and index are given or not.
- Mounts, device discovery, locks and free-space calls: their answers are inputs.
- The syslinux and Raspberry Pi editors, and the dry-run report.
- Disruption-budget selectors and the effect of evictions: `blocked` and `evictable` are given; a terminating pod is not evictable, so nothing says that no pod remains at the reboot.
- Events, logs, rate-limit flags, configuration parsing, the command line, the installer and migration clean-up.
- Named schedules, `@every` parsing and `@<seconds>`: the parsed interval is taken to be positive, which for `@<seconds>` needs a count below 2^63 / 10^9.
- Reading numbers and names in a cron field: the elements come tokenised.
- That every controller cordon is lifted in the end: the code does not promise it.
- The engine's cycle around the features: its gate is `Leader()` at the moment it asks, and a sync that reported leadership.
- Count bounds when leadership changes hands in mid-cycle: re-checking the lease before a write to another object is not a fence.
- RebootEvidence.CompletionRestsOnItsOwnRecord: the list behind a sighting is no older than the record it shows, but may be older than a second attempt's record; strictly later than the latter is only the leader's clock, as in the code, which samples it after listing.
- Cron.WindowsOpen: says nothing exact for a grace over 366 days, where a leap-day schedule may be missed.
- Purge.PlanIsSafe: what is newest is said for versions that are numbers of 64 bits; a longer one compares as newer than none and older than none, so the comparison is no order and the library sort's result is not determined.
- Purge.KeptIsAmongNewest: the exact count, for distinct versions; between equal numbers the library sort may put either first, and `Purge.KeptRanks` gives the bounds.
- Purge.KeptRanks: for versions that are numbers of 64 bits, as `Purge.PlanIsSafe`.
- Grub.PointAtKeepsEntries: the new entry is taken to read back as it was written, as names free of blanks and quotes do. Every caller sets the path of a stored name (staging.go:258, bootstore.go:227, cmd/nodectl/boot.go:103, cmd/nodectl/update.go:183), and those are free of them (`Staging.TargetNames`); other paths are not covered.
- Grub.PointAtIsIdempotent: likewise.
- GrubPrune.PruneKeepsDefaultExactly: a default shared by two entries, or set only inside a block that goes, is not covered.
- Schedules outside `Cron.Valid`: a field whose step wraps gives none, and the laws of the scans do not speak of it.
- Store.NodeStore.PatchTransition: other writers act between calls, not inside one.
- BootGoal.Updater.RunLocal: edits of the partition by others during a cycle are not modelled; a staged file cut short counts as there, as it does for the code.
