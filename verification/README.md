# Verification of the volume reconciler

This project models, in Dafny, the controllers of a replicated block-storage operator and proves what
they keep. A volume has one engine, which mirrors its data over replicas on different nodes. Three
controllers share the stored objects: the volume controller creates, scales and heals the list of
attached replicas; the replica controller provisions each replica and records its endpoint; the engine
controller fills those endpoints into the list, starts the engine's pod and has the pod's sidecar follow
later changes. A fourth controller takes snapshots. The dashboard is a second writer of the list.

How it is built:

- Each controller is a class whose fields are the stored objects. Its methods have the loops, branches
  and in-place updates of the code, and each is proved to have exactly the effect of a function on the
  stored state. The theorems are about these functions and about runs of them.
- A pass of the volume controller is the sequence of writes it issues (`Plan.dfy`). A pass that crashes,
  or whose write is refused, has issued a prefix of it. `Cluster.dfy` proves that the methods issue
  exactly this sequence; everything said about a pass "cut off anywhere" rests on that.
- The other controllers issue few writes, so a pass takes one flag per call; a crash is a call that fails.
- Runs interleave passes with everything else: nodes, replicas and pods change in any way, the user
  changes the replica count or deletes a replica, the engine is lost. One writer is not among these
  steps: the dashboard's restore handler, which clears the volume's status and sets its snapshot source.

| file | content |
|---|---|
| `Names.dfy`, `Decimal.dfy`, `Types.dfy`, `Nodes.dfy` | names and numbers, stored objects, node choice |
| `Plan.dfy`, `Cluster.dfy` | the volume controller: writes of a pass, and the class that issues them |
| `Scale.dfy`, `Passes.dfy`, `Runs.dfy` | effects of scaling, what a cut pass can do to the list, runs |
| `Placement.dfy`, `ObjectNodes.dfy` | on which nodes attachments are, and on which their objects |
| `RoundTrip.dfy`, `Invariants.dfy` | order of the list, names and length over runs |
| `Created.dfy`, `Outcomes.dfy` | what passes make, what they answer, the phase and health on record |
| `Healing.dfy`, `Restarts.dfy` | what healing may touch, the restart budget |
| `Reference.dfy`, `Tiers.dfy` | how a volume stands, and exactly when a pass restarts, deletes and detaches |
| `CrashRetry.dfy`, `Convergence.dfy`, `Recovery.dfy` | retry after a crash, convergence and its limits |
| `ReplicaController.dfy`, `EngineController.dfy` | the two controllers |
| `EnginePasses.dfy`, `EngineRuns.dfy` | what a pass of the engine controller stores; endpoints and the hash gate in runs |
| `Sidecar.dfy`, `Mirror.dfy` | the storage stack and the change of mirror members |
| `Snapshots.dfy`, `SnapshotPasses.dfy`, `SnapshotFiles.dfy` | the life of a snapshot, what a pass stores and sends, its file |

`dafny verify dfyconfig.toml` checks the whole project.

Assumptions: a pass of the volume controller sees one listing of nodes and pods; each write is atomic; time is in whole seconds;
splitting an endpoint is an unknown partial function; the hash of a replica list is an unknown function,
collision-free where a theorem says so. Theorems about naming assume nothing about the volume name.

Properties one might expect and that do not hold are stated as theorems about where they end:

- Two attached replicas can have their objects, and so one data file, on one node
  (`ObjectNodes.RecreationRun`, `Placement.LeftoverSharesANode`); they do not if every create finds no
  object, or one on its node (`ObjectNodes.ObjectsOnDistinctNodes`).
- A scale down after a heal can delete an attached replica (`RoundTrip.MiddleHealBreaksOrder`,
  `RoundTrip.ScaleDownDeletesDetached`), and the volume may then be stuck for good
  (`Recovery.WhenVolumesConverge`, `Recovery.StuckForGood`).
- A restarted replica is deleted by the next pass if its new pod has no address yet, or at once if the
  restart was the fifth (`Tiers.RestartThenDelete`). The comment on `healReplicas` lists three tiers and
  leaves the first of these out.
- With a local replica attached no other one is ever repaired (`Tiers.LocalBlocksHealing`), and a volume
  whose engine and objects are Running is not healed at all (`Tiers.ReadyIsNotHealed`).
- A running remote replica gets a new endpoint only if a pod gets its address in the middle of a pass
  (`ReplicaController.WhenAnEndpointChanges`, `ReplicaController.EndpointsAreNotRefreshed`).
- An engine stays Running when its pod is not ready; the code sets another phase but never stores it
  (`EngineRuns.WhenRunningEnds`, `EngineRuns.UnreadyStaysRunning`).
- The hash gate needs the status write after a reconfigure (`EngineRuns.LostStatusHidesAChange`).
- Members of the mirror are named by position, so a heal leaves the new replica unconnected
  (`Mirror.MiddleRemoval`); and since an attached device is named after its controller plus `n1`
  while the diff looks for the bare controller name, a change with a remote replica never succeeds on a
  stack that was set up with these names (`Mirror.SetupLeaves`, `Mirror.StuckForGood`).
- A snapshot file can be forgotten (`Snapshots.ForgottenFile`), and a partial one can pass for a success
  (`SnapshotFiles.FailureMayFreezeAFile`).

## Model

| member | source | states |
|---|---|---|
| VolumeController.Cluster.Reconcile | internal/controller/volume_controller.go:24-125 | one pass issues exactly the writes of `PassPlan`, in order, or the prefix that the store accepts before it fails; the answer (error, done, requeue after so many seconds) is `PassOutcome`; what these mean for the stored objects is said by the `Outcomes`, `Created` and `Tiers` rows |
| VolumeController.Cluster.EnsureChildren | internal/controller/volume_controller.go:127-172 | creates the replica objects of a new volume in index order, then the engine with all of them attached; a failing write stops it; what is in them is said by `Created.ObjectsAreAsOrdered` and `Created.FirstPassAttaches` |
| VolumeController.Cluster.ScaleUp | internal/controller/volume_scale.go:14-72 | the loops over used indices and nodes allocate exactly the least free indices and unused nodes, create each object, and attach all of them with one engine write; what is in them is said by `Created.ObjectsAreAsOrdered` and `Created.ScaleUpAppends` |
| VolumeController.Cluster.ScanUsed | internal/controller/volume_scale.go:16-26 | the scan collects exactly the attached nodes and, below the bound, exactly the attached indices |
| VolumeController.Cluster.NextIndex | internal/controller/volume_scale.go:30-32 | the inner search ends, at the least index from the start on that is not used |
| VolumeController.Cluster.ScaleDown | internal/controller/volume_scale.go:74-91 | deletes the objects with indices desired to current - 1, then cuts the list to its first part with one engine write |
| VolumeController.Cluster.EnsureScale | internal/controller/volume_controller.go:174-188 | does nothing at the target, else exactly a scale up or a scale down |
| VolumeController.Cluster.HealingBackoff | internal/controller/volume_heal.go:17-27 | the doubling loop yields 30 * 2^attempts seconds, and exhaustion from five attempts on |
| VolumeController.Cluster.FindExistingHealth | internal/controller/volume_heal.go:227-234 | finds the first record of that name, else a blank one |
| VolumeController.Cluster.GetReplicaPod | internal/controller/volume_heal.go:214-225 | the scan of the pod listing, in whatever order the pods are listed, finds the pod of that replica exactly if it is there and has an address |
| VolumeController.Cluster.ObserveReplicas | internal/controller/volume_heal.go:41-93 | the first loop rebuilds one health entry per attachment, restart record carried over by name, and counts exactly the healthy replicas |
| VolumeController.Cluster.HealReplicas | internal/controller/volume_heal.go:34-212 | issues exactly the heal plan: nothing but a status below the guard, else the first repair due, else a status; reports whether it repaired and the shortest remaining cooldown; exactly when it restarts, deletes and detaches is said by the `Tiers` rows |
| VolumeController.Cluster.Repair | internal/controller/volume_heal.go:113-192 | each of the three repairs issues its writes in order (object or pod delete, engine update, status) and stops at the first that fails |
| VolumeController.Cluster.CheckChildrenReady | internal/controller/volume_controller.go:197-215 | the scan answers whether the engine is running and every attached object exists and is running |
| VolumeController.Cluster.CorrectTypes | internal/controller/volume_controller.go:83-98 | writes exactly the objects whose type does not match the node of their attachment |
| VolumeController.Cluster.DashboardDelete | internal/dashboard/handler.go:271-298 | the second writer: deletes the object, then filters its name out of the list; the update is skipped if nothing was filtered |
| Nodes.ReplicasForVolume | internal/controller/volume_nodes.go:50-75 | the target: the fixed count, or the number of workers, of all nodes if there is no worker, and at least one |
| Nodes.TargetCounts | internal/controller/volume_nodes.go:50-75 | an automatic count is the number of listed workers, of nodes if there is no worker, and one if there is no node; a fixed count is what it says |
| Nodes.PickUnusedNode | internal/controller/volume_nodes.go:12-31 | the first worker that is not used, else the first worker, else no name at all |
| Nodes.PickAnyWorkerNode | internal/controller/volume_nodes.go:33-48 | the first worker, else the first node, else an error |
| Nodes.PickedNode | internal/controller/volume_nodes.go:12-48 | both scans by position: the first unused worker, else the first worker, else none; and the first worker, else the first node |
| Nodes.PickWorkerNodes | internal/controller/volume_nodes.go:77-98 | the first n of the worker names in byte order, all nodes standing in if there is no worker |
| Nodes.SortedInOrder | internal/controller/volume_nodes.go:93 | sorting puts the names in byte order |
| Nodes.FirstWorkersDistinct | internal/controller/volume_nodes.go:77-98 | with distinct node names the nodes picked for a new volume are pairwise distinct |
| Nodes.WorkersCounted | internal/controller/volume_nodes.go:62-67 | the counting loop counts each worker once: the worker names are as many as the set of workers |
| Types.PrintedCountReadsBack | api/v1alpha1/volume_types.go:56-65 | a printed count is parsed back to itself exactly when it is positive and fits an int |
| Types.SignedCounts | api/v1alpha1/volume_types.go:56-65 | a plus sign changes nothing and a minus sign is refused |
| Scale.CreatesEffect | internal/controller/volume_controller.go:190-195 | a run of creates leaves every existing object as it is and adds the missing ones, the first of a name winning |
| Scale.ScaleUpEffect | internal/controller/volume_scale.go:28-71 | the whole state after an uninterrupted scale up |
| Scale.ScaleDownEffect | internal/controller/volume_scale.go:75-90 | the whole state after an uninterrupted scale down |
| Scale.CreateEffect | internal/controller/volume_controller.go:46-60 | the whole state after an uninterrupted first pass |
| Created.ObjectsAreAsOrdered | internal/controller/volume_controller.go:131-153 | every object a pass adds, wherever it is cut off, has the volume's name, size, data path and snapshot source, sits on the volume's node if there is a source, is local exactly on that node, and has no status |
| Created.SettledNode | internal/controller/volume_nodes.go:33-48 | the node settled on: the volume's own, else the first worker, else the first node |
| Created.FirstPassAttaches | internal/controller/volume_controller.go:131-170 | a whole first pass attaches replica-0, replica-1 and so on, blank, on the picked nodes in the order of their names or on the volume's node if it restores a snapshot, and makes an engine on the volume's node |
| Created.ScaleUpAppends | internal/controller/volume_scale.go:28-65 | a whole scale up appends blank attachments: each with the least index not taken, on the node picked next to those taken, or on the volume's if it has a snapshot source |
| Created.ScaleUpObjects | internal/controller/volume_scale.go:44-60 | its objects are those of before, in their place and with their status, and one for each name appended |
| Created.ScaleDownCuts | internal/controller/volume_scale.go:75-84 | a whole scale down cuts the list to its first part and takes away exactly the objects with the indices of the positions cut off |
| Created.DashboardEffect | internal/dashboard/handler.go:275-298 | a whole dashboard delete takes away the object and exactly the attachments of that name |
| Scale.FreshIndices | internal/controller/volume_scale.go:16-65 | although attached names are looked for only below desired + 10, no allocated name is attached: allocated indices ascend, are below desired, and skip only attached ones |
| Scale.ScaleUpKeepsNames | internal/controller/volume_scale.go:61-66 | the old list is a prefix of the new one, the new length is exactly desired, and distinct names stay distinct |
| Passes.ListIsAtomic | internal/controller/volume_controller.go:83-122 | a pass over an existing engine, cut off anywhere, leaves the old list or the one new list of that pass, nothing in between |
| Passes.OtherPasses | internal/controller/volume_controller.go:33-81 | any other pass changes the engine only by creating the first one |
| Passes.HealingIgnoresTypes | internal/controller/volume_controller.go:91-95 | correcting types changes neither who is healthy nor what healing decides |
| CrashRetry.TypePlanGetsTypesRight | internal/controller/volume_controller.go:83-98 | after the corrections every attached object there is has the type its attachment calls for |
| Placement.ScaleUpPlacement | internal/controller/volume_scale.go:33-37 | a scale up keeps the attachments on pairwise distinct nodes if and only if there was room: enough unused workers, or a single replica whose one place is free |
| Placement.AutomaticCountHasRoom | internal/controller/volume_nodes.go:25-30 | pigeonhole: with an automatic count and at least one worker there is always room |
| Placement.PlacementOverRuns | internal/controller/volume_scale.go:14-72 | in every reachable state the attachments are on pairwise distinct nodes, for an automatic count without snapshot source, under any mix of passes cut off anywhere, user deletes, engine loss and node changes, if every pass that scales up sees a worker; where the objects are is said by the `ObjectNodes` rows |
| Placement.ScaleUpAgreement | internal/controller/volume_scale.go:58-64 | attachments and objects agree on the node after a scale up if and only if no leftover object of an allocated name sits elsewhere, because a create keeps an existing object |
| ObjectNodes.CreateAgreement | internal/controller/volume_controller.go:131-171 | the same for a whole first pass: with no engine there, if and only if no leftover object of a created name sits elsewhere; with one there, if and only if no object really created is of a replica attached elsewhere |
| ObjectNodes.PassKeepsAgreement | internal/controller/volume_controller.go:190-195 | a pass cut off anywhere keeps attachments and objects in agreement if each create it issues finds no object of its name, or one on its node, and none is for a replica attached elsewhere |
| ObjectNodes.AgreementOverRuns | internal/controller/volume_controller.go:190-195 | so if this holds of all passes of a run, in every reachable state each attached object sits on the node of its attachment |
| ObjectNodes.ObjectsOnDistinctNodes | internal/names/names.go:28 | and with an automatic count the objects, and with them the data files, are on pairwise distinct nodes |
| ObjectNodes.RecreationSharesANode | internal/controller/volume_controller.go:131-171 | how a first pass fails it: the object of one replica is kept on the node that another is created on, while their attachments are on different nodes |
| ObjectNodes.RecreationRun | internal/controller/volume_controller.go:73-79 | that is reachable by whole passes, without scaling or healing: a node joins, the engine is lost, forgotten and created again |
| Placement.LeftoverSharesANode | internal/controller/volume_scale.go:33-64 | how a scale up fails it: cut off after one create, and resumed after a node change, it puts the objects of two attached replicas on one node, with one data file, while their attachments are on different nodes |
| RoundTrip.OrderOverRuns | internal/controller/volume_scale.go:28-85 | in every run of whole passes that heal nothing, the list is replica-0, replica-1 and so on in order and equals the set of existing objects |
| RoundTrip.UpThenDown | internal/controller/volume_scale.go:14-91 | scaling up and back down restores the list, every object and everything else but the phase |
| RoundTrip.ScaleDownDeletesDetached | internal/controller/volume_scale.go:75-84 | a scale down deletes exactly the objects it detaches if and only if the tail of the list holds just the indices it deletes |
| RoundTrip.MiddleHealBreaksOrder | internal/controller/volume_heal.go:236-238 | a heal in the middle of three replicas and a scale up leave an order in which the next scale down deletes the object of a replica that stays attached and keeps that of the detached one |
| Healing.HealthyIsNotRepaired | internal/controller/volume_heal.go:95-109 | a repair hits an unhealthy replica only, and only while at least desired - 1 are healthy |
| Healing.RepairedIsAlone | internal/controller/volume_heal.go:95-109 | at the target length the repaired replica is the only unhealthy one |
| Healing.PassKeepsHealthy | internal/controller/volume_heal.go:109-203 | at the target length a pass, cut off anywhere, leaves every healthy replica attached, with its object, status and pod |
| Healing.PassTouchesOne | internal/controller/volume_heal.go:109-203 | such a pass touches the object, the pod and the attachment of one replica at most |
| Healing.WhenHealingActs | internal/controller/volume_heal.go:167-174 | after a pass that repaired nothing, a later one on the same cluster repairs if and only if the wait of some replica that awaits its restart is over |
| Healing.WishIsShortest | internal/controller/volume_heal.go:195-211 | the requested delay is the least of all cooldowns considered, and there is one whenever something cools down |
| Healing.SleepMissesNothing | internal/controller/volume_heal.go:205-211 | before the requested time nothing would be repaired, and without a request at no time |
| Outcomes.WhenPassesFail | internal/controller/volume_controller.go:33-52 | a pass answers with an error by itself if and only if it needs the count and that does not parse, or a node and there is none |
| Outcomes.WhenPassesComeBack | internal/controller/volume_controller.go:110-122 | it asks to be called again if and only if the volume is at its target, the engine or an object is not running, and no repair is due |
| Outcomes.WhenToComeBack | internal/controller/volume_controller.go:118-121 | namely after the least time left to wait for a replica restarted before, while at most one does not serve, and after five seconds otherwise |
| Outcomes.WhenPassesAreDone | internal/controller/volume_controller.go:33-124 | and it is done otherwise: nothing was to be done, or the pass did what was due |
| Outcomes.SleepingMissesNothing | internal/controller/volume_controller.go:118-121 | before the seconds a pass answered with are over, another pass on the state it left changes neither list nor objects nor pods |
| Outcomes.PhaseAfterPass | internal/controller/volume_controller.go:57-78 | the phase a whole pass leaves on record, and whether an engine is on record, from the stored objects |
| Outcomes.HealthAfterPass | internal/controller/volume_heal.go:44-93 | the health a whole healing pass leaves on record: one entry per attachment, in order, with the phase seen and the restarts |
| Reference.Decision | internal/controller/volume_heal.go:109-203 | exactly when an attached replica is due to be detached, deleted or restarted, from the stored objects, with 30, 60, 120, 240 and 480 seconds to wait after the restarts |
| Reference.RecordIsFirst | internal/controller/volume_heal.go:227-234 | the restart record of a name is that of its first entry, blank if there is none |
| Tiers.WhenAPodIsRestarted | internal/controller/volume_heal.go:151-192 | a whole pass at the target length deletes the pod of an attached replica if and only if the engine or an object is not running, all others serve, and this one has a pod with an address, does not serve, has fewer than five restarts on record, and was not restarted before or has waited long enough; then the restart is recorded |
| Tiers.WhenAnObjectIsDeleted | internal/controller/volume_heal.go:95-165 | it deletes the object if and only if the engine or an object is not running, all others serve, and this one is beyond a restart: it ran and its pod is gone, or its pod is there, it does not serve and its five restarts are used up |
| Tiers.WhenAReplicaIsDetached | internal/controller/volume_heal.go:113-165 | it detaches a replica if and only if the same holds or its object is missing, and then detaches no other |
| Tiers.RestartThenDelete | internal/controller/volume_heal.go:125-192 | for every state that differs from the one after a restart in pods, engine phase and clock only, exactly when the next pass deletes the restarted replica; the backoff plays no part in it |
| Tiers.OnlyLocalIsRepaired | internal/controller/volume_heal.go:76 | with a settled local replica attached, no other replica is repaired |
| Tiers.LocalBlocksHealing | internal/controller/volume_heal.go:76-105 | so in every run, as long as it stays attached, passes at the target length leave object, pod and attachment of every other replica alone |
| Tiers.ReadyIsNotHealed | internal/controller/volume_controller.go:110-122 | as long as the engine and the attached objects are Running, no pass at the target length heals anything, whatever the pods are like |
| Restarts.OnlyRestartsDeletePods | internal/controller/volume_heal.go:176-192 | a pass deletes a replica pod only as a restart of that replica |
| Restarts.PassAndRecord | internal/controller/volume_heal.go:52-54 | a completed restart raises the record of that name by one from below five, sets the time, and comes no earlier than the backoff; every other pass leaves the record of an attached name alone |
| Restarts.RestartBudget | internal/controller/volume_heal.go:151-192 | while a name stays attached its count never decreases, at most five restarts are recorded, and recorded restart k + 1 comes at least 30 * 2^k seconds after recorded restart k |
| Restarts.EveryRestartIsInBudget | internal/controller/volume_heal.go:176-192 | any other restart is by a pass cut off between the pod delete and the status write, and it too finds fewer than five recorded and waits for the backoff after the last one recorded |
| Restarts.FiveRestartsTakeFifteenMinutes | internal/controller/volume_heal.go:17-27 | the first and the fifth recorded restart are at least 900 seconds apart |
| Invariants.NamesOverRuns | internal/controller/volume_scale.go:28-65 | in every reachable state the attached names are distinct replica names of the volume with indices below the largest target of the run |
| Invariants.AttachedNamesFit | internal/dashboard/handler.go:559-571 | if the dashboard accepts a volume name, every name ever attached fits while the target stays at most 1000 |
| Invariants.GeneratedNamesFit | internal/dashboard/handler.go:559-571 | and so does the name of every object a pass creates, attached later or not |
| Invariants.HealingDoesNotCompound | internal/controller/volume_controller.go:100-122 | with a fixed target, no user delete and no engine loss, a run that starts at the target stays within one of it |
| Invariants.OneShortIsRefilled | internal/controller/volume_controller.go:104-109 | a whole pass that finds another length than the target ends at the target |
| CrashRetry.ScalingIsRetried | internal/controller/volume_scale.go:28-90 | a scaling pass cut off anywhere before its engine write is completed by the next pass to the very state of an uninterrupted one; cut off later it is there already |
| CrashRetry.CreationIsRetried | internal/controller/volume_controller.go:33-60 | a first pass cut off anywhere is completed to the very state of an uninterrupted one |
| CrashRetry.HealingDeleteIsRetried | internal/controller/volume_heal.go:113-165 | a healing delete cut off anywhere and repeated at any later time ends with the same attachments, objects and pods |
| CrashRetry.HalfDeletedIsFinished | internal/controller/volume_heal.go:114-122 | in particular a heal that deleted the object but not the attachment is finished by the missing case |
| Convergence.RoundDecreases | internal/controller/volume_controller.go:33-124 | with nodes and target fixed and everything that exists brought to running, each round strictly decreases the number of rounds left, if a scale down that is due deletes no object that stays attached |
| Convergence.DoneIsFixpoint | internal/controller/volume_controller.go:67-72 | no rounds are left if and only if the list has the target length, the types are right and the phase is Ready, and then a pass writes nothing |
| Convergence.SixRoundsConverge | internal/controller/volume_controller.go:24-125 | then six rounds suffice |
| Recovery.WhenVolumesConverge | internal/controller/volume_controller.go:24-125 | without that condition: rounds bring a volume to its target, ready and with the right types, only if a scale down that is due deletes no object that stays attached, or a single one while all others that stay are healthy; and then eight rounds always do |
| Recovery.StuckForGood | internal/controller/volume_heal.go:95-105 | otherwise it ends below the guard of healing, and list, objects and pods stay as they are for good |
| Names.ReplicaNameInjective | internal/names/names.go:26 | replica names are injective in volume and index |
| Names.ReplicaNQNInjective | internal/names/names.go:36-38 | replica NQNs are injective in volume and index |
| Names.IndexReadsBack | internal/controller/podtemplates.go:56-63 | the pod of a replica is given the index its name was printed from |
| Names.EventReachesItsEngine | internal/controller/engine_controller.go:180-204 | the scheduling event of a replica pod wakes the engine of its volume v if and only if v followed by a dash does not contain the infix |
| Names.WhenEventsWake | internal/controller/engine_controller.go:180-196 | an event wakes an engine at all if and only if it is the scheduling of a pod whose name has the infix and ends like a pod name |
| Names.SamplesDecide | internal/dashboard/handler.go:559-571 | the four sample indices decide for all indices below 1000 |
| Names.ThousandthNameMayOverflow | internal/dashboard/handler.go:564 | and not for index 1000: an accepted name of 237 characters has a pod name that is too long |
| Names.SnapshotPathsDistinct | internal/names/names.go:28-32 | snapshot paths are injective in the ID and never the path of the data file |
| ReplicaController.Controller.Reconcile | internal/controller/replica_controller.go:30-112 | one pass has exactly the effect of `ReplicaPass` on the object and the pod, for every combination of failing calls and whatever happens to the pod between the two reads of it |
| ReplicaController.EndpointsOverRuns | internal/controller/replica_controller.go:93-106 | in every run the NQN and the endpoint are both empty or both valid as the sidecar checks define it, and empty before Running |
| ReplicaController.WhenAnEndpointChanges | internal/controller/replica_controller.go:38-95 | a pass changes the endpoint of a running remote replica if and only if its first look at the pod shows no address, the second read shows a pod with one, and the sidecar reports another valid endpoint |
| ReplicaController.EndpointsAreNotRefreshed | internal/controller/replica_controller.go:38-43 | so a running remote replica keeps its first endpoint for as long as it stays remote, however often its pod is replaced, unless a pod gets its address between the two reads of a pass |
| ReplicaController.RemoteIsRecorded | internal/controller/replica_controller.go:69-111 | a pass on any other remote replica records exactly what a valid report says, if and only if every call succeeds and the pod has an address at the second read; otherwise the object stays as it was, and while the pod does not answer the pass comes back in two seconds |
| ReplicaController.LocalIsRecorded | internal/controller/replica_controller.go:96-111 | a pass on a local replica completes if and only if the backing file is made, the pod seen, if any, is deleted and the status is stored; it then records Running without an endpoint |
| ReplicaController.LocalIsNeverHealthy | internal/controller/replica_controller.go:96-106 | after a completed pass on a local replica its pod is gone and no healing pass counts it as healthy |
| EngineController.Controller.Reconcile | internal/controller/engine_controller.go:40-123 | one pass has exactly the effect of `EnginePass`: fill in the list, start or forget the pod, pass the hash gate, store the status; what that is on the stored objects is said by the `EnginePasses` rows |
| EngineController.Controller.FillIn | internal/controller/engine_controller.go:125-170 | the loop fills in the slice in place up to an attachment that stops it, and reports a change exactly if there was one |
| EngineController.Controller.PodInfo | internal/controller/nodes.go:25-44 | a pod is ready if and only if it has an address and at least one container and all containers are ready |
| EngineRuns.FilledMatches | internal/controller/engine_controller.go:128-163 | a list counts as ready if and only if every attachment agrees with its running replica in locality, NQN and endpoint and every read succeeded; names and nodes are never changed |
| EngineRuns.FillIsIdempotent | internal/controller/engine_controller.go:135-168 | filling in a list again changes nothing, so a steady list is not written again |
| EnginePasses.EntryAfterFill | internal/controller/engine_controller.go:134-162 | an entry of a filled-in list: locality as its replica's node has it, endpoint as the replica has it if that is remote and ready, and as it was otherwise |
| EnginePasses.ListAfterPass | internal/controller/engine_controller.go:164-168 | the stored list after a pass is the filled-in one, unless an attachment stopped the filling or it cannot be stored |
| EnginePasses.PodAfterPass | internal/controller/engine_controller.go:53-65 | a pod is started with the filled-in list if and only if all is set, none is on record and none is there; and exactly when the sidecar gets a new list |
| EnginePasses.StatusAfterPass | internal/controller/engine_controller.go:65-111 | the status after a pass, from the stored objects and the calls |
| EnginePasses.AnswerOfPass | internal/controller/engine_controller.go:48-122 | the answer of a pass: done, an error, or again in two or in five seconds |
| EnginePasses.StoredEndpoint | internal/controller/engine_controller.go:98-99 | endpoint and subsystem stored are those just reported, if the pass stores Running or Degraded, and those of before in every other pass |
| EnginePasses.EndpointIsLastReported | internal/controller/engine_controller.go:95-122 | in every run an engine has the endpoint and the subsystem last reported to a pass that stored them |
| EnginePasses.RunningWasReported | internal/controller/engine_controller.go:95-122 | and a Running engine has one that a sidecar reported |
| EngineRuns.StartedListIsComplete | internal/controller/engine_controller.go:53-69 | in every run of engine passes, replica passes and everything around them, a started pod has a list whose remote entries all carry NQN and address |
| EngineRuns.EveryReplicaIsAttempted | internal/sidecar/engine.go:48-103 | so the setup in that pod tries every remote replica of its list, and if no other call fails it exports raid0 if and only if one of them attached within five attempts, and aio0 otherwise |
| EngineRuns.RunningAgrees | internal/controller/engine_controller.go:101-112 | a pass that stores Running leaves the sidecar with the engine's list if and only if it reconfigured or the sidecar had that list; every other pass leaves the stored hash alone |
| EngineRuns.HashGateOverRuns | internal/controller/engine_controller.go:101-112 | in an orderly run, whenever Running is stored the sidecar works with the engine's list |
| EngineRuns.LostStatusHidesAChange | internal/controller/engine_controller.go:110-122 | without a stored status after a reconfigure this fails: the list changes and changes back, and Running is stored while the sidecar works with the list in between |
| EngineRuns.PublishedOverRuns | internal/controller/engine_controller.go:95-111 | in every run, whenever an engine is stored as Running its endpoint and its subsystem NQN are valid |
| EngineRuns.WhenRunningEnds | internal/controller/engine_controller.go:53-108 | a pass takes a Running engine out of Running if and only if every replica is ready, list and status can be stored, and no pod is on record, or the pod is gone or cannot be read, or a reconfigure is due and not accepted |
| EngineRuns.UnreadyStaysRunning | internal/controller/engine_controller.go:71-86 | so an engine stays Running, pod and sidecar list untouched, although a replica is not ready or its own pod is not ready or does not answer |
| Sidecar.Engine.Configure | internal/sidecar/engine.go:39-105 | builds the stack: attaches what can be attached, mirrors what attached, exports raid0 or, if nothing attached, aio0 step by step; a failing call leaves exactly what was built so far |
| Sidecar.Engine.Export | internal/sidecar/engine.go:91-103 | subsystem, namespace and listener in order, up to the first that fails |
| Sidecar.Engine.AttachWithRetries | internal/sidecar/reconfigure.go:108-126 | at most five attempts, up to the first that succeeds |
| Sidecar.Engine.Reconfigure | internal/sidecar/reconfigure.go:46-142 | removes stale members by old position, adds missing ones by new position, and records the list only on success |
| Sidecar.ControllerNameInjective | internal/sidecar/reconfigure.go:97 | positions name controllers one for one |
| Mirror.SetupAttempts | internal/sidecar/engine.go:48-88 | setup tries exactly the remote replicas with NQN and address, and there is a mirror if and only if one attached |
| Mirror.SetupTries | internal/sidecar/engine.go:50-79 | setup goes through the list in order and tries each remote replica with NQN and address until one attempt succeeds, at most five times, and no other |
| Mirror.SetupConnects | internal/sidecar/engine.go:65-90 | the controllers left are those of the replicas that attached, each at its NQN, address and port; the mirror is of the local device and the devices of those |
| Mirror.SetupExports | internal/sidecar/engine.go:81-103 | clients reach raid0 if and only if some remote replica with NQN and address attached within five attempts, and aio0 otherwise, if no other call fails |
| Mirror.SetupLeaves | internal/sidecar/engine.go:75-88 | the stack setup leaves is sound if and only if one replica attached, and serves its list if and only if moreover all remote ones did; with devices named after their controller plus n1, or without a mirror, it is stuck |
| Mirror.ExtendTail | internal/sidecar/reconfigure.go:93-139 | extending the list at the tail leaves exactly one correctly connected member per remote replica on success, never a wrong one on failure, and succeeds if and only if every missing replica attaches within five attempts and can be added |
| Mirror.RetriesReachTheSameMirror | internal/sidecar/reconfigure.go:108-136 | any number of failed calls and then a successful one with the same list reach that same mirror |
| Mirror.ServingExtends | internal/sidecar/reconfigure.go:93-139 | from a mirror that serves its list, that leads to one that serves the longer list |
| Mirror.TruncateTail | internal/sidecar/reconfigure.go:51-139 | truncating at the tail, whatever fails: it succeeds if and only if the mirror can be asked or every remaining remote replica attaches and can be added, and then leaves a mirror of the shorter list if and only if for every remote replica cut off the mirror could be asked and the removal or the detach succeeded |
| Mirror.ReconfigureServes | internal/sidecar/reconfigure.go:68-139 | without a failing call, any change of the list ends in a mirror of the new list if and only if every remote replica stays at its position with its peer or leaves together with its position |
| Mirror.MiddleRemoval | internal/sidecar/reconfigure.go:72-100 | a removal in the middle followed by an append succeeds and leaves the removed position unserved and the new replica connected to nothing |
| Mirror.StuckForGood | internal/spdk/client.go:66-94 | if devices are named after their controller plus n1, or there is no mirror, a change succeeds if and only if the new list is all local, and so does every later one |
| Snapshots.Controller.Reconcile | internal/controller/snapshot_controller.go:43-68 | one pass has exactly the effect of `SnapshotPass` on the object and on the requests sent |
| Snapshots.Controller.PollCreate | internal/controller/snapshot_controller.go:84-131 | sends the request once the engine pod has an address, and stores Ready with the reported path and size, Failed, or nothing |
| Snapshots.Controller.ReconcileDelete | internal/controller/snapshot_controller.go:133-147 | asks an agent for the delete if a path and a node are recorded, then takes the finalizer off |
| Snapshots.Controller.RemoveString | internal/controller/snapshot_controller.go:176-184 | the loop removes every occurrence of the one string and nothing else |
| SnapshotPasses.StatusAfterPass | internal/controller/snapshot_controller.go:58-131 | the status after a pass: the phase moves as due if it can be stored, the engine's node is recorded on the way to Creating, path, size and time on the way to Ready, and nothing else changes |
| SnapshotPasses.SentByPass | internal/controller/snapshot_controller.go:89-138 | the request for the file is sent if and only if an active snapshot is being created and the sidecar can be asked; the delete if and only if the snapshot is being deleted, path and node are recorded and there is an agent |
| SnapshotPasses.GoneAfterPass | internal/controller/snapshot_controller.go:140-146 | the snapshot is gone if and only if it was being deleted and its last finalizer was taken off |
| SnapshotPasses.FinalizersAfterPass | internal/controller/snapshot_controller.go:51-57 | exactly when the finalizer is set after a pass; all others stay |
| SnapshotPasses.AnswerOfPass | internal/controller/snapshot_controller.go:43-68 | the answer of a pass: done, an error, or again in two seconds |
| SnapshotPasses.NodeIsTheEngines | internal/controller/snapshot_controller.go:78 | in every run the node of a snapshot in phase Creating or Ready is that of the engine as found by the pass that started it |
| SnapshotPasses.ReadyHasItsAnswer | internal/controller/snapshot_controller.go:114-128 | in every run path and size of a snapshot in phase Ready are those the sidecar answered with |
| Snapshots.PhasesMoveForward | internal/controller/snapshot_controller.go:58-67 | in every run phases only move forward; Ready and Failed are final |
| Snapshots.CoherentOverRuns | internal/controller/snapshot_controller.go:51-57 | in every run the snapshot is ready to use if and only if its phase is Ready, a path is recorded only then, and while it is not being deleted the finalizer is set if any request was sent |
| Snapshots.FilesNeedTheFinalizer | internal/controller/snapshot_controller.go:51-66 | a file is asked for only in phase Creating, with the finalizer set and no deletion under way |
| Snapshots.DroppedAfterDelete | internal/controller/snapshot_controller.go:133-145 | the finalizer is dropped only on a snapshot being deleted, by a pass that first sent the delete if and only if it knows path and node and has an agent |
| Snapshots.OnlyRecordedFilesAreDeleted | internal/controller/snapshot_controller.go:134-138 | whatever an agent was asked to delete had been recorded by the snapshot in phase Ready |
| Snapshots.ForgottenFile | internal/controller/snapshot_controller.go:99-131 | a file whose answer was not stored is forgotten: the snapshot is deleted without a delete request |
| SnapshotFiles.Snapshotter.CreateSnapshot | internal/sidecar/snapshot_linux.go:24-43 | one call has exactly the effect of `Created` on the directory, for every combination of failing system calls |
| SnapshotFiles.Snapshotter.FileOrCopy | internal/reflink/reflink.go:15-34 | clones into a new file, or removes it and copies |
| SnapshotFiles.SnapshotsAreFrozen | internal/sidecar/snapshot_linux.go:33-36 | once a snapshot file exists it keeps its bytes in every run of requests and volume writes, and every successful request reports its path and size |
| SnapshotFiles.SnapshotsAreSeparate | internal/sidecar/snapshot_linux.go:26 | a request for one ID never touches the file of another |
| SnapshotFiles.WhenSnapshotsSucceed | internal/sidecar/snapshot_linux.go:24-43 | exactly when a call succeeds, and the path it then reports |
| SnapshotFiles.FirstReport | internal/sidecar/snapshot_linux.go:28-42 | the first file holds the source as copied; the size reported first equals every later one if and only if the source length did not change between the look and the copy |
| SnapshotFiles.FailureMayFreezeAFile | internal/reflink/reflink.go:27-55 | exactly when a failed call leaves a file, which every later call then reports as a success, and exactly when that file holds the source |

## Left out

- EngineRuns.HashGateOverRuns: assumes that no answer of the sidecar is lost, that the status is stored after a reconfigure, that the first Running sees the list the pod was started with, and that a stored hash outlives neither the engine, its pod nor the sidecar's process; `RunningAgrees` is the exact condition per pass.
- Recovery.WhenVolumesConverge: assumes named nodes, and that other controllers bring whatever exists to Running between two passes and that attached objects exist at the start, because nothing is promised about an engine or replica that never comes up.
- SnapshotFiles.Snapshotter.CreateSnapshot: copies the source at one moment, and takes IDs without slashes as file names; cleaning of joined paths is not modelled.
- Sidecar.Engine.Reconfigure: SPDK is a set of controllers, a set of mirror members and calls that may fail; rebuilding of data in the mirror and the address family of a peer are not modelled.
- Conditions, condition messages and log text. The message of a heal names the neighbour of the removed replica, because the slice was already spliced when it is printed; messages are not part of this model.
- SPDK JSON-RPC, HTTP clients and handlers, the gRPC CSI server, NFS, loop devices, mounts and file system creation: calls that succeed or fail.
- Watch queues, garbage collection by owner references and JSON encoding: passes come at any time, reads and writes are atomic.
- The restore handler of the dashboard and the data content of a restored replica: the agent formats the device after copying.
- The dashboard's annotation patch after a delete: it only wakes the volume controller.
- Several namespaces: the objects are those of one volume in one namespace.
- Failed reads of the volume controller: most end the pass, like one cut off at that point; a listing of nodes or pods that fails, which the code takes for an empty one, is not modelled.
- Network policy resolution, rendering, charts, CRDs and access rules: no hard properties.
