# Kubeocean controllers: a Dafny model

Kubeocean lends the capacity of physical Kubernetes clusters to a virtual cluster: it shows physical
nodes and pods there as virtual nodes and pods, and copies the objects that the pods need in the other
direction. This project models the state and the arithmetic of its controllers and proves what they
keep over whole runs. API servers are maps from names to objects, a reconcile is a step or a sequence
of steps, clocks and random numbers are inputs, and an API call that may fail carries its outcome as
an input. `dafny verify dfyconfig.toml` checks everything.

## Files

| file | what it models |
|---|---|
| `Common.dfy` | results and options, Go's string order, int64 arithmetic, permutations |
| `TimeWindows.dfy` | the leasing policy's time windows as arcs of a 1440-minute circle |
| `NodeMetadata.dfy` | the three-way merge of a virtual node's labels, annotations and taints |
| `GracePeriod.dfy` | the out-of-time-windows taint as the clock of the grace period |
| `NodeDeletion.dfy` | the staged deletion of a virtual node |
| `Ports.dfy` | the hash-probing proxier port allocator |
| `Usage.dfy`, `Limits.dfy`, `Leasing.dfy` | what a node leases: usage, policy limits, and both together |
| `SyncedObjects.dfy` | the marks that clusters put on a shared virtual object, as a reference count |
| `ConfigMapSync.dfy` | the ConfigMap reconcilers of any number of clusters, interleaved with each other, users, restarts and failures |
| `ConfigMapOrphans.dfy` | what keeps those runs free of orphaned copies, and what does not |
| `ConfigMapReconcile.dfy` | one whole ConfigMap reconcile, in place and as a single step |
| `ConfigMapProgress.dfy` | when the deletion of a shared ConfigMap comes to an end |
| `BindingTeardown.dfy` | the teardown of a ClusterBinding by syncer and manager |
| `TeardownGaps.dfy`, `TeardownHandlers.dfy` | runs in which something is left behind; the handlers of both processes |
| `ClusterIds.dfy` | the manager's registry of cluster ids |
| `PodStatus.dfy`, `TokenSecrets.dfy`, `PodMapping.dfy` | status sync, token secrets, and the mutual pointers of physical and virtual pods |
| `HostPorts.dfy` | the canonical host port list and the fake pod that reserves it |
| `TokenCache.dfy` | the service account token cache |

The models follow the code's form. Objects that are changed in place are classes whose methods are
proved equal to functions of the old state (`Ports.PortAllocator`, `NodeMetadata.Node`,
`SyncedObjects.SyncedObject`, and so on). Loops are loops with invariants. The lemmas are about the
functions. Protocols between processes (`ConfigMapSync`, `BindingTeardown`, `NodeDeletion`,
`TokenCache`) are state machines in which every read and write is a step of its own. Their theorems
are about all traces, and the methods beside them are proved to be runs of the machine.

## Assumptions

- Reads return what is stored, and an update against an outdated version is refused.
- Users do not take kubeocean's finalizers or labels off (`ConfigMapSync.KeepsMarks`). They may edit annotations,
  the name annotation included; what follows from that is proved, not assumed away.
- No pod is newly bound to a virtual node that carries the deletion taint (`NodeDeletion`).
- The port cache starts from virtual nodes with distinct port labels. `Ports.InitIsInverseIffPortsDistinct`
  shows that this is exactly what is needed.
- JSON with base64 (section 4 of RFC 4648) is a codec whose decoding undoes its encoding.
- The names that MD5-based generators produce are given.

## Where the code falls short of the property one would expect

Each of these is proved with a concrete input or a family of inputs, together with the condition under
which the property does hold.

- A taint that is no longer wanted stays for good if the taint patch after a successful status update
  fails once, because the stored metadata already says it is not expected
  (`NodeMetadata.StaleTaintRemovedIffPatched`). For the window taint this means that the old grace
  clock runs on through a later stay outside (`GracePeriod.FailedPatchKeepsOldClock`).
- Copies can be orphaned in exactly two ways (`ConfigMapSync.NoOrphansIffSafe`). The top-down pod controller
  creates copies without regard to a deletion under way (`ConfigMapOrphans.PodCreationCanOrphan`,
  `ConfigMapOrphans.PodCreationSafeIff`). And a reconcile looks for its copy under the name that the annotation
  has at the time, so a user who renames the object and deletes it leaves the copy behind
  (`ConfigMapOrphans.RenamingCanOrphan`, `ConfigMapReconcile.PassOrphansIff`).
- A cluster that leaves a shared object takes the name annotation along that the other clusters need
  (`SyncedObjects.LeavingDropsSharedName`). A cluster whose syncer has been restarted meanwhile then does nothing
  until some other holder puts the name back. The deletion can still end exactly if one holder wants the object
  (`ConfigMapProgress.DeletionCanEndIff`), and it ends under every fair schedule exactly if all do
  (`ConfigMapProgress.DeletionAlwaysEndsIff`); a lone holder that finds the name needs neither.
- A teardown that begins before the syncer's finalizer is on leaves everything behind
  (`TeardownGaps.UnguardedTeardownLeavesThings`).
- The teardown looks at one kind after the other, so there need not be any single state with everything gone: a
  virtual node that appears after the first look escapes (`TeardownGaps.LateNodeEscapes`). There is such a state at
  the last look exactly if nothing came after the look at its kind and stayed
  (`BindingTeardown.CleanAtLastLookIff`).
- A binding that was turned down because its id is taken is recorded all the same: it can never get
  another id (`ClusterIds.RejectedBindingIsStuck`), and its deletion frees the id of the owner
  (`ClusterIds.RejectedBindingFreesTheId`, `ClusterIds.DeleteKeepsAgreementIff`). A binding whose id was edited
  before its deletion leaves its first id taken for good (`ClusterIds.EditedBindingLeaksItsId`,
  `ClusterIds.IdFreedIff`).
- The int64 product behind a percentage limit overflows: 100% of 100 TB is negative
  (`Limits.OverflowLeasesNegative`, `Limits.PercentLimitExactIff`). A percentage above 100 leaves nothing
  (`Limits.AboveHundredLeavesNothing`).
- A token that does not say how long it lives is served after it has expired
  (`TokenCache.NeverServedExpiredIff`), and deleting a pod's tokens panics if some cached token is not
  bound to an object (`TokenCache.Manager.DeleteServiceAccountToken`).
- A fake pod that is being deleted still counts as the right one, so a second run can delete the live one
  (`HostPorts.DyingPodWins`, `HostPorts.SecondRunKeepsLiveIff`).
- A window that crosses midnight is compared with the day of the current minute, so the hours after
  midnight belong to the listed day itself (`TimeWindows.OvernightWindowCoversOwnMorning`).

## Model

| member | source | states |
|---|---|---|
| TimeWindows.StringOrderIsMinuteOrder | api/v1beta1/resourceleasingpolicy_types.go:197-232 | on well-formed HH:MM strings the string order is the order of minutes since midnight |
| TimeWindows.ValidTimesAreMinutes | api/v1beta1/resourceleasingpolicy_types.go:197-232 | the well-formed times are exactly the 1440 strings HH:MM, each read as its minute of the day |
| TimeWindows.InRangeIsArc | api/v1beta1/resourceleasingpolicy_types.go:183-194 | the range check is exactly membership in the closed cyclic interval from start to end, and fails for malformed ends |
| TimeWindows.ArcSize | api/v1beta1/resourceleasingpolicy_types.go:183-194 | that interval has ((end - start) mod 1440) + 1 minutes |
| TimeWindows.IsWithinTimeWindows | api/v1beta1/resourceleasingpolicy_types.go:148-178 | true exactly if there is no window, or some well-formed one admits the day and contains the minute |
| TimeWindows.DayAdmittedIff | api/v1beta1/resourceleasingpolicy_types.go:154-178 | a day is admitted exactly if no days are listed or one of them has the same letters, capitals aside |
| TimeWindows.OvernightWindowCoversOwnMorning | api/v1beta1/resourceleasingpolicy_types.go:154-178 | after midnight an overnight window is active exactly if the new day itself is listed |
| NodeMetadata.Merge | pkg/syncer/bottomup/node/physical_node_controller.go:1284-1367 | after a merge the stored annotation decodes to exactly the desired metadata, without itself |
| NodeMetadata.Node.SaveExpectedMetadata | pkg/syncer/bottomup/node/physical_node_controller.go:1340-1355 | what is saved is read back unchanged by the next reconcile, and no other annotation changes |
| NodeMetadata.Node.MergeLabels | pkg/syncer/bottomup/node/physical_node_controller.go:1370-1392 | desired labels plus the existing ones that are neither desired nor formerly expected |
| NodeMetadata.Node.MergeAnnotations | pkg/syncer/bottomup/node/physical_node_controller.go:1395-1421 | the same for annotations, with the first encoding of the expected metadata winning and the deletion marker left out |
| NodeMetadata.Node.MergeTaints | pkg/syncer/bottomup/node/physical_node_controller.go:1424-1460 | desired taints, with the running window clock kept, and the user's own taints |
| NodeMetadata.Node.PreserveUserCustomizations | pkg/syncer/bottomup/node/physical_node_controller.go:1284-1311 | fails exactly on an undecodable annotation, otherwise merges all three parts |
| NodeMetadata.Node.Update | pkg/syncer/bottomup/node/physical_node_controller.go:1215-1280 | the node after a round in which the update and the taint patch may fail separately |
| NodeMetadata.RunRemembers | pkg/syncer/bottomup/node/physical_node_controller.go:1215-1276 | over every run, whatever writes fail, the stored annotation decodes to what the last successful update wanted |
| NodeMetadata.RunCarriesLast | pkg/syncer/bottomup/node/physical_node_controller.go:1284-1460 | over every run the node has every label and annotation that update wanted, and its taints if their patch succeeded, the window taint's time excepted |
| NodeMetadata.RunDropsStaleKeys | pkg/syncer/bottomup/node/physical_node_controller.go:1370-1460 | after every run, what the last successful update wanted and the next does not is gone, taints if their patch succeeds |
| NodeMetadata.UserLabelSurvives | pkg/syncer/bottomup/node/physical_node_controller.go:1370-1392 | a user label that is never desired keeps its value through all later rounds, whatever writes fail |
| NodeMetadata.UserAnnotationSurvives | pkg/syncer/bottomup/node/physical_node_controller.go:1395-1421 | so does a user annotation; exactly the deletion marker goes, with the first successful update |
| NodeMetadata.MarkerStaysAway | pkg/syncer/bottomup/node/physical_node_controller.go:1395-1421 | a deletion marker annotation that is gone stays away, whatever writes fail |
| NodeMetadata.UserTaintSurvives | pkg/syncer/bottomup/node/physical_node_controller.go:1424-1460 | the user's taints survive all later rounds in order, whatever writes fail; exactly the deletion taint goes, with the first successful patch |
| NodeMetadata.MergeIdempotent | pkg/syncer/bottomup/node/physical_node_controller.go:1284-1460 | merging the same desired metadata again changes nothing at all |
| NodeMetadata.FailedPatchMakesTaintPermanent | pkg/syncer/bottomup/node/physical_node_controller.go:1257-1276 | after a failed taint patch an unwanted taint stays through all later rounds, whatever writes succeed |
| NodeMetadata.StaleTaintRemovedIffPatched | pkg/syncer/bottomup/node/physical_node_controller.go:1257-1276 | a stale taint is gone for good exactly if the patch of the round that drops it succeeds |
| NodeMetadata.TransformTaints | pkg/syncer/bottomup/node/physical_node_controller.go:1664-1716 | the loop computes the wanted taints from the physical node's and the policy |
| NodeMetadata.TransformedMeans | pkg/syncer/bottomup/node/physical_node_controller.go:1664-1716 | the wanted taints are exactly: every physical taint but the window taint, unschedulable under its own new key; the default taint unless disabled; outside the windows the window taint, NoExecute exactly if the policy reclaims by force; and how many there are |
| NodeMetadata.TransformedWindowTaint | pkg/syncer/bottomup/node/physical_node_controller.go:1664-1716 | there is one window taint exactly outside the windows, with the effect the policy asks for and the current time |
| GracePeriod.HandleOutOfTimeWindows | pkg/syncer/bottomup/node/physical_node_controller.go:1719-1797 | evicts only under ForceReclaim: without it the node is synced again after 300 seconds, with no grace period it evicts at once, without a window taint it fails, with one that has no time it evicts, and otherwise exactly from the time of the first window taint plus the grace period on; before that it requeues for the time left |
| GracePeriod.ClockOverRun | pkg/syncer/bottomup/node/physical_node_controller.go:1257-1276 | over every run, whatever writes fail, the stored taint and metadata show the clock that the history of reconciles gives |
| GracePeriod.OutcomeOverRun | pkg/syncer/bottomup/node/physical_node_controller.go:1719-1797 | the outcome of a reconcile that reaches the check depends on any history before it only through that clock |
| GracePeriod.EvictionNeedsForce | pkg/syncer/bottomup/node/physical_node_controller.go:1719-1762 | over every run no reconcile evicts under a policy without ForceReclaim, inside the windows at the check, or after a failed write; with ForceReclaim and no grace period each one that reaches the check does |
| GracePeriod.GraceDeadline | pkg/syncer/bottomup/node/physical_node_controller.go:1664-1797 | in a stay outside, whatever writes fail, a reconcile that reaches the check evicts exactly from t0 + grace on and otherwise requeues for exactly that time, t0 being the first reconcile whose taints were written |
| GracePeriod.StayReached | pkg/syncer/bottomup/node/physical_node_controller.go:1257-1276 | in a stay outside the check is never reached before the clock has been started |
| GracePeriod.StartsAtOnce | pkg/syncer/bottomup/node/physical_node_controller.go:1664-1716 | if the writes of the first reconcile of the stay succeed, that one starts the clock |
| GracePeriod.CreatedCarries | pkg/syncer/bottomup/node/physical_node_controller.go:1191-1231 | a node that is created carries exactly the wanted labels, annotations and taints, and remembers them |
| GracePeriod.InsideRestartsClockIff | pkg/syncer/bottomup/node/physical_node_controller.go:1424-1460 | a successful reconcile inside drops the taint, and the next stay starts a new clock, exactly if the stored metadata expects the taint |
| GracePeriod.FailedPatchKeepsOldClock | pkg/syncer/bottomup/node/physical_node_controller.go:1257-1276 | if the taint patch of the first reconcile inside fails, the next stay outside evicts by the old clock, whatever writes succeed in between |
| NodeDeletion.TraceKeepsInv | pkg/syncer/bottomup/node/physical_node_controller.go:459-592 | what each stage has established still holds when the next one relies on it, in every interleaving |
| NodeDeletion.DeletionIsSafe | pkg/syncer/bottomup/node/physical_node_controller.go:459-592 | in every interleaving the finalizer goes only from a deleting node that carries the deletion taint, while no Pending or Running pod outside the five system namespaces is bound to it and its port is released |
| NodeDeletion.FailedEvictionEndsAttempt | pkg/syncer/bottomup/node/physical_node_controller.go:371-444 | if the pods cannot be listed or one of them cannot be deleted the attempt stops: node and port stay as they are |
| NodeDeletion.AttemptProgresses | pkg/syncer/bottomup/node/physical_node_controller.go:459-592 | a reconcile without failures decreases the lexicographic measure, or waits for marked pods and changes nothing |
| NodeDeletion.TerminationProgresses | pkg/syncer/bottomup/node/physical_node_controller.go:338-365 | while it waits, every pod that terminates decreases the measure |
| NodeDeletion.PodsNeverSetBack | pkg/syncer/bottomup/node/physical_node_controller.go:338-444 | no step of the pods and no other event of the node ever increases the measure on a tainted, deleting node |
| NodeDeletion.DeletionEnds | pkg/syncer/bottomup/node/physical_node_controller.go:459-592 | from every state reconciles and the ends of evicted pods, each lowering the measure, lead to a node without the finalizer |
| NodeDeletion.ThreeReconcilesEndDeletion | pkg/syncer/bottomup/node/physical_node_controller.go:459-592 | from any state three successful reconciles with evicted pods terminating in between remove the finalizer |
| NodeDeletion.EvictedMeans | pkg/syncer/bottomup/node/physical_node_controller.go:371-444 | an eviction marks exactly the pods of the node whose deletion succeeds, sparing the tolerating ones on request, and changes nothing else |
| NodeDeletion.Controller.ForceEvictPods | pkg/syncer/bottomup/node/physical_node_controller.go:371-444 | marks exactly the node's evictable pods whose deletion succeeds, and reports a failure exactly if one failed |
| NodeDeletion.Controller.CheckPodsOnNode | pkg/syncer/bottomup/node/physical_node_controller.go:338-365 | true exactly if a Pending or Running non-system pod is bound to the node |
| NodeDeletion.Controller.EnsureTaint | pkg/syncer/bottomup/node/physical_node_controller.go:258-306 | the taint is on the node that the handler goes on with and the node is unschedulable, or the handler stops; pods, port and finalizer stay |
| NodeDeletion.Controller.HandleNodeDeletion | pkg/syncer/bottomup/node/physical_node_controller.go:459-592 | the handler is a run of the machine, with successful calls exactly one attempt, and with a failing eviction it keeps the finalizer and the port |
| Ports.AtoiOfItoa | pkg/syncer/bottomup/node/physical_node_controller.go:929-935 | a port written to a label is read back unchanged |
| Ports.AtoiOfSigned | pkg/syncer/bottomup/node/physical_node_controller.go:929-935 | a sign is read as such; an empty label, a sign alone or any other character is an error |
| Ports.HashString | pkg/syncer/bottomup/node/physical_node_controller.go:1513-1524 | the loop computes 32-bit FNV-1a |
| Ports.HashValues | pkg/syncer/bottomup/node/physical_node_controller.go:1513-1524 | the hash has the published FNV-1a values of "", "a" and "b" |
| Ports.ProbeBijection | pkg/syncer/bottomup/node/physical_node_controller.go:969-979 | from any base the wrap-around probe visits each of the 50536 ports exactly once |
| Ports.AllocatedIsFirstFree | pkg/syncer/bottomup/node/physical_node_controller.go:960-982 | a new port is the first free one counting up from the hash modulo 50536, around the range from 15000 to 65535 |
| Ports.PortAllocator.AllocateProxierPort | pkg/syncer/bottomup/node/physical_node_controller.go:941-982 | returns the known port, or claims the first free one in cyclic order from the hash, or fails only if all are taken |
| Ports.PortAllocator.ReleaseProxierPort | pkg/syncer/bottomup/node/physical_node_controller.go:984-992 | removes the node and its port from both maps and nothing else |
| Ports.PortAllocator.InitAllocatedPortsCache | pkg/syncer/bottomup/node/physical_node_controller.go:916-938 | the maps hold exactly what the readable labels say, later nodes overwriting earlier ones |
| Ports.LoadedMeans | pkg/syncer/bottomup/node/physical_node_controller.go:916-938 | a node is known exactly if it has a readable label, with the port of its last one |
| Ports.TraceKeepsInverse | pkg/syncer/bottomup/node/physical_node_controller.go:941-992 | after every sequence of allocations and releases the two maps are inverse to each other |
| Ports.RepeatedAllocationIsStable | pkg/syncer/bottomup/node/physical_node_controller.go:952-954 | a node that is not released gets the same port every time, and a new one lies between 15000 and 65535 |
| Ports.LivePortsAreDistinct | pkg/syncer/bottomup/node/physical_node_controller.go:941-992 | two nodes never hold the same port |
| Ports.FailsOnlyWhenExhausted | pkg/syncer/bottomup/node/physical_node_controller.go:963-982 | with labels in range an allocation fails exactly if all 50536 ports are taken |
| Ports.InitIsInverseIffPortsDistinct | pkg/syncer/bottomup/node/physical_node_controller.go:916-938 | the rebuilt maps are inverse exactly if no two nodes carry the same port label |
| Ports.RestartRestoresTable | pkg/syncer/bottomup/node/physical_node_controller.go:916-938 | after a restart the allocator knows exactly the ports it had written to labels |
| Usage.AddRequests | pkg/syncer/bottomup/node/physical_node_controller.go:716-725 | whatever the iteration order, every resource is added up, formats included |
| Usage.CalculatePodResourceRequests | pkg/syncer/bottomup/node/physical_node_controller.go:705-740 | per resource the sum of what all init, regular and ephemeral containers ask for; cpu, memory and exactly the resources asked for are reported |
| Usage.PodAsks | pkg/syncer/bottomup/node/physical_node_controller.go:705-740 | per resource the requests of a pod are those of its init, its regular and its ephemeral containers together |
| Usage.CalculateNodeResourceUsage | pkg/syncer/bottomup/node/physical_node_controller.go:634-702 | one pass splits the usage of active pods by whether kubeocean manages them |
| Usage.UsageIsDemand | pkg/syncer/bottomup/node/physical_node_controller.go:634-740 | each side is, per resource, the demand of its own active pods plus one "pods" unit each |
| Usage.UsageConserved | pkg/syncer/bottomup/node/physical_node_controller.go:634-740 | the two sides together are the demand of all pods: nothing is lost or counted twice |
| Usage.UsageReports | pkg/syncer/bottomup/node/physical_node_controller.go:634-740 | cpu, memory and pods are always reported, any other resource exactly if a container of a counted pod asks for it |
| Usage.UsageIgnoresOrder | pkg/syncer/bottomup/node/physical_node_controller.go:634-702 | the order of the pod list has no effect on either side |
| Usage.UsageKeepsFormat | pkg/syncer/bottomup/node/physical_node_controller.go:684-740 | a resource that every container requests in one format is added up in that format |
| Usage.OtherSideIrrelevant | pkg/syncer/bottomup/node/physical_node_controller.go:665-696 | each side depends on its own pods only |
| Limits.CalculateEffectiveLimit | pkg/syncer/bottomup/node/physical_node_controller.go:846-875 | none if the limit has no effective part, otherwise the least of its parts, the quantity winning a tie |
| Limits.ApplyResourceLimits | pkg/syncer/bottomup/node/physical_node_controller.go:816-843 | per resource the fold of the limits on it, and no resource added or lost |
| Limits.ShareExactIff | pkg/syncer/bottomup/node/physical_node_controller.go:878-903 | a percentage in int64 arithmetic is the exact truncated share if and only if the product fits |
| Limits.PercentLimitExactIff | pkg/syncer/bottomup/node/physical_node_controller.go:878-903 | for every quantity the limit is the exact share truncated to the unit if and only if the product fits an int64 |
| Limits.PercentOfAmount | pkg/syncer/bottomup/node/physical_node_controller.go:878-903 | unless the product overflows, a percentage limit is the percentage of the amount itself to within one unit of the format |
| Limits.PercentLimited | pkg/syncer/bottomup/node/physical_node_controller.go:846-903 | a percentage on its own leaves at most that percentage of the amount, to within one unit |
| Limits.ZeroReadingIsInexact | pkg/syncer/bottomup/node/physical_node_controller.go:886-887 | a value beyond int64 that is read as zero gives no exact share either |
| Limits.SmallValuesFit | pkg/syncer/bottomup/node/physical_node_controller.go:878-903 | a scaled value of at most MaxInt64/100 never overflows and gives a non-negative limit |
| Limits.OverflowLeasesNegative | pkg/syncer/bottomup/node/physical_node_controller.go:884-889 | 100% of 100 TB in DecimalSI folds to a negative amount |
| Limits.AboveHundredLeavesNothing | pkg/syncer/bottomup/node/physical_node_controller.go:878-881 | a percentage above 100 leaves zero |
| Limits.NeverIncreases | pkg/syncer/bottomup/node/physical_node_controller.go:816-843 | no list of limits increases an amount |
| Limits.AppendNeverRaises | pkg/syncer/bottomup/node/physical_node_controller.go:816-843 | further limits at the end never raise the result |
| Limits.FoldMonotone | pkg/syncer/bottomup/node/physical_node_controller.go:816-903 | with one format and no overflow, more available never leaves less |
| Limits.InsertNeverRaises | pkg/syncer/bottomup/node/physical_node_controller.go:816-903 | with one format and no overflow, a further limit anywhere in the list never raises the result |
| Limits.MixedFormatsAreNotMonotone | pkg/syncer/bottomup/node/physical_node_controller.go:878-903 | with two formats more available can leave less |
| Limits.QuantitiesFoldToMinimum | pkg/syncer/bottomup/node/physical_node_controller.go:816-875 | quantity limits leave the minimum of the available amount and all non-zero limits |
| Limits.QuantityOrderIrrelevant | pkg/syncer/bottomup/node/physical_node_controller.go:816-875 | order and repetition of quantity limits do not matter |
| Leasing.CalculateAvailableResources | pkg/syncer/bottomup/node/physical_node_controller.go:751-813 | fails exactly if the pods cannot be listed; otherwise the resources are those of the allocatable list, or of the capacity if that is empty, and without a policy each lease is exactly what foreign active pods leave of it, or zero |
| Leasing.FreeIsRest | pkg/syncer/bottomup/node/physical_node_controller.go:751-782 | before the policy exactly the larger of zero and the allocatable amount less the demand of foreign active pods is free |
| Leasing.SubtractUsage | pkg/syncer/bottomup/node/physical_node_controller.go:764-782 | the remainder of every resource, cut off at zero |
| Leasing.NoOverLease | pkg/syncer/bottomup/node/physical_node_controller.go:751-903 | lease plus foreign demand never exceed the allocatable amount, or the capacity if nothing is allocatable; nothing is leased when that demand alone does; never negative unless a product overflows |
| Leasing.LeaseIsMinimum | pkg/syncer/bottomup/node/physical_node_controller.go:751-875 | under quantity limits the lease is exactly the minimum of what is free and of the limits |
| Leasing.SmallStepsFit | pkg/syncer/bottomup/node/physical_node_controller.go:878-903 | scaled values of at most MaxInt64/100 in the percentage steps rule out every overflow |
| Leasing.MilliBoundSuffices | pkg/syncer/bottomup/node/physical_node_controller.go:878-903 | a free amount of at most MaxInt64/100 milli-units rules it out under every policy |
| Leasing.LeaseIgnoresManagedPods | pkg/syncer/bottomup/node/physical_node_controller.go:751-791 | the lease depends on the pods kubeocean does not manage, and on no others |
| Leasing.ManagedPodTakesNothing | pkg/syncer/bottomup/node/physical_node_controller.go:751-791 | a managed pod anywhere in the list does not change the lease |
| Leasing.LeaseIgnoresPodOrder | pkg/syncer/bottomup/node/physical_node_controller.go:751-791 | the order of the pod list does not change the leased amount |
| SyncedObjects.SyncedObject.Register | pkg/syncer/topdown/common/common.go:526-602 | adds finalizer, labels and annotations, does nothing if they are there, refuses another physical name |
| SyncedObjects.SyncedObject.Unregister | pkg/syncer/topdown/common/common.go:310-352 | takes off the cluster's marks, and the shared ones as the code decides |
| SyncedObjects.SyncedObject.RemoveLabels | pkg/syncer/topdown/common/common.go:355-389 | the managed-by label goes exactly with the last cluster finalizer |
| SyncedObjects.SyncedObject.RemoveAnnotations | pkg/syncer/topdown/common/common.go:392-413 | removes the physical name and namespace and the cluster's deletion mark |
| SyncedObjects.RegisterCounts | pkg/syncer/topdown/common/common.go:526-602 | registration adds the cluster to the holders and fails exactly on a name conflict |
| SyncedObjects.RegisteredMeans | pkg/syncer/topdown/common/common.go:526-602 | afterwards finalizer, labels, physical name and namespace are as asked for, and every other label, annotation and finalizer is as before |
| SyncedObjects.UnregisterCounts | pkg/syncer/topdown/common/common.go:310-389 | unregistration removes exactly the cluster from the holders |
| SyncedObjects.UnregisteredMeans | pkg/syncer/topdown/common/common.go:310-413 | afterwards the cluster's finalizer, labels, physical name and namespace and its deletion mark are gone, and every other label, annotation and finalizer is as before |
| SyncedObjects.MarksAreReferenceCount | pkg/syncer/topdown/common/common.go:310-389 | over every sequence: finalizer present iff synced-by label present iff holder, managed-by label present iff there is a holder |
| SyncedObjects.OthersUntouched | pkg/syncer/topdown/common/common.go:310-389 | a step of one cluster leaves the marks of the others unchanged |
| SyncedObjects.LeavingDropsSharedName | pkg/syncer/topdown/common/common.go:392-413 | a leaving cluster removes the shared name annotation while others still hold the object |
| ConfigMapSync.StepKeepsInv | pkg/syncer/topdown/configmap/virtual_configmap_controller.go:43-160 | every safe read, write, user action, restart and teardown mark keeps the invariant |
| ConfigMapSync.FetchKeepsInv | pkg/syncer/topdown/configmap/virtual_configmap_controller.go:43-83 | what is decided from the object read rests on the cluster's finalizer being on it |
| ConfigMapSync.StepSafeIff | pkg/syncer/topdown/configmap/virtual_configmap_controller.go:43-160 | a step leaves a copy without its finalizer exactly if the pod controller creates without the finalizer, or a cluster takes its finalizer off while it has a copy under any name |
| ConfigMapSync.NoOrphansIffSafe | pkg/syncer/topdown/configmap/virtual_configmap_controller.go:43-160 | over every interleaving no copy is ever without its finalizer if and only if no step is of that kind |
| ConfigMapOrphans.NoOrphanedCopies | pkg/syncer/topdown/configmap/virtual_configmap_controller.go:43-160 | in every interleaving in which the object is read under its own name or none, and the pod controller creates only while the finalizer is on and not about to go, a copy in a cluster implies the cluster's finalizer |
| ConfigMapOrphans.OrderlyRunIsSafe | pkg/syncer/topdown/configmap/virtual_configmap_controller.go:79-122 | in such an interleaving every step is safe and all copies are under the object's own name |
| ConfigMapSync.VanishesOnlyWithoutCopies | pkg/syncer/topdown/configmap/virtual_configmap_controller.go:218-244 | in every run of safe steps the virtual object disappears only when no cluster holds a copy |
| ConfigMapSync.RemovalKeepsInv | pkg/syncer/topdown/common/common.go:310-352 | taking off one's own finalizer is safe if the copies are gone, because the write would fail on a changed object |
| ConfigMapOrphans.PodCreationSafeIff | pkg/syncer/topdown/pod/virtual_pod_controller.go:1944-1994 | an orphan is there at once or after the cluster's own next write, unless the copy is made while the finalizer is on and no accepted removal is pending |
| ConfigMapOrphans.PodCreationCanOrphan | pkg/syncer/topdown/pod/virtual_pod_controller.go:1944-1994 | a run in which a copy is made after the object has vanished |
| ConfigMapOrphans.RenamingCanOrphan | pkg/syncer/topdown/configmap/virtual_configmap_controller.go:78-86 | a run in which the object is renamed and deleted, and the copy of the old name stays |
| ConfigMapReconcile.PassOrphansIff | pkg/syncer/topdown/configmap/virtual_configmap_controller.go:218-244 | a pass that gives the object up leaves an orphan exactly if the cluster has a copy of another name than the one read |
| ConfigMapReconcile.PassDeliversUnlessGivenUp | pkg/syncer/topdown/configmap/virtual_configmap_controller.go:84-122 | a pass over a registered object gives it up exactly if it is deleting or carries the deletion mark of this very binding; otherwise the copy is there afterwards |
| ConfigMapReconcile.TwoPassesDeliver | pkg/syncer/topdown/configmap/virtual_configmap_controller.go:43-122 | two passes bring a wanted object that is neither deleting nor marked for deletion to the cluster, whatever was missing of its registration |
| ConfigMapReconcile.PassRegisters | pkg/syncer/topdown/configmap/virtual_configmap_controller.go:62-160 | a pass for a wanted object whose registration lacks anything completes it and does nothing else |
| ConfigMapReconcile.PassIgnoresOthers | pkg/syncer/topdown/configmap/virtual_configmap_controller.go:43-76 | an object neither wanted nor marked by the cluster is left alone, and a missing one is no longer wanted |
| ConfigMapReconcile.Clusters.Reconcile | pkg/syncer/topdown/configmap/virtual_configmap_controller.go:43-122 | the whole reconcile is a run of the machine that ends idle, and without failures it has the effect of one pass |
| ConfigMapReconcile.PassAfterFetch | pkg/syncer/topdown/configmap/virtual_configmap_controller.go:43-122 | what is decided from the object read, followed through, is exactly the pass |
| ConfigMapReconcile.Clusters.CheckAndFinish | pkg/syncer/topdown/configmap/virtual_configmap_controller.go:84-122 | a registered object ends up with a copy of the name read, or without that copy and the marks if it is given up |
| ConfigMapReconcile.Clusters.GiveUp | pkg/syncer/topdown/configmap/virtual_configmap_controller.go:218-244 | first the copy goes, and only after that the finalizer |
| ConfigMapProgress.PassReleases | pkg/syncer/topdown/configmap/virtual_configmap_controller.go:218-244 | while the name annotation is there, a pass of a holder removes the copy of that name and its finalizer, and with the last one the object |
| ConfigMapProgress.PassRestoresName | pkg/syncer/topdown/configmap/virtual_configmap_controller.go:136-160 | without the name annotation a holder that still wants the object first puts the name back |
| ConfigMapProgress.PassStuck | pkg/syncer/topdown/configmap/virtual_configmap_controller.go:78-83 | without the name annotation a holder that has forgotten the object changes nothing |
| ConfigMapProgress.LetsGoIff | pkg/syncer/topdown/configmap/virtual_configmap_controller.go:43-160 | two passes make a holder of a dying object let go exactly if the name is there or the cluster still wants the object |
| ConfigMapProgress.PassShows | pkg/syncer/topdown/configmap/virtual_configmap_controller.go:43-160 | every pass moves the name, the holders and who wants the object as three simple rules say |
| ConfigMapProgress.DeletionCanEndIff | pkg/syncer/topdown/configmap/virtual_configmap_controller.go:43-160 | some sequence of passes of the holders ends the deletion exactly if one of them wants the object, or a lone one finds the name |
| ConfigMapProgress.DeletionAlwaysEndsIff | pkg/syncer/topdown/configmap/virtual_configmap_controller.go:43-160 | every schedule in which each holder has a turn in each of 2n rounds ends the deletion exactly if all n want the object, or a lone one finds the name |
| ConfigMapProgress.EndsWithoutCopies | pkg/syncer/topdown/configmap/virtual_configmap_controller.go:218-244 | when the passes end the deletion, no copy is left either |
| BindingTeardown.SyncerOutlivesItsFinalizer | pkg/manager/controller/clusterbinding_controller.go:695-761 | the syncer's deployment is removed only when a deleting binding no longer has the syncer's finalizer |
| BindingTeardown.LookShows | pkg/syncer/clusterbinding/clusterbinding.go:395-624 | each clean look adds its kind to what the pass has seen to be absent |
| BindingTeardown.TeardownOrder | pkg/syncer/clusterbinding/clusterbinding.go:171-242 | a guarded binding disappears only after one uninterrupted pass during which there was, for every kind of leftover, a moment with nothing of that kind; then the pass released the finalizer |
| BindingTeardown.PassSeesKind | pkg/syncer/clusterbinding/clusterbinding.go:395-624 | a pass that releases the finalizer has looked at each of the eleven kinds and found nothing |
| BindingTeardown.DisappearsOnlyWhenClean | pkg/syncer/clusterbinding/clusterbinding.go:171-242 | over every run of a guarded binding the last look of the releasing pass meets a state without any leftovers, unless something came after the look at its kind and stayed |
| BindingTeardown.CleanAtLastLookIff | pkg/syncer/clusterbinding/clusterbinding.go:395-624 | that state is free of leftovers if and only if there is no such latecomer |
| BindingTeardown.NoArrivalsNoLatecomer | pkg/syncer/clusterbinding/clusterbinding.go:395-624 | there is none if no kind gains anything between its own look and the last one |
| TeardownGaps.LateNodeEscapes | pkg/syncer/clusterbinding/clusterbinding.go:171-242 | a run in which the guarded binding disappears although no state of it is free of leftovers |
| TeardownGaps.UnguardedTeardownLeavesThings | pkg/manager/controller/clusterbinding_controller.go:695-761 | without the syncer's finalizer the manager finishes although everything is still there |
| BindingTeardown.StepKeepsInv | pkg/syncer/clusterbinding/clusterbinding.go:74-134 | every step of both processes keeps what they rely on, and deletion is never taken back |
| BindingTeardown.SyncerGuards | pkg/syncer/clusterbinding/clusterbinding.go:74-134 | an idle syncer puts its finalizer on a binding that is not being deleted, leaves the others, and writes nothing if it is there |
| BindingTeardown.ManagerProvides | pkg/manager/controller/clusterbinding_controller.go:125-282 | the manager puts its finalizer on and then deploys the syncer, the proxier and its service |
| BindingTeardown.WritesWhatWasRead | pkg/syncer/clusterbinding/clusterbinding.go:74-242 | in every interleaving a finalizer is put on or taken off only on the very binding that was read |
| TeardownHandlers.Syncer.HandleDeletion | pkg/syncer/clusterbinding/clusterbinding.go:171-242 | the pass is a run of the machine; the finalizer comes off exactly if it was on, nothing of any kind was there and no call failed; a pass that gets as far as the virtual objects marks every one of them and deletes the fake pods |
| TeardownHandlers.Manager.HandleDeletion | pkg/manager/controller/clusterbinding_controller.go:695-839 | waits while the syncer's finalizer is on, then removes the syncer, the proxier, its service and the manager's own finalizer in this order, stopping at a failure |
| ClusterIds.Reconciler.ValidateClusterIDConsistency | pkg/manager/controller/clusterbinding_controller.go:320-350 | accepts exactly if both maps allow it, and records the binding by name in either case |
| ClusterIds.Reconciler.ValidateClusterBinding | pkg/manager/controller/clusterbinding_controller.go:285-317 | the conditions for acceptance, and that a binding without an id never reaches the maps |
| ClusterIds.Reconciler.CleanupClusterIDMappings | pkg/manager/controller/clusterbinding_controller.go:353-367 | removes the name and the id from the maps, whoever owns the id |
| ClusterIds.RegistryAgrees | pkg/manager/controller/clusterbinding_controller.go:320-367 | if only owners free their ids, accepted live bindings have distinct ids on which both maps agree |
| ClusterIds.IdNeverChanges | pkg/manager/controller/clusterbinding_controller.go:328-336 | until its deletion a binding can be accepted under no id but its first |
| ClusterIds.RejectedBindingIsStuck | pkg/manager/controller/clusterbinding_controller.go:327-347 | that holds as well for a binding that was turned down because the id is taken |
| ClusterIds.DeleteKeepsAgreementIff | pkg/manager/controller/clusterbinding_controller.go:353-367 | a deletion keeps the maps in agreement exactly if the id is not another accepted binding's |
| ClusterIds.RejectedBindingFreesTheId | pkg/manager/controller/clusterbinding_controller.go:353-367 | a run after which two live accepted bindings share an id |
| ClusterIds.IdFreedIff | pkg/manager/controller/clusterbinding_controller.go:353-367 | over every run an id stays its owner's exactly as long as no deletion names that id |
| ClusterIds.DeletionFreesIff | pkg/manager/controller/clusterbinding_controller.go:353-367 | a deletion makes the id available to another binding exactly if the binding still has that id |
| ClusterIds.EditedBindingLeaksItsId | pkg/manager/controller/clusterbinding_controller.go:320-367 | an accepted binding that is edited and then deleted leaves its id unusable for all others |
| PodStatus.MergeConditions | pkg/syncer/bottomup/pod/physical_pod_controller.go:355-379 | the virtual PodScheduled condition first, if there is one, then the physical conditions |
| PodStatus.BuildSyncPod | pkg/syncer/bottomup/pod/physical_pod_controller.go:303-351 | field by field what the wanted pod takes from the physical pod (status, conditions, labels, annotations) and what it keeps of the virtual one (PodScheduled, pointers) |
| PodStatus.SyncedPodMirrors | pkg/syncer/bottomup/pod/physical_pod_controller.go:303-379 | the virtual pod mirrors the physical one in that way after any number of syncs |
| PodStatus.SyncPhysicalPodToVirtual | pkg/syncer/bottomup/pod/physical_pod_controller.go:276-300 | writes exactly if the virtual pod is not in sync; after a successful sync, and whenever nothing is written, phase, message, reason, addresses, start time, container statuses, conditions, labels and annotations are the physical pod's, the internal keys and PodScheduled excepted |
| PodStatus.WrittenThenInSync | pkg/syncer/bottomup/pod/physical_pod_controller.go:303-379 | after a write another one is needed exactly if PodScheduled has to move to the front |
| PodStatus.SyncConverges | pkg/syncer/bottomup/pod/physical_pod_controller.go:276-399 | any number of syncs writes at most twice, and twice exactly if the virtual pod has no PodScheduled and the physical one is out of place; the result mirrors the physical pod |
| PodStatus.ScheduledLeadsIffFirst | pkg/syncer/bottomup/pod/physical_pod_controller.go:355-379 | with one condition per type "in place" means listed first |
| PodStatus.ScheduledNeverReplaced | pkg/syncer/bottomup/pod/physical_pod_controller.go:355-379 | an existing virtual PodScheduled condition survives every sequence of syncs from any physical pods |
| PodMapping.Clusters.Reconcile | pkg/syncer/bottomup/pod/physical_pod_controller.go:39-87 | deletes a managed pod without a matching virtual pod and its token secrets, syncs a matched one, ignores the rest; a failure changes nothing except that the secrets may stay |
| PodMapping.MatchedIff | pkg/syncer/bottomup/pod/physical_pod_controller.go:101-168 | a pod is matched exactly if its three annotations name a virtual pod with that UID which points back at it |
| PodMapping.ReconcileMeans | pkg/syncer/bottomup/pod/physical_pod_controller.go:39-87 | what a reconcile does, in the fields of the pods: unmanaged pods are ignored, unmatched ones deleted, matched ones mirrored into their virtual pod and into no other |
| PodMapping.Clusters.DeletePhysicalPod | pkg/syncer/bottomup/pod/physical_pod_controller.go:171-201 | marks the pod, except one that is being deleted already, and then removes its token secrets |
| TokenSecrets.CollectTokenSecrets | pkg/syncer/bottomup/pod/physical_pod_controller.go:204-256 | finds exactly the labelled secrets of the API access volumes that can be read |
| TokenSecrets.RefersIff | pkg/syncer/bottomup/pod/physical_pod_controller.go:210-240 | a secret is referred to exactly by a volume named kube-api-access-..., as its secret or as its last projected one |
| TokenSecrets.DeleteTokenSecrets | pkg/syncer/bottomup/pod/physical_pod_controller.go:204-273 | without failures exactly those secrets are gone, and no other ever is |
| PodMapping.Clusters.Sweep | pkg/syncer/bottomup/pod/physical_pod_controller.go:39-87 | in any order a sweep marks exactly the unmatched managed pods, removes exactly their token secrets and syncs every matched virtual pod once |
| PodMapping.SyncKeepsPointers | pkg/syncer/bottomup/pod/physical_pod_controller.go:326-332 | a sync keeps the UID and the back-pointers |
| PodMapping.SweepMakesBijection | pkg/syncer/bottomup/pod/physical_pod_controller.go:123-168 | the survivors of a sweep and the virtual pods they name correspond one to one and point at each other |
| PodMapping.SecondSweepDeletesNothing | pkg/syncer/bottomup/pod/physical_pod_controller.go:39-87 | a second sweep marks no further pod |
| PodMapping.ThirdSweepChangesNothing | pkg/syncer/bottomup/pod/physical_pod_controller.go:39-87 | from the third sweep on neither cluster changes |
| HostPorts.PodHasHostPort | pkg/syncer/bottomup/hostport/hostport_node_controller.go:298-314 | true exactly if some regular or init container has a positive host port |
| HostPorts.CollectHostPorts | pkg/syncer/bottomup/hostport/hostport_node_controller.go:340-405 | sorted by host IP, protocol and port; an entry is in the list exactly if a scheduled pod that kubeocean does not manage, and that has a positive host port, has that host port in a regular or init container, with TCP and 0.0.0.0 for what is empty; and there are as many entries as such ports |
| HostPorts.CollectionReserves | pkg/syncer/bottomup/hostport/hostport_node_controller.go:282-405 | the same of any collection, whatever order the sort leaves equal entries in |
| HostPorts.FillDefaults | pkg/syncer/bottomup/hostport/hostport_node_controller.go:383-391 | replaces an empty host IP and an empty protocol |
| HostPorts.Sort | pkg/syncer/bottomup/hostport/hostport_node_controller.go:393-402 | sorted by host IP, protocol and port, and a permutation |
| HostPorts.CanonicalForm | pkg/syncer/bottomup/hostport/hostport_node_controller.go:393-446 | two sorted permutations of the same ports are equal after renaming, though the sort is unstable |
| HostPorts.PortListIgnoresPodOrder | pkg/syncer/bottomup/hostport/hostport_node_controller.go:340-446 | the renamed list is the same for every order of the pod list |
| HostPorts.NamesApart | pkg/syncer/bottomup/hostport/hostport_node_controller.go:443-446 | the names given to the ports are all different |
| HostPorts.FakePodHandler.HandleFakePod | pkg/syncer/bottomup/hostport/hostport_node_controller.go:408-492 | on success the first matching pod or a new one is kept and all others are gone or being deleted, and failures never remove the last matching one |
| HostPorts.FakePodHandler.EnsureFakePod | pkg/syncer/bottomup/hostport/hostport_node_controller.go:466-482 | a pod with the ports exists and counts as scheduled, or nothing that existed has changed |
| HostPorts.FakePodHandler.PatchScheduled | pkg/syncer/bottomup/hostport/hostport_node_controller.go:494-514 | the pod counts as scheduled afterwards, and nothing is written if it already does |
| HostPorts.FakePodHandler.Classify | pkg/syncer/bottomup/hostport/hostport_node_controller.go:449-464 | the first matching pod and exactly all the others |
| HostPorts.OneFakePodRemains | pkg/syncer/bottomup/hostport/hostport_node_controller.go:408-492 | exactly one live fake pod is left, its first container has exactly the ports and it is scheduled, unless one that is being deleted was taken for it; none for an empty list |
| HostPorts.SecondRunKeepsLiveIff | pkg/syncer/bottomup/hostport/hostport_node_controller.go:449-492 | a second run keeps the live fake pod exactly if it does not take one that is being deleted |
| HostPorts.SecondRunIsNoOp | pkg/syncer/bottomup/hostport/hostport_node_controller.go:340-492 | if deleted pods go at once, a second run changes nothing, even if pods and fake pods are listed differently |
| HostPorts.DyingPodWins | pkg/syncer/bottomup/hostport/hostport_node_controller.go:449-492 | two runs after which no live fake pod is left |
| TokenCache.Manager.GetServiceAccountToken | pkg/syncer/topdown/token/token_manager.go:96-122 | serves, fetches and stores, keeps an unexpired token after a failed fetch, or fails |
| TokenCache.KeysDistinguishRequests | pkg/syncer/topdown/token/token_manager.go:189-201 | two requests share a cached token exactly if account, namespace, audiences, lifetime and bound object agree |
| TokenCache.Manager.DeleteServiceAccountToken | pkg/syncer/topdown/token/token_manager.go:127-135 | removes exactly the tokens bound to the UID, and panics exactly if some token is bound to nothing |
| TokenCache.Manager.Cleanup | pkg/syncer/topdown/token/token_manager.go:137-145 | removes exactly the tokens that are expired when looked at |
| TokenCache.RefreshExactly | pkg/syncer/topdown/token/token_manager.go:166-186 | the refresh condition in exact arithmetic for lifetimes from 0 to 2^32 seconds |
| TokenCache.ServedIsFresh | pkg/syncer/topdown/token/token_manager.go:166-186 | a token served without refresh is unexpired, has a fifth of its lifetime left and is at most 24 hours old |
| TokenCache.NeverServedExpiredIff | pkg/syncer/topdown/token/token_manager.go:166-172 | the check keeps expired tokens from being served exactly if the token states its lifetime |
| TokenCache.ReturnedTokensAreFresh | pkg/syncer/topdown/token/token_manager.go:96-186 | in every interleaving of callers, deletions and cleanups every returned token is unexpired at its caller's last clock reading |
| TokenCache.DeletedPodStaysOut | pkg/syncer/topdown/token/token_manager.go:127-135 | after a pod's deletion its tokens stay out of the cache unless a fetch brings one back |

## Left out

- HTTP, SPDY and websocket serving, TLS, CSRs, kubelet clients and metrics in `pkg/proxier`: input and output only.
- Label, field and node selectors: which nodes, pods and policies are selected is given.
- LogConfig rewriting: its meaning belongs to an external log agent.
- The Secret, PV and PVC reconcilers: close variants of the ConfigMap one.
- Content updates of an existing physical ConfigMap: they change neither marks nor copies.
- The map from pods to the ConfigMaps they reference: the machine only knows which clusters want the object.
- Lease renewal, retries, backoff, templates, flags and deep copies: timing or boilerplate.
- The graceful branch of the node deletion handler: every caller passes a period of zero.
- Quantity internals: a quantity is an amount in nano-units with a format.
- Names generated by hashing, and the text of the token cache's keys, which is replaced by its parts.
- A restart of the manager, which starts with an empty cluster id registry.
- Fallback names in the deletion of the manager's resources: each resource is there or not.
- Limits.PercentLimitExactIff: a value that does not fit an int64 even before the multiplication is read as its low 64 bits; the library sometimes reads zero instead, for which Limits.ZeroReadingIsInexact gives the same answer.
- HostPorts.Sort: works on a sequence and by insertion; update in place and the library's own algorithm are not modelled, and the canonical form is proved for every sorted permutation instead.
- Ports.PortAllocator.AllocateProxierPort: returns the port as a number; its decimal text is covered by Ports.AtoiOfItoa.
- PodMapping.Clusters.DeletePhysicalPod: a deletion sets the deletion mark; when the pod finally goes is not modelled.
- TimeWindows.IsWithinTimeWindows: lower-casing of day names covers ASCII letters only.
- Usage.UsageIgnoresOrder: is about amounts; which format a sum of mixed formats is written in does depend on the order.
- TokenCache.Manager.GetServiceAccountToken: the arithmetic of absolute times is unbounded; only durations wrap around.
