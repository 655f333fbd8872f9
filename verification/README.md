# Verified model of the vCenter failure simulator

A Dafny model of the failure-injection engine of this simulator, and of the naming, inventory and
topology code that feeds it, with proofs in Dafny. `dafny verify dfyconfig.toml` checks it.

The engine lets an operator *activate* one of thirty failure scenarios on inventory paths. A scenario
writes **overrides** (metric samples or property values, with an optional expiry) into a registry
that QueryPerf consults, and sends **tasks** (disconnect, power off, ...) to vCenter. The manager
remembers active scenarios, can deactivate one, and can clear everything.

## How the model is built

| file | what it holds |
|---|---|
| `Overrides.dfy` | the registry class with its in-place lists, lazy expiry and readers; the QueryPerf hook |
| `Engine.dfy` | vCenter as an environment (finder answers, one answer per task), registry and host/VM state, atomic events, `Run`, and `Last`: the net effect of an event list on one slot |
| `Samples.dfy` | the sample generators, with Go's truncating division |
| `Plans.dfy` | each scenario as a list of events in program order; deactivation; the dispatch of ids |
| `ActiveKeys.dfy`, `Lifecycle.dfy` | the key of an active scenario; Activate, Deactivate and ClearAll as atomic operations |
| `Manager.dfy` | the manager class: the source's loops and branches, each proved to carry out its plan |
| `Footprints.dfy`, `Reach.dfy` | expiry, deactivation, round trips, commutation, and how far any activation reaches |
| `Cascades.dfy`, `Quotas.dfy`, `StateChanges.dfy` | the multi-phase cascades, their quotas under failing calls, and host and VM state |
| `ClusterRequests.dfy`, `HostLoads.dfy` | the cluster scenarios as requests on any number of clusters; what loaded hosts and their VMs show |
| `Cleanup.dfy` | ClearAll against deactivating what is active |
| `Effects.dfy`, `TargetScenarios.dfy`, `HostScenarios.dfy`, `TaskScenarios.dfy` | what each scenario id makes readers answer, with its own values |
| `Interleaving.dfy`, `Schedules.dfy` | the small-step system: one event at a time, readers and the clock in between; what the actions alone determine |
| `Decimal.dfy`, `Inventory.dfy` | printed numbers and names, the flat layout |
| `HostProfiles.dfy` | clashing host names and hardware profile registration |
| `Sensors.dfy`, `Topology.dfy` | hardware sensors; the topology list and its linkage check |

Classes stand where the source keeps mutable objects (`Registry`, `Manager`, the profile registry);
their methods are specified by functions on values, and the theorems are about those functions.
The loop over `req.Targets`, the same in every activate function, is written once; the loop body
is chosen by the dispatch. The straight-line writes of a scenario are one list per scenario, written
in order by `WriteAll`, and the straight-line appends of fixed sensors are one list as well.

The environment is not trusted to behave: the finder may miss any path, and the n-th task may be
rejected, fail after being accepted, or complete, in any pattern. Times are nanoseconds.

Some properties one might expect hold only under a condition. The model proves the exact one:

* A round trip through Activate and Deactivate restores a target's readings exactly when nothing was
  visible on it before: Deactivate drops *every* override of the target, whichever scenario wrote it
  (`RoundTrip`, `DeactivationEffect`). When tasks complete, a PSOD's Deactivate reconnects the hosts and
  leaves their VMs off, so host and VM state returns exactly when the VMs were off and the hosts
  connected before (`PsodRequest`; for any answers `PsodOutcome`, `StateOutcome`).
* The comment on ClearAll says that it deactivates all active scenarios. It empties the active map as
  deactivating each of them would, but sends no task: with tasks completing it leaves the same hosts
  and VMs exactly when no active scenario's target awaits being restored, and the same registry exactly
  when no row stands off the targets those deactivations clear (`ClearAllVersusAll`; for one scenario
  `ClearAllVersusOne`, for any answers `ClearAllVersusTasks`). After any successful partition,
  maintenance or crash it leaves the targets down (`ClearAllLeavesDown`, `ClearAllKeepsPartition`).
* The active-map key `id:[t1 t2]` of colon-free ids is shared exactly by target lists with the same
  space-separated words (`KeyCollision`, `SpaceCollision`), and Deactivate removes a scenario of the
  id it names exactly when that id has no colon (`DeactivateHitsItsScenario`, `ColonCollision`).
* Operations on disjoint targets commute unless they share a key; with a shared key, `Commute` says
  exactly when they still do, and `SameKeyOrderMatters` shows a pair that does not. On
  non-empty target lists without spaces they always do (`PlainCommute`).
* In the boot storm and the rack failure the loaded hosts are counted from `host_count`, not from the
  hosts that went down. On a healthy cluster the disconnected and the loaded hosts split it exactly
  when the disconnections of the first `host_count` hosts all complete, and the hosts marked not
  responding and the loaded ones exactly when those calls are all accepted (`BootPartition`,
  `RackPartition`; for the network split, `SplitPartition`).
* A boot storm or rack failure on clusters that are found succeeds exactly when `host_count` is not
  negative. A negative one indexes `hosts[-1]`: the request panics before any event and nothing
  changes (`NegativeHostCount`).
* Two host prefixes never print the same host name exactly when neither is the other followed by a
  number without leading zeros (`HostNamesApart`); a whole configuration prints distinct names exactly
  when no two clusters clash within their host counts (`NoClashIs`). Prefixes that end in no digit
  are a special case, which the flat and the default layout meet.
* Profile lookups answer right for all registered hosts exactly when equally named hosts have equal
  profiles (`LookupsRight`). During creation the hook always finds the right one (`Build`).
* Two type names keep their entities apart exactly when neither is the other followed by a colon
  (`MorTypesApart`).
* The linkage check reports as many roots as datacenters exactly when no datacenter with a cluster,
  and no listed cluster with a host, has the id "-1" (`Diagnose`).
* A reader that stops at the first match and one that filters first agree exactly when no expired
  first match hides a live one (`ReadersAgree`); duplicate-free lists, which every reachable registry
  has, never hide one (`FindLive`, `RunsStayConsistent`).

Two more things are as the code does them: deactivating a cluster scenario leaves the overrides of hosts
and VMs in place (`HostsKeepOverrides`), and the linkage check searches the whole list although the file
documents a "prior element" rule, which is the same on the lists the tool builds but not on all
(`BuiltListConnected`, `OrderMatters`).

Counter ids, sample values and counts are unbounded integers. `NoOverflow` bounds the targets for
which the sample generator stays within 64 bits. Strings are sequences of characters; the last byte
of a VM reference is taken as its last character, which is the same for the ASCII ids vSphere uses.
Property values are numbers, flags or texts; the vSphere enumeration constants, which this
repository only names, are written as their wire strings.

## Model

| member | source | states |
|---|---|---|
| `Overrides.FindUpsert` | pkg/overrides/overrides.go:67-81 | a write to an entity's list changes the answer for its own key and for no other key |
| `Overrides.UpsertAt` | pkg/overrides/overrides.go:71-81 | an entry is replaced where it stands, else appended at the end |
| `Overrides.DistinctUpsert` | pkg/overrides/overrides.go:66-81 | replacing in place keeps at most one entry per key |
| `Overrides.FindLive` | pkg/overrides/overrides.go:131-159 | on a duplicate-free list, first match then expiry test equals filtering by expiry and searching |
| `Overrides.ReadersAgree` | pkg/overrides/overrides.go:131-159 | on any list, exactly when the two ways of reading agree |
| `Overrides.DuplicateSplitsReaders` | pkg/overrides/overrides.go:131-144 | with duplicates the two readers disagree: a concrete list |
| `Overrides.MorKeyInjective` | pkg/overrides/overrides.go:13-22 | for colon-free types, references share a key exactly when type and value agree; the server GUID never matters |
| `Overrides.MorKeyCollision` | pkg/overrides/overrides.go:20-22 | a colon in a type name can make two entities collide |
| `Overrides.MorTypesApart` | pkg/overrides/overrides.go:20-22 | exactly which pairs of type names never collide |
| `Overrides.Registry.SetMetric` | pkg/overrides/overrides.go:67-81 | the new table is the old one with the entry replaced or appended on the entity's list; the invariant is kept |
| `Overrides.Registry.GetMetrics` | pkg/overrides/overrides.go:84-96 | returns exactly the unexpired overrides, in order |
| `Overrides.Registry.ClearMetrics` | pkg/overrides/overrides.go:99-103 | removes the entity's metric overrides and no others |
| `Overrides.Registry.ClearAllMetrics` | pkg/overrides/overrides.go:106-110 | removes all metric overrides, keeps properties |
| `Overrides.Registry.SetProperty` | pkg/overrides/overrides.go:115-128 | as SetMetric, for properties |
| `Overrides.Registry.GetProperty` | pkg/overrides/overrides.go:131-144 | succeeds with v exactly when GetProperties lists (property, v), despite stopping at an expired first match |
| `Overrides.Registry.GetProperties` | pkg/overrides/overrides.go:147-159 | returns exactly the unexpired property overrides, in order |
| `Overrides.Registry.ClearProperties` | pkg/overrides/overrides.go:162-166 | removes the entity's property overrides and no others |
| `Overrides.Registry.ClearAll` | pkg/overrides/overrides.go:169-174 | leaves both tables empty |
| `Overrides.MetricOverrideFunc` | cmd/vcsim/main.go:121-129 | the hook returns the values of the entity's live override for counter and instance, else nothing |
| `Engine.RunLookup` | pkg/overrides/overrides.go:67-174 | after any list of writes and clears, each slot holds what the last event touching it left |
| `Engine.LastMeans` | pkg/overrides/overrides.go:67-174 | what "last event touching a slot" is, spelled out over positions in the list |
| `Engine.RunSound` | pkg/overrides/overrides.go:66-128 | every reachable registry has at most one entry per counter instance and per property |
| `Engine.DisjointCommute` | pkg/overrides/overrides.go:67-166 | event lists on disjoint entities commute: equal resulting states |
| `Samples.GenerateHighValues` | pkg/scenarios/manager.go:497-510 | the loop fills the twelve samples the laws below are about |
| `Samples.GenerateIncrementingValues` | pkg/scenarios/manager.go:513-519 | the loop fills the ramp rate, 2*rate, ... |
| `Samples.HighValuesAre` | pkg/scenarios/manager.go:497-510 | the twelve samples around a non-negative target, one by one, in terms of the integer percentage j of the target |
| `Samples.NegativeTarget` | pkg/scenarios/manager.go:497-510 | a negative target gives twelve zeros |
| `Samples.SamplesInBand` | pkg/scenarios/manager.go:497-510 | each sample lies in [target - 2j/3, target + j] and the clamp at zero never fires, for target >= 0 and jitter up to 100%, j being that percentage of the target |
| `Samples.SumOfHighValues` | pkg/scenarios/manager.go:497-510 | the samples sum to 12*target + j exactly when 2j/3 <= target; at most 100% jitter suffices |
| `Samples.HighValuesMonotone` | pkg/scenarios/manager.go:497-510 | samples are elementwise monotone in the target |
| `Samples.NoOverflow` | pkg/scenarios/manager.go:500-503 | no intermediate value leaves int64 for targets up to MaxInt64/100 |
| `Samples.SumOfRamp` | pkg/scenarios/manager.go:513-519 | closed form of the ramp's sum |
| `Samples.RampClimbs` | pkg/scenarios/manager.go:513-519 | the ramp starts at the rate and climbs by it at each interval |
| `Plans.RegisteredDispatch` | pkg/scenarios/manager.go:167-359 | the registered ids are exactly those with an activation branch; the default branch is dead (which branch each id has is stated by the theorems that name it, below) |
| `ActiveKeys.KeyCollision` | pkg/scenarios/manager.go:124-140 | for colon-free ids, keys are equal exactly when ids and space-separated words are |
| `ActiveKeys.KeyInjective` | pkg/scenarios/manager.go:124-140 | the key is injective on non-empty target lists without spaces |
| `ActiveKeys.SpaceCollision` | pkg/scenarios/manager.go:124 | with a space it is not: a concrete pair |
| `Lifecycle.ActivatedKeeps` | pkg/scenarios/manager.go:104-133 | a failed Activate leaves the active map alone, a successful one sets one entry, which records the request and the finishing time; entries stay under their own key with a registered id |
| `Lifecycle.DeactivatedKeeps` | pkg/scenarios/manager.go:136-153 | Deactivate succeeds exactly on active keys and removes only that key |
| `Lifecycle.AllClearedKeeps` | pkg/scenarios/manager.go:156-164 | ClearAll leaves registry and active map empty, and host and VM state unchanged |
| `Lifecycle.DeactivateHitsItsScenario` | pkg/scenarios/manager.go:136-153 | the entry a key finds has the request's id exactly when that id has no colon; then also its words and, without spaces, its targets |
| `Lifecycle.ColonCollision` | pkg/scenarios/manager.go:104-151 | from no active scenario: after one activation, a Deactivate whose id has a colon succeeds and removes it |
| `Cleanup.ClearAllVersusAll` | pkg/scenarios/manager.go:136-164 | against deactivating every active scenario in any order, when tasks complete: the active map is empty either way; same hosts and VMs exactly when no target awaits being restored; same registry exactly when every row is on a target those deactivations clear |
| `Cleanup.ClearAllVersusOne` | pkg/scenarios/manager.go:136-164 | against one Deactivate, when tasks complete: same hosts and VMs exactly when none of its targets is in the state it ends |
| `Cleanup.ClearAllVersusTasks` | pkg/scenarios/manager.go:136-164 | against one Deactivate, for any answers: same hosts and VMs exactly when no task of it is completed on an entity that awaits it |
| `Cleanup.ClearAllLeavesDown` | pkg/scenarios/manager.go:104-164 | after a successful partition, maintenance or crash, ClearAll leaves every target in that state and Deactivate leaves none |
| `Cleanup.ClearAllKeepsPartition` | pkg/scenarios/manager.go:155-164 | the witness: a network partition of one host, from any state |
| `ScenarioManager.Manager.constructor` | pkg/scenarios/manager.go:69-79 | a new manager has no active scenarios and defines exactly the registered ids |
| `ScenarioManager.Manager.SetHighCPUMetrics` | pkg/scenarios/manager.go:417-424 | writes the CPU override of its plan |
| `ScenarioManager.Manager.SetHighCPUReady` | pkg/scenarios/manager.go:427-433 | writes the ready-time override of its plan |
| `ScenarioManager.Manager.SetHighMemMetrics` | pkg/scenarios/manager.go:436-461 | writes usage, and balloon and swap when positive, in that order |
| `ScenarioManager.Manager.SetHighNetDrops` | pkg/scenarios/manager.go:483-494 | writes the two drop counters of its plan |
| `ScenarioManager.Manager.ActivateHostAndVms` | pkg/scenarios/scenarios_impl.go:18-44 | host writes, then each VM's; a missing VM list is not an error (CPU saturation; memory exhaustion and network saturation at lines 118-158 and 383-408 have the same shape) |
| `ScenarioManager.Manager.ActivateContention` | pkg/scenarios/scenarios_impl.go:49-70 | per host its CPU override, then the ready time of its VMs |
| `ScenarioManager.Manager.ActivateHostTask` | pkg/scenarios/scenarios_impl.go:344-494 | partition, PSOD and maintenance, with their error returns |
| `ScenarioManager.Manager.ActivateVmTask` | pkg/scenarios/scenarios_impl.go:568-615 | crash and snapshot growth, with their error returns |
| `ScenarioManager.Manager.DisconnectFirst` | pkg/scenarios/scenarios_impl.go:507-519 | the quota loop of the boot storm |
| `ScenarioManager.Manager.PowerDownRack` | pkg/scenarios/scenarios_impl.go:789-816 | the quota loop of the rack failure |
| `ScenarioManager.Manager.DisconnectHalf` | pkg/scenarios/scenarios_impl.go:759-767 | the split's first loop |
| `ScenarioManager.Manager.ActivateHaExhaustion` | pkg/scenarios/scenarios_impl.go:689-749 | the four steps of the HA cascade, in order |
| `ScenarioManager.Manager.LoadHosts` | pkg/scenarios/scenarios_impl.go:714-826 | the loops that load hosts[first..] |
| `ScenarioManager.Manager.ActivateOnCluster` | pkg/scenarios/scenarios_impl.go:498-826 | the cluster scenarios, with their error returns and the panic at a negative host_count |
| `ScenarioManager.Manager.ActivateScenario` | pkg/scenarios/manager.go:281-359 | dispatch and loop over targets; stops at the first failing target and keeps its earlier events |
| `ScenarioManager.Manager.DeactivateScenario` | pkg/scenarios/manager.go:362-376 | the four deactivate functions, which skip failures |
| `ScenarioManager.Manager.Activate` | pkg/scenarios/manager.go:104-133 | registry, tasks sent, host and VM state, active map and result are those of the atomic operation |
| `ScenarioManager.Manager.Deactivate` | pkg/scenarios/manager.go:136-153 | likewise for Deactivate |
| `ScenarioManager.Manager.ClearAllScenarios` | pkg/scenarios/manager.go:156-164 | likewise for ClearAll |
| `Footprints.PlanExpires` | pkg/overrides/overrides.go:84-96 | read at any later time, an activation's events show their last write in each slot until the shared expiry, then nothing there; untouched slots are as before |
| `Footprints.ActivationExpires` | pkg/scenarios/manager.go:113-116 | all overrides of an activation share one expiry; past it readers see the registry as without the activation less the slots it wrote, before it every surviving override; without a positive duration they stay |
| `Footprints.DeactivationEffect` | pkg/scenarios/scenarios_impl.go:830-895 | deactivation drops every override on each resolved target and none elsewhere; leaving maintenance drops none |
| `Footprints.ActivateThenDeactivate` | pkg/scenarios/manager.go:104-153 | for every scenario: cleared targets end empty, all other slots keep what the activation left |
| `Footprints.RoundTripSlot` | pkg/scenarios/scenarios_impl.go:73-840 | target-only scenarios, slot by slot: resolved targets end empty and everything else is as before, also after a failed activation |
| `Footprints.RoundTrip` | pkg/scenarios/scenarios_impl.go:73-840 | target-only scenarios: Activate then Deactivate restores all readings exactly when nothing was visible on the targets, sends no task and restores the active map |
| `Footprints.PlanShows` | pkg/scenarios/scenarios_impl.go:73-685 | after a target-only plan every listed override stands on every target, even when two targets name one entity |
| `Footprints.ActivationShows` | pkg/scenarios/scenarios_impl.go:73-685 | target-only scenarios: every listed override stands on every resolved target afterwards, other slots of the target are unchanged |
| `Footprints.TargetOnlyFrame` | pkg/scenarios/scenarios_impl.go:73-840 | a target-only operation changes no lookup outside its resolved targets |
| `Footprints.Commute` | pkg/scenarios/scenarios_impl.go:73-840 | target-only operations on disjoint targets: exactly when the order makes no difference to registry and vCenter state, and to the active map |
| `Footprints.CommuteInRun` | pkg/scenarios/manager.go:104-164 | swapping two such operations in a run makes no difference, whatever follows, exactly when they commute there |
| `Footprints.PlainCommute` | pkg/scenarios/manager.go:104-153 | non-empty target lists without spaces: on disjoint targets the order never matters |
| `Footprints.SameKeyOrderMatters` | pkg/scenarios/manager.go:136-153 | two Deactivates that share a key on disjoint targets do not commute when one has something to clear |
| `Footprints.RunConsistent` | pkg/scenarios/manager.go:104-164 | every run of manager operations keeps lists duplicate-free and active entries under their own keys |
| `Reach.ActivationReach` | pkg/scenarios/scenarios_impl.go:18-826 | no activation, succeeding or failing, changes an override, host or VM beyond its targets, their cluster hosts and the VMs on those |
| `Reach.AllTargetsOk` | pkg/scenarios/scenarios_impl.go:18-826 | an activation succeeds exactly when the plan of every target does, each at its own task number |
| `Reach.ActivationByTarget` | pkg/scenarios/scenarios_impl.go:18-826 | a successful activation treats each target as if it were the only one, on entities no other target reaches |
| `HostLoads.LoadRequest` | pkg/scenarios/scenarios_impl.go:18-408 | CPU, memory and network saturation succeed exactly when all hosts are found; on distinct entities the host shows exactly its writes and its i-th VM its own |
| `HostLoads.ContentionRequest` | pkg/scenarios/scenarios_impl.go:49-70 | CPU contention: on distinct entities the i-th host of a cluster shows its load and each of its VMs that host's ready time, and nothing else |
| `TargetScenarios.CpuVmCostopRequest` | pkg/scenarios/scenarios_impl.go:73-95 | succeeds exactly when all targets are found; each then answers, until the request lapses, exactly these readings: co-stop, ready time and erratic usage; its other overrides are as before |
| `TargetScenarios.CpuRpLimitRequest` | pkg/scenarios/scenarios_impl.go:98-112 | succeeds exactly when all targets are found; each then answers, until the request lapses, exactly these readings: usage at the limit; its other overrides are as before |
| `TargetScenarios.MemVmLeakRequest` | pkg/scenarios/scenarios_impl.go:161-187 | succeeds exactly when all targets are found; each then answers, until the request lapses, exactly these readings: growing memory and climbing usage; its other overrides are as before |
| `TargetScenarios.MemTpsFailureRequest` | pkg/scenarios/scenarios_impl.go:190-206 | succeeds exactly when all targets are found; each then answers, until the request lapses, exactly these readings: little shared memory, usage at 88 percent; its other overrides are as before |
| `TargetScenarios.MemNumaImbalanceRequest` | pkg/scenarios/scenarios_impl.go:209-225 | succeeds exactly when all targets are found; each then answers, until the request lapses, exactly these readings: remote swap-ins and ready time; its other overrides are as before |
| `TargetScenarios.DiskDsFullRequest` | pkg/scenarios/scenarios_impl.go:231-259 | succeeds exactly when all targets are found; each then answers, until the request lapses, exactly these readings: capacity 4 TiB, and free_percent percent of it free, never more than the capacity for 0 to 100; its other overrides are as before |
| `TargetScenarios.DiskLatencySpikeRequest` | pkg/scenarios/scenarios_impl.go:263-275 | succeeds exactly when all targets are found; each then answers, until the request lapses, exactly these readings: read latency follows read_latency_ms only, the other two write_latency_ms only; its other overrides are as before |
| `TargetScenarios.DiskDsInaccessibleRequest` | pkg/scenarios/scenarios_impl.go:279-292 | succeeds exactly when all targets are found; each then answers, until the request lapses, exactly these readings: not accessible; its other overrides are as before |
| `TargetScenarios.DiskIoSaturationRequest` | pkg/scenarios/scenarios_impl.go:295-315 | succeeds exactly when all targets are found; each then answers, until the request lapses, exactly these readings: many reads and writes, and latency; its other overrides are as before |
| `TargetScenarios.DiskApdRequest` | pkg/scenarios/scenarios_impl.go:318-338 | succeeds exactly when all targets are found; each then answers, until the request lapses, exactly these readings: not accessible, no reads, no writes; its other overrides are as before |
| `TargetScenarios.NetVmIsolationRequest` | pkg/scenarios/scenarios_impl.go:363-379 | succeeds exactly when all targets are found; each then answers, until the request lapses, exactly these readings: no traffic, drops; its other overrides are as before |
| `TargetScenarios.NetUplinkFailoverRequest` | pkg/scenarios/scenarios_impl.go:411-427 | succeeds exactly when all targets are found; each then answers, until the request lapses, exactly these readings: drops, and traffic coming back; its other overrides are as before |
| `TargetScenarios.HostVmotionFailRequest` | pkg/scenarios/scenarios_impl.go:533-547 | succeeds exactly when all targets are found; each then answers, until the request lapses, exactly these readings: vMotion off; its other overrides are as before |
| `TargetScenarios.HostTimeDriftRequest` | pkg/scenarios/scenarios_impl.go:550-563 | succeeds exactly when all targets are found; each then answers, until the request lapses, exactly these readings: NTP not running; its other overrides are as before |
| `TargetScenarios.VmToolsDownRequest` | pkg/scenarios/scenarios_impl.go:618-641 | succeeds exactly when all targets are found; each then answers, until the request lapses, exactly these readings: tools not running, heartbeat gray; its other overrides are as before |
| `TargetScenarios.VmInvalidStateRequest` | pkg/scenarios/scenarios_impl.go:644-657 | succeeds exactly when all targets are found; each then answers, until the request lapses, exactly these readings: orphaned; its other overrides are as before |
| `TargetScenarios.CascadeSanFailureRequest` | pkg/scenarios/scenarios_impl.go:663-685 | succeeds exactly when all targets are found; each then answers, until the request lapses, exactly these readings: not accessible, no reads, high latency; its other overrides are as before |
| `HostScenarios.CpuHostSaturationRequest` | pkg/scenarios/scenarios_impl.go:18-44 | likewise for the host and, by the last character of its reference, for each VM |
| `HostScenarios.MemHostExhaustionRequest` | pkg/scenarios/scenarios_impl.go:118-158 | likewise, with a balloon that varies from VM to VM |
| `HostScenarios.NetSaturationRequest` | pkg/scenarios/scenarios_impl.go:383-408 | likewise, with drops on the host and fewer on each VM |
| `HostScenarios.CpuClusterContentionRequest` | pkg/scenarios/scenarios_impl.go:49-70 | succeeds exactly when all clusters are found; usage of the i-th host and ready time of its VMs |
| `TaskScenarios.TasksLeaveOverrides` | pkg/scenarios/scenarios_impl.go:344-615 | partition, maintenance and snapshot growth change no override |
| `TaskScenarios.VmCrashAnswers` | pkg/scenarios/scenarios_impl.go:568-591 | a crash turns the heartbeat of every VM it gets to gray, also of the one whose power-off is rejected |
| `TaskScenarios.HostPsodAnswers` | pkg/scenarios/scenarios_impl.go:433-475 | after a PSOD every target is not responding with zero CPU and memory usage |
| `TaskScenarios.VmSnapshotGrowthRequest` | pkg/scenarios/scenarios_impl.go:594-615 | succeeds exactly when all VMs are found; the tasks sent are snapshots 1 to snapshot_count of each VM in turn, whatever the answers; each VM gains exactly the completed ones |
| `Cascades.PhaseOnHost` | pkg/scenarios/scenarios_impl.go:714-746 | on each of distinct hosts a loading loop leaves exactly that host's writes |
| `Cascades.HaOnSurvivor` | pkg/scenarios/scenarios_impl.go:714-746 | on every host from the third on the net effect is exactly the step-4 load; no step-2 value survives |
| `Cascades.HaOnSecond` | pkg/scenarios/scenarios_impl.go:714-739 | on the second host the net effect is its step-2 load and the not-responding mark |
| `Cascades.HaElsewhere` | pkg/scenarios/scenarios_impl.go:699-746 | the first host's overrides and all other entities are untouched |
| `Cascades.HaStepTwo` | pkg/scenarios/scenarios_impl.go:699-722 | between the two failures every other host shows the step-2 load |
| `Cascades.HaCascade` | pkg/scenarios/scenarios_impl.go:689-749 | hosts from the third on show exactly the step-4 load, the second its step-2 load and not responding, the first and all else untouched, whatever vCenter answers; of hosts and VMs, exactly those of the first two whose tasks complete go down |
| `Cascades.LoadMonotone` | pkg/scenarios/manager.go:417-461 | a load that is larger in every respect gives samples that are larger on every counter and interval |
| `Cascades.SurvivorsDominate` | pkg/scenarios/scenarios_impl.go:714-746 | each survivor's samples dominate the second host's on all five counters |
| `Quotas.TakenMeetsQuota` | pkg/scenarios/scenarios_impl.go:508-519 | a quota loop takes the shortest prefix with min(quota, accepting) accepting answers |
| `Quotas.BootCallsAre` | pkg/scenarios/scenarios_impl.go:507-519 | one call per host, in list order, until the quota is met |
| `Quotas.BootQuota` | pkg/scenarios/scenarios_impl.go:507-519 | exactly the first min(host_count, accepting) accepting hosts are asked successfully; of those asked, exactly the ones whose task completes end up disconnected, and nothing else goes down |
| `Quotas.BootPartition` | pkg/scenarios/scenarios_impl.go:507-527 | in the end state of a healthy cluster, disconnected and loaded hosts split it exactly when the first host_count tasks complete |
| `Quotas.BootStormLoads` | pkg/scenarios/scenarios_impl.go:521-527 | exact overrides after the boot storm |
| `Quotas.RackQuota` | pkg/scenarios/scenarios_impl.go:789-816 | hosts are visited in order until min(host_count, accepting) have accepted, and exactly the accepting ones visited are marked not responding |
| `Quotas.RackWorld` | pkg/scenarios/scenarios_impl.go:789-816 | of the hosts visited, exactly those whose disconnection completes are disconnected; of the VMs on them, also on hosts that reject, exactly those whose power-off completes are off |
| `Quotas.RackEndState` | pkg/scenarios/scenarios_impl.go:789-823 | exact overrides of every host after the rack failure |
| `Quotas.RackPartition` | pkg/scenarios/scenarios_impl.go:789-823 | in the end state, marked and loaded hosts split a healthy cluster exactly when the first host_count hosts accept; disconnected and loaded ones exactly when their tasks complete |
| `Quotas.SplitBrain` | pkg/scenarios/scenarios_impl.go:752-776 | the first n/2 hosts are asked to disconnect and exactly those whose task completes are, the other n - n/2 get drops, no other slot changes |
| `Quotas.SplitPartition` | pkg/scenarios/scenarios_impl.go:752-776 | in the end state, disconnected and dropping hosts split the cluster exactly when the first half's tasks complete |
| `ClusterRequests.NegativeHostCount` | pkg/scenarios/scenarios_impl.go:498-826 | on found clusters, a boot storm or rack failure succeeds exactly when host_count is not negative; a negative one changes nothing |
| `ClusterRequests.BootRequest` | pkg/scenarios/scenarios_impl.go:498-530 | on several clusters, each separate one ends as after a boot storm of its own |
| `ClusterRequests.RackRequest` | pkg/scenarios/scenarios_impl.go:780-826 | likewise for the rack failure, including the VMs |
| `ClusterRequests.SplitRequest` | pkg/scenarios/scenarios_impl.go:752-778 | a split succeeds exactly when all clusters are found, and cuts each separate one |
| `ClusterRequests.HaSucceeds` | pkg/scenarios/scenarios_impl.go:689-697 | the HA cascade succeeds exactly when every target has at least three hosts |
| `ClusterRequests.HaRequest` | pkg/scenarios/scenarios_impl.go:689-749 | on several clusters, each separate one ends as after a cascade of its own, down to which hosts and VMs go down |
| `ClusterRequests.HostsKeepOverrides` | pkg/scenarios/scenarios_impl.go:830-840 | deactivating a cluster scenario leaves all overrides that do not stand on a target itself |
| `StateChanges.StateOutcome` | pkg/scenarios/scenarios_impl.go:344-895 | partition, maintenance and crash for any answers: when Activate succeeds, who ends in the state after it, also when it fails, and after Deactivate, and exactly when all is as before |
| `StateChanges.StateRoundTrip` | pkg/scenarios/scenarios_impl.go:344-895 | partition, maintenance and crash: when tasks complete, Deactivate takes the targets out of the state and changes nothing else; all is as before exactly when no target was in the state |
| `StateChanges.PsodOutcome` | pkg/scenarios/scenarios_impl.go:433-860 | a PSOD for any answers: when Activate succeeds, which hosts and VMs go down, also when it fails, and which hosts Deactivate reconnects |
| `StateChanges.PsodRequest` | pkg/scenarios/scenarios_impl.go:433-860 | a PSOD of any hosts, when tasks complete: Activate takes them and their VMs down, Deactivate reconnects the hosts and leaves the VMs off; exactly when all is as before |
| `Interleaving.RunsRefineAtomic` | pkg/scenarios/manager.go:104-164 | every interleaving equals the finished operations run atomically in lock order, plus a prefix of the one in progress |
| `Schedules.RunsFollowActions` | pkg/scenarios/manager.go:104-164 | the actions of a run alone determine it: the clock is the start plus the ticks, the operations are those of the spans with the clock of their own Begin and Finish, the book is theirs, and during one a reader sees a prefix of its events |
| `Schedules.BeginsTakeFreeLock` | pkg/scenarios/manager.go:104-164 | the operations that run are exactly those whose Begin came while the lock was free |
| `Schedules.SpansInTurn` | pkg/scenarios/manager.go:104-164 | no two operations overlap |
| `Schedules.SoloRun` | pkg/scenarios/manager.go:104-164 | from any idle state, a Begin, its events and Finish do the whole operation at that clock |
| `Schedules.SoloActivationLasts` | pkg/scenarios/manager.go:113-116 | an activation shows its overrides for exactly its duration from its Begin |
| `Interleaving.RunsStayConsistent` | pkg/scenarios/manager.go:104-164 | no interleaving, even mid-operation, breaks uniqueness or the active map |
| `Interleaving.ReaderSeesLastWrite` | pkg/overrides/overrides.go:67-174 | over every interleaving a reader finds the last write to the slot since its last clear, if unexpired |
| `Interleaving.QueryPerfAnswersLastWrite` | cmd/vcsim/main.go:121-129 | QueryPerf answers with the values of that write, else nothing |
| `Schedules.QueryPerfOfActions` | cmd/vcsim/main.go:121-129 | the same read off the actions alone: their writes and their clock |
| `Decimal.ValueOfDec` | pkg/inventory/builder.go:101-134 | %d reads back to the number printed |
| `Decimal.DecOfValue` | pkg/inventory/builder.go:101-134 | a digit string without leading zero is what %d prints for its value |
| `Decimal.PadDecInjective` | pkg/inventory/builder.go:519-635 | %02d and %03d are injective, also past their width |
| `Inventory.SimpleConfig` | pkg/inventory/builder.go:77-173 | the nested loops build the layout the lemmas below are about |
| `Inventory.BuildPools` | pkg/inventory/builder.go:109-131 | the pools loop with its running remainder |
| `Inventory.PoolsLookLike` | pkg/inventory/builder.go:109-131 | which pools a cluster has, with their names, prefixes and shares; the database pool takes the rest |
| `Inventory.ClustersLookLike` | pkg/inventory/builder.go:99-139 | names, host prefix and host count of cluster c of datacenter d |
| `Inventory.StoresLookLike` | pkg/inventory/builder.go:141-170 | datastores and switches of datacenter d |
| `Inventory.PoolsShareAll` | pkg/inventory/builder.go:109-131 | a cluster's pools hold all its VMs, none is empty, three differ by at most two |
| `Inventory.LayoutTotals` | pkg/inventory/builder.go:77-173 | total VMs and hosts are the products of the clamped inputs |
| `Inventory.HostNameCollision` | pkg/inventory/builder.go:519 | exactly which prefixes and indices print the same host name |
| `Inventory.HostNamesApart` | pkg/inventory/builder.go:519 | two prefixes never share a host name exactly when neither is the other followed by a number |
| `Inventory.HostNameInjective` | pkg/inventory/builder.go:519 | in particular when neither ends in a digit |
| `Inventory.DigitPrefixCollision` | pkg/inventory/builder.go:519 | a concrete collision |
| `Inventory.VmNameInjective` | pkg/inventory/builder.go:128-635 | VM names are pairwise distinct over datacenters, clusters, pools and indices |
| `Inventory.LayoutVmNames` | pkg/inventory/builder.go:77-635 | all VM names of a flat layout are pairwise distinct |
| `Inventory.PrintedWidths` | pkg/inventory/builder.go:519-635 | %02d and %03d: widths, separator, and the number read back |
| `HostProfiles.ClashIs` | pkg/inventory/builder.go:516-519 | two clusters print a common host name exactly when they clash within their host counts |
| `HostProfiles.NoClashIs` | pkg/inventory/builder.go:516-519 | all host names of a configuration differ exactly when no two clusters clash |
| `HostProfiles.LayoutPrefixesGood` | pkg/inventory/builder.go:99-139 | no flat layout has clashing clusters |
| `HostProfiles.DefaultPrefixesGood` | pkg/inventory/builder.go:180-395 | nor has the default layout |
| `HostProfiles.LookupsRight` | pkg/inventory/hardware.go:23-34 | lookups answer right for all registered hosts exactly when equally named hosts have equal profiles |
| `HostProfiles.ProfilesAlternate` | pkg/inventory/hardware.go:404-414 | in a known cluster odd hosts get the first profile and even ones the second; others get the fallback |
| `HostProfiles.NoClashFindsOwn` | pkg/inventory/builder.go:516-531 | without clashes every host registered so far finds its own profile, at every point of Build |
| `HostProfiles.ProfileRegistry.BuildCluster` | pkg/inventory/builder.go:477-554 | registers the cluster's hosts in order, exactly those whose AddHost was begun when the cluster was done or a step failed; each is created under its own profile |
| `HostProfiles.ProfileRegistry.Build` | pkg/inventory/builder.go:444-554 | the same over the whole configuration, whichever step stops it |
| `HostProfiles.AllByPrefix` | pkg/inventory/builder.go:444-554 | what Build has registered is a beginning of all hosts in order, and all of them when no step fails |
| `HostProfiles.StepOfHost` | pkg/inventory/builder.go:454-554 | a host is registered exactly when the step that adds it was begun |
| `HostProfiles.BuildFindsOwn` | pkg/inventory/builder.go:444-554 | without clashes every host registered finds its own profile, wherever Build stops |
| `Sensors.BuildSensors` | pkg/inventory/sensors.go:48-127 | 26 + 3*sockets + DIMMs sensors after clamping, position by position |
| `Sensors.SensorPositions` | pkg/inventory/sensors.go:54-113 | which sensor stands where, for any number of sockets and DIMMs |
| `Sensors.SensorCounts` | pkg/inventory/sensors.go:49-109 | sockets at least one; a DIMM sensor per full 32 GiB, from 4 to 24 |
| `Sensors.PowerAddsUp` | pkg/inventory/sensors.go:79-81 | the total power reading is the sum of the supplies |
| `Sensors.SensorNamesDistinct` | pkg/inventory/sensors.go:54-126 | all names of a host are distinct, for any socket count and memory |
| `Sensors.CategoriesCovered` | pkg/inventory/sensors.go:12-124 | every documented category but "other" has a sensor; only the first sensor is outside them |
| `Topology.BuildList` | cmd/topoxml/main.go:79-108 | the nested loops build the list the lemmas below are about |
| `Topology.ListHolds` | cmd/topoxml/main.go:79-108 | exactly which elements the list holds, field by field |
| `Topology.ListLength` | cmd/topoxml/main.go:79-108 | and how many |
| `Topology.CheckLinkage` | cmd/topoxml/main.go:119-139 | linked and orphan count the non-root elements with and without a parent; with the roots they make up the list |
| `Topology.NoOrphansMeans` | cmd/topoxml/main.go:119-139 | no orphans means that every non-root finds an element of its parent type with its parent id |
| `Topology.BuiltListConnected` | cmd/topoxml/main.go:79-139 | no orphans for any inventory, and every parent is strictly earlier |
| `Topology.OrderMatters` | cmd/topoxml/main.go:116-131 | on other lists the search and the documented rule differ |
| `Topology.RootsAreDatacenters` | cmd/topoxml/main.go:82-123 | roots are the datacenters plus the children whose parent id is "-1" |
| `Topology.NoFalseRoots` | cmd/topoxml/main.go:82-123 | there are no such children exactly when no datacenter with a cluster, and no listed cluster with a host, has the id "-1" |
| `Topology.Diagnose` | cmd/topoxml/main.go:79-140 | the summary: no orphans, and roots equal datacenters exactly under that condition on the inventory |

## Left out

- SOAP and HTTP servers, JSON decoding, TLS, signals and logging: plumbing. The API's check for a non-empty id and target list appears as a hypothesis where it matters.
- The finder, tasks and simulator of govmomi: replaced by arbitrary finder answers and an arbitrary answer per task; a completed task is assumed to set or clear the state it is named after.
- Listing operations (ListDefinitions, ListActive, ActiveMetricKeys, ActivePropertyKeys): they return the registered ids, the active entries or the keys present, and no other operation reads their answers.
- Error texts: an activation succeeds, returns an error or panics; a panic releases the manager lock, and net/http goes on serving.
- Fixed data: scenario names and descriptions, hardware profile constants, the default layout beyond its host prefixes.
- HardwareProfile.Apply and ApplySensors: field copying.
- What Build's other steps create: they appear as steps that may fail, the datastore as one step and each resource pool as one; a VM that cannot be created is only logged.
- Cluster specs, temporary directories, datastores and switches on the simulator: I/O; the configured datastore and switch lists are modelled, the source never builds them.
- Number parsing: request parameters are integers or absent; the conversion of a JSON number to an int is not modelled.
- Map iteration and memory aliasing of sample slices: the source never mutates a stored slice, so values are copied in the model.
- 64-bit wrap-around outside the sample generator, in particular of durations and user-supplied percentages, because the source has no handling to model.
- The registry's read-write lock: every registry method is one atomic step, which is what the lock provides.
