/** What each scenario of pkg/scenarios/scenarios_impl.go does, as a list of events in program order.
    A plan depends on the finder's answers and on the oracle for the tasks it sends (numbered from
    `n`), never on host or VM state. The manager's methods are proved to carry out these plans. */
module Plans {
  import opened Wrappers
  import opened Overrides
  import opened Engine
  import opened Samples

  datatype Scenario =
    // target-only: every write goes to the resolved target
    | CpuVmCostop | CpuRpLimit
    | MemVmLeak | MemTpsFailure | MemNumaImbalance
    | DiskDsFull | DiskLatencySpike | DiskDsInaccessible | DiskIoSaturation | DiskApd
    | NetVmIsolation | NetUplinkFailover
    | HostVmotionFail | HostTimeDrift
    | VmToolsDown | VmInvalidState
    | CascadeSanFailure
    // a host and the VMs on it
    | CpuHostSaturation | MemHostExhaustion | NetSaturation
    // tasks sent to vCenter
    | NetMgmtPartition | HostPsod | HostMaintenance | VmCrash | VmSnapshotGrowth
    // the hosts of a cluster
    | CpuClusterContention | HostBootStorm | CascadeHaExhaustion | CascadeNetworkSplit | CascadeRackPower

  predicate TargetOnly(sc: Scenario) {
    || sc.CpuVmCostop? || sc.CpuRpLimit? || sc.MemVmLeak? || sc.MemTpsFailure? || sc.MemNumaImbalance?
    || sc.DiskDsFull? || sc.DiskLatencySpike? || sc.DiskDsInaccessible? || sc.DiskIoSaturation? || sc.DiskApd?
    || sc.NetVmIsolation? || sc.NetUplinkFailover? || sc.HostVmotionFail? || sc.HostTimeDrift? || sc.VmToolsDown?
    || sc.VmInvalidState? || sc.CascadeSanFailure?
  }

  predicate HostAndVms(sc: Scenario) {
    || sc.CpuHostSaturation? || sc.MemHostExhaustion? || sc.NetSaturation?
  }

  predicate HostTask(sc: Scenario) {
    || sc.NetMgmtPartition? || sc.HostPsod? || sc.HostMaintenance?
  }

  predicate VmTask(sc: Scenario) {
    || sc.VmCrash? || sc.VmSnapshotGrowth?
  }

  predicate OnCluster(sc: Scenario) {
    || sc.CpuClusterContention? || sc.HostBootStorm? || sc.CascadeHaExhaustion?
    || sc.CascadeNetworkSplit? || sc.CascadeRackPower?
  }

  lemma KindsApart(sc: Scenario)
    ensures TargetOnly(sc) ==> !HostAndVms(sc) && !OnCluster(sc) && !VmTask(sc) && !HostTask(sc)
    ensures HostAndVms(sc) ==> !OnCluster(sc) && !VmTask(sc) && !HostTask(sc)
  {
  }

  /** Request parameters that carry a number; anything else leaves the default. */
  type Params = map<string, int>

  function ParamInt(params: Params, key: string, defaultVal: int): int {
    if key in params then params[key] else defaultVal
  }

  /** How a loop over targets ends: through all of them, with an error return, or in a panic. */
  datatype Ending = Completed | Errored | Panicked

  datatype Plan = Plan(events: seq<Event>, end: Ending) {
    predicate Ok() { end == Completed }
  }

  function EndIf(completed: bool): Ending {
    if completed then Completed else Errored
  }

  // ---------- Writes ----------

  /** Overrides that all carry the same expiry. */
  predicate Timed(ws: seq<Override>, x: Expiry) {
    forall o :: o in ws ==> ExpiryOf(o) == x
  }

  function M(counterID: int, values: seq<int>, x: Expiry): Override {
    Metric(Entry(Counter(counterID, ""), values, x))
  }

  function P(property: string, value: PropValue, x: Expiry): Override {
    Property(Entry(property, value, x))
  }

  function HighCpu(cpuPercent: int, x: Expiry): (ws: seq<Override>)
    ensures Timed(ws, x)
  {
    [M(2, HighValues(cpuPercent * 100, 5), x)]
  }

  function HighReady(readyMs: int, x: Expiry): (ws: seq<Override>)
    ensures Timed(ws, x)
  {
    [M(12, HighValues(readyMs, 20), x)]
  }

  function HighMem(memPercent: int, balloonMB: int, swapRate: int, x: Expiry): (ws: seq<Override>)
    ensures Timed(ws, x)
  {
    [M(24, HighValues(memPercent * 100, 3), x)]
    + (if balloonMB > 0 then [M(90, HighValues(balloonMB * 1024, 10), x)] else [])
    + (if swapRate > 0 then
         [M(85, HighValues(swapRate, 30), x), M(86, HighValues(Quot(swapRate, 2), 30), x)]
       else [])
  }

  function HighLatency(readLatency: int, writeLatency: int, x: Expiry): (ws: seq<Override>)
    ensures Timed(ws, x)
  {
    [M(449, HighValues(readLatency, 15), x), M(453, HighValues(writeLatency, 15), x),
     M(133, HighValues(writeLatency * 2, 20), x)]
  }

  function NetDrops(dropsPerSec: int, x: Expiry): (ws: seq<Override>)
    ensures Timed(ws, x)
  {
    [M(460, IncrementingValues(dropsPerSec, 10), x), M(461, IncrementingValues(Quot(dropsPerSec, 2), 10), x)]
  }

  function NotResponding(x: Expiry): Override {
    P("runtime.connectionState", Text("notResponding"), x)
  }

  const DATASTORE_BYTES: int := 4096 * 1024 * 1024 * 1024

  /** The writes of a scenario on its resolved target; of the host-and-VM scenarios, on the host. */
  function TargetWrites(sc: Scenario, params: Params, x: Expiry): (ws: seq<Override>)
    requires TargetOnly(sc) || HostAndVms(sc)
    ensures Timed(ws, x)
  {
    match sc
    case CpuVmCostop =>
      [M(13, HighValues(12000, 25), x)] + HighReady(10000, x)
      + [M(2, [9500, 2000, 9800, 1500, 9200, 3000, 9900, 1000, 8500, 4000, 9700, 2500], x)]
    case CpuRpLimit => [M(6, HighValues(8000, 3), x)]
    case MemVmLeak =>
      [M(25, IncrementingValues(500 * 1024, 12), x), M(26, IncrementingValues(480 * 1024, 12), x),
       M(24, [5000, 5500, 6000, 6500, 7000, 7500, 8000, 8500, 9000, 9200, 9500, 9800], x)]
    case MemTpsFailure => [M(36, HighValues(1024, 5), x)] + HighMem(88, 0, 0, x)
    case MemNumaImbalance => [M(37, HighValues(800, 20), x)] + HighReady(3000, x)
    case DiskDsFull =>
      [P("summary.freeSpace", Number(Quot(DATASTORE_BYTES * ParamInt(params, "free_percent", 2), 100)), x),
       P("summary.capacity", Number(DATASTORE_BYTES), x)]
    case DiskLatencySpike =>
      HighLatency(ParamInt(params, "read_latency_ms", 40), ParamInt(params, "write_latency_ms", 60), x)
    case DiskDsInaccessible => [P("summary.accessible", Flag(false), x)]
    case DiskIoSaturation =>
      [M(172, HighValues(5000, 15), x), M(173, HighValues(3000, 15), x)] + HighLatency(15, 25, x)
    case DiskApd => [P("summary.accessible", Flag(false), x), M(172, [0], x), M(173, [0], x)]
    case NetVmIsolation => [M(195, [0], x)] + NetDrops(500, x)
    case NetUplinkFailover =>
      NetDrops(1000, x) + [M(195, [0, 0, 500, 2000, 4000, 4500, 4800, 4900, 5000, 5000, 5000, 5000], x)]
    case HostVmotionFail => [P("summary.config.vmotionEnabled", Flag(false), x)]
    case HostTimeDrift => [P("config.dateTimeInfo.ntpConfig.running", Flag(false), x)]
    case VmToolsDown =>
      [P("guest.toolsRunningStatus", Text("guestToolsNotRunning"), x),
       P("guest.toolsStatus", Text("toolsNotRunning"), x),
       P("guestHeartbeatStatus", Text("gray"), x)]
    case VmInvalidState => [P("runtime.connectionState", Text("orphaned"), x)]
    case CascadeSanFailure =>
      [P("summary.accessible", Flag(false), x), M(172, [0], x), M(170, HighValues(500, 30), x)]
    case CpuHostSaturation => HighCpu(ParamInt(params, "cpu_percent", 97), x)
    case MemHostExhaustion =>
      HighMem(ParamInt(params, "mem_percent", 98), 4096, 2000, x) + [M(80, HighValues(500, 20), x)]
    case NetSaturation => [M(195, HighValues(9500, 3), x)] + NetDrops(200, x)
  }

  function LastByte(vm: VmRef): int {
    vm.value[|vm.value| - 1] as int
  }

  /** The writes of a host-and-VM scenario on the i-th VM of the host. */
  function VmWrites(sc: Scenario, i: nat, vm: VmRef, x: Expiry): (ws: seq<Override>)
    requires HostAndVms(sc)
    ensures Timed(ws, x)
  {
    match sc
    case CpuHostSaturation => HighReady(8000 + LastByte(vm) * 500, x) + HighCpu(70 + LastByte(vm) % 20, x)
    case MemHostExhaustion =>
      [M(65, HighValues((512 + (i % 4) * 256) * 1024, 10), x), M(35, HighValues(256 * 1024, 15), x)]
    case NetSaturation => NetDrops(50, x)
  }

  /** The loops over a cluster's hosts that only write. */
  datatype Phase = HaOverload | HaCritical | BootOverload | SplitDrops | RackLoad

  function PhaseWrites(ph: Phase, i: nat, x: Expiry): (ws: seq<Override>)
    ensures Timed(ws, x)
  {
    match ph
    case HaOverload => HighCpu(88 + i * 2, x) + HighMem(85 + i * 2, 2048, 500, x)
    case HaCritical => HighCpu(96 + i % 4, x) + HighMem(97, 4096, 3000, x)
    case BootOverload => HighCpu(85 + i % 3 * 5, x) + HighMem(85 + i % 3 * 5 - 5, 2048, 1000, x)
    case SplitDrops => NetDrops(300, x)
    case RackLoad => HighCpu(90 + i % 5, x) + HighMem(88 + i % 5, 2048, 1500, x)
  }

  // ---------- Events ----------

  /** Tasks, and overrides that all carry the same expiry; no clears. */
  predicate Uniform(es: seq<Event>, x: Expiry) {
    forall e :: e in es ==> e.Call? || (e.Set? && ExpiryOf(e.o) == x)
  }

  function On(ref: Ref, ws: seq<Override>): (es: seq<Event>)
    ensures |es| == |ws| && forall i :: 0 <= i < |ws| ==> es[i] == Set(ref, ws[i])
    ensures forall e :: e in es ==> e.Set? && e.ref == ref && e.o in ws
  {
    seq(|ws|, i requires 0 <= i < |ws| => Set(ref, ws[i]))
  }

  function OnHosts(hosts: seq<Host>, ph: Phase, i: nat, x: Expiry): (es: seq<Event>)
    ensures Uniform(es, x)
    decreases |hosts| - i
  {
    if i >= |hosts| then [] else On(hosts[i].ref, PhaseWrites(ph, i, x)) + OnHosts(hosts, ph, i + 1, x)
  }

  function OnVms(sc: Scenario, vms: seq<VmRef>, i: nat, x: Expiry): (es: seq<Event>)
    requires HostAndVms(sc)
    ensures Uniform(es, x)
    decreases |vms| - i
  {
    if i >= |vms| then [] else On(vms[i], VmWrites(sc, i, vms[i], x)) + OnVms(sc, vms, i + 1, x)
  }

  function Ask(env: Env, n: nat, op: Op, ref: Ref): Event {
    Call(op, ref, env.oracle(n, op, ref))
  }

  /** Power off every VM of a list, whatever vCenter answers. */
  function PowerOffs(env: Env, vms: seq<VmRef>, n: nat): (es: seq<Event>)
    ensures forall e :: e in es ==> e.Call? && e.op == PowerOff
  {
    if vms == [] then [] else [Ask(env, n, PowerOff, vms[0])] + PowerOffs(env, vms[1..], n + 1)
  }

  function Snapshots(env: Env, vm: VmRef, i: nat, count: int, n: nat): (es: seq<Event>)
    ensures forall e :: e in es ==> e.Call? && e.op.CreateSnapshot?
    decreases count - i
  {
    if i > count then [] else [Ask(env, n, CreateSnapshot(i), vm)] + Snapshots(env, vm, i + 1, count, n + 1)
  }

  function ReadyOnVms(vms: seq<VmRef>, readyMs: int, i: nat, x: Expiry): (es: seq<Event>)
    ensures Uniform(es, x)
    decreases |vms| - i
  {
    if i >= |vms| then [] else On(vms[i], HighReady(readyMs, x)) + ReadyOnVms(vms, readyMs, i + 1, x)
  }

  function ContentionOn(env: Env, hosts: seq<Host>, i: nat, x: Expiry): (es: seq<Event>)
    ensures Uniform(es, x)
    decreases |hosts| - i
  {
    if i >= |hosts| then []
    else On(hosts[i].ref, HighCpu(82 + i * 3 % 18, x))
         + ReadyOnVms(VmsOf(env, hosts[i].path), 5000 + i * 1000, 0, x)
         + ContentionOn(env, hosts, i + 1, x)
  }

  /** Boot storm, first loop: disconnect hosts in order until `quota` calls were accepted. */
  function BootCalls(env: Env, hosts: seq<Host>, quota: int, n: nat): (es: seq<Event>)
    ensures forall e :: e in es ==> e.Call?
  {
    if hosts == [] || quota <= 0 then []
    else
      var e := Ask(env, n, Disconnect, hosts[0].ref);
      [e] + BootCalls(env, hosts[1..], if e.outcome == Rejected then quota else quota - 1, n + 1)
  }

  /** Network split, first loop. */
  function SplitCalls(env: Env, hosts: seq<Host>, i: nat, half: nat, n: nat): (es: seq<Event>)
    requires half <= |hosts|
    ensures forall e :: e in es ==> e.Call?
    decreases half - i
  {
    if i >= half then [] else [Ask(env, n, Disconnect, hosts[i].ref)] + SplitCalls(env, hosts, i + 1, half, n + 1)
  }

  /** Power off a host's VMs and disconnect it, ignoring every answer. */
  function HostFails(env: Env, host: Host, n: nat): (es: seq<Event>)
    ensures es != [] && forall e :: e in es ==> e.Call?
  {
    var offs := PowerOffs(env, VmsOf(env, host.path), n);
    offs + [Ask(env, n + Calls(offs), Disconnect, host.ref)]
  }

  /** Does vCenter accept the disconnection of a host, sent after its VMs' power-offs? */
  predicate RackAccepts(env: Env, host: Host, n: nat) {
    var offs := PowerOffs(env, VmsOf(env, host.path), n);
    env.oracle(n + Calls(offs), Disconnect, host.ref) != Rejected
  }

  /** One host of the rack: it fails, and is marked as not responding if the call was accepted. */
  function RackHost(env: Env, host: Host, x: Expiry, n: nat): (es: seq<Event>)
    ensures Uniform(es, x)
  {
    HostFails(env, host, n) + (if RackAccepts(env, host, n) then On(host.ref, [NotResponding(x)]) else [])
  }

  /** Rack power, first loop: as in the boot storm, until `quota` disconnections were accepted. */
  function RackCalls(env: Env, hosts: seq<Host>, quota: int, x: Expiry, n: nat): (es: seq<Event>)
    ensures Uniform(es, x)
    decreases hosts
  {
    if hosts == [] || quota <= 0 then []
    else
      var here := RackHost(env, hosts[0], x, n);
      here + RackCalls(env, hosts[1..], if RackAccepts(env, hosts[0], n) then quota - 1 else quota, x, n + Calls(here))
  }

  function HaEvents(env: Env, hosts: seq<Host>, x: Expiry, n: nat): (es: seq<Event>)
    requires |hosts| >= 3
    ensures Uniform(es, x)
  {
    var fail1 := HostFails(env, hosts[0], n);
    var fail2 := HostFails(env, hosts[1], n + Calls(fail1));
    fail1 + OnHosts(hosts, HaOverload, 1, x) + fail2
    + On(hosts[1].ref, [NotResponding(x)]) + OnHosts(hosts, HaCritical, 2, x)
  }

  // ---------- Activation ----------

  /** The host-state scenarios: the finder's host, then tasks. */
  function HostTaskPlan(env: Env, sc: Scenario, target: string, x: Expiry, n: nat): (p: Plan)
    requires HostTask(sc)
    ensures Uniform(p.events, x)
  {
    if target !in env.hosts then Plan([], Errored)
    else
      var ref := env.hosts[target];
      match sc
      case NetMgmtPartition =>
        var e := Ask(env, n, Disconnect, ref); Plan([e], EndIf(e.outcome == Done))
      case HostMaintenance =>
        var e := Ask(env, n, EnterMaintenance, ref); Plan([e], EndIf(e.outcome == Done))
      case HostPsod =>
        var offs := PowerOffs(env, VmsOf(env, target), n);
        var e := Ask(env, n + Calls(offs), Disconnect, ref);
        if e.outcome != Done then Plan(offs + [e], Errored)
        else Plan(offs + [e] + On(ref, [NotResponding(x), M(2, [0], x), M(24, [0], x)]), Completed)
  }

  function VmTaskPlan(env: Env, sc: Scenario, target: string, params: Params, x: Expiry, n: nat): (p: Plan)
    requires VmTask(sc)
    ensures Uniform(p.events, x)
  {
    if target !in env.vms then Plan([], Errored)
    else
      var ref := env.vms[target];
      match sc
      case VmCrash =>
        var e := Ask(env, n, PowerOff, ref);
        Plan(On(ref, [P("guestHeartbeatStatus", Text("gray"), x)]) + [e], EndIf(e.outcome != Rejected))
      case VmSnapshotGrowth => Plan(Snapshots(env, ref, 1, ParamInt(params, "snapshot_count", 5), n), Completed)
  }

  /** A negative host_count indexes hosts[-1] in the second loop: a panic after no event at all. */
  function ClusterPlan(env: Env, sc: Scenario, target: string, params: Params, x: Expiry, n: nat): (p: Plan)
    requires OnCluster(sc)
    ensures Uniform(p.events, x)
  {
    if target !in env.clusterHosts then Plan([], Errored)
    else
      var hosts := env.clusterHosts[target];
      match sc
      case CpuClusterContention => Plan(ContentionOn(env, hosts, 0, x), Completed)
      case HostBootStorm =>
        var hostCount := ParamInt(params, "host_count", 3);
        if hostCount < 0 then Plan([], Panicked)
        else Plan(BootCalls(env, hosts, hostCount, n) + OnHosts(hosts, BootOverload, hostCount, x), Completed)
      case CascadeHaExhaustion =>
        if |hosts| < 3 then Plan([], Errored) else Plan(HaEvents(env, hosts, x, n), Completed)
      case CascadeNetworkSplit =>
        var half := |hosts| / 2;
        Plan(SplitCalls(env, hosts, 0, half, n) + OnHosts(hosts, SplitDrops, half, x), Completed)
      case CascadeRackPower =>
        var hostCount := ParamInt(params, "host_count", 4);
        if hostCount < 0 then Plan([], Panicked)
        else Plan(RackCalls(env, hosts, hostCount, x, n) + OnHosts(hosts, RackLoad, hostCount, x), Completed)
  }

  /** One pass through a scenario's loop over its targets. */
  function TargetPlan(env: Env, sc: Scenario, target: string, params: Params, x: Expiry, n: nat): (p: Plan)
    ensures Uniform(p.events, x)
  {
    if TargetOnly(sc) then
      if target !in env.objects then Plan([], Errored)
      else Plan(On(env.objects[target], TargetWrites(sc, params, x)), Completed)
    else if HostAndVms(sc) then
      if target !in env.objects then Plan([], Errored)
      else Plan(On(env.objects[target], TargetWrites(sc, params, x)) + OnVms(sc, VmsOf(env, target), 0, x), Completed)
    else if OnCluster(sc) then ClusterPlan(env, sc, target, params, x, n)
    else if VmTask(sc) then VmTaskPlan(env, sc, target, params, x, n)
    else HostTaskPlan(env, sc, target, x, n)
  }

  /** All targets in order, stopping at the first that fails; its events stay. */
  function ActivationPlan(env: Env, sc: Scenario, targets: seq<string>, params: Params, x: Expiry, n: nat): (p: Plan)
    ensures Uniform(p.events, x)
  {
    if targets == [] then Plan([], Completed)
    else
      var p := TargetPlan(env, sc, targets[0], params, x, n);
      if !p.Ok() then p
      else
        var q := ActivationPlan(env, sc, targets[1..], params, x, n + Calls(p.events));
        Plan(p.events + q.events, q.end)
  }

  lemma ActivationCons(env: Env, sc: Scenario, targets: seq<string>, params: Params, x: Expiry, n: nat)
    requires targets != []
    ensures var p, all := TargetPlan(env, sc, targets[0], params, x, n), ActivationPlan(env, sc, targets, params, x, n);
            var q := ActivationPlan(env, sc, targets[1..], params, x, n + Calls(p.events));
            all == if p.Ok() then Plan(p.events + q.events, q.end) else p
  {
    hide TargetPlan, Uniform, Calls;
  }

  lemma ActivationOfNone(env: Env, sc: Scenario, params: Params, x: Expiry, n: nat)
    ensures ActivationPlan(env, sc, [], params, x, n) == Plan([], Completed)
  {
  }

  // ---------- Deactivation ----------

  function ClearBoth(ref: Ref): seq<Event> {
    [ClearMetrics(ref), ClearProperties(ref)]
  }

  /** Finder errors and rejected tasks are skipped: deactivation never fails. */
  function DeactivateTarget(env: Env, sc: Option<Scenario>, target: string, n: nat): seq<Event> {
    if sc == Some(HostPsod) || sc == Some(NetMgmtPartition) then
      if target !in env.hosts then []
      else ClearBoth(env.hosts[target]) + [Ask(env, n, Reconnect, env.hosts[target])]
    else if sc == Some(HostMaintenance) then
      if target !in env.hosts then [] else [Ask(env, n, ExitMaintenance, env.hosts[target])]
    else if sc == Some(VmCrash) then
      if target !in env.vms then []
      else ClearBoth(env.vms[target]) + [Ask(env, n, PowerOn, env.vms[target])]
    else
      if target !in env.objects then [] else ClearBoth(env.objects[target])
  }

  function DeactivationEvents(env: Env, sc: Option<Scenario>, targets: seq<string>, n: nat): seq<Event> {
    if targets == [] then []
    else
      var es := DeactivateTarget(env, sc, targets[0], n);
      es + DeactivationEvents(env, sc, targets[1..], n + Calls(es))
  }

  // ---------- Scenario ids ----------

  /** The ids of registerAllScenarios, in order. */
  const REGISTERED: seq<string> := [
    "cpu_host_saturation", "cpu_cluster_contention", "cpu_vm_costop", "cpu_rp_limit",
    "mem_host_exhaustion", "mem_vm_leak", "mem_tps_failure", "mem_numa_imbalance",
    "disk_ds_full", "disk_latency_spike", "disk_ds_inaccessible", "disk_io_saturation", "disk_apd",
    "net_mgmt_partition", "net_vm_isolation", "net_saturation", "net_uplink_failover",
    "host_psod", "host_maintenance", "host_boot_storm", "host_vmotion_fail", "host_time_drift",
    "vm_crash", "vm_snapshot_growth", "vm_tools_down", "vm_invalid_state",
    "cascade_san_failure", "cascade_ha_exhaustion", "cascade_network_split", "cascade_rack_power"]

  /** The switch of activateScenario; None is its default branch. */
  function Dispatch(id: string): Option<Scenario> {
    match id
    case "cpu_host_saturation" => Some(CpuHostSaturation)
    case "cpu_cluster_contention" => Some(CpuClusterContention)
    case "cpu_vm_costop" => Some(CpuVmCostop)
    case "cpu_rp_limit" => Some(CpuRpLimit)
    case "mem_host_exhaustion" => Some(MemHostExhaustion)
    case "mem_vm_leak" => Some(MemVmLeak)
    case "mem_tps_failure" => Some(MemTpsFailure)
    case "mem_numa_imbalance" => Some(MemNumaImbalance)
    case "disk_ds_full" => Some(DiskDsFull)
    case "disk_latency_spike" => Some(DiskLatencySpike)
    case "disk_ds_inaccessible" => Some(DiskDsInaccessible)
    case "disk_io_saturation" => Some(DiskIoSaturation)
    case "disk_apd" => Some(DiskApd)
    case "net_mgmt_partition" => Some(NetMgmtPartition)
    case "net_vm_isolation" => Some(NetVmIsolation)
    case "net_saturation" => Some(NetSaturation)
    case "net_uplink_failover" => Some(NetUplinkFailover)
    case "host_psod" => Some(HostPsod)
    case "host_maintenance" => Some(HostMaintenance)
    case "host_boot_storm" => Some(HostBootStorm)
    case "host_vmotion_fail" => Some(HostVmotionFail)
    case "host_time_drift" => Some(HostTimeDrift)
    case "vm_crash" => Some(VmCrash)
    case "vm_snapshot_growth" => Some(VmSnapshotGrowth)
    case "vm_tools_down" => Some(VmToolsDown)
    case "vm_invalid_state" => Some(VmInvalidState)
    case "cascade_san_failure" => Some(CascadeSanFailure)
    case "cascade_ha_exhaustion" => Some(CascadeHaExhaustion)
    case "cascade_network_split" => Some(CascadeNetworkSplit)
    case "cascade_rack_power" => Some(CascadeRackPower)
    case _ => None
  }

  lemma RegisteredHasBranch(i: nat)
    requires i < |REGISTERED|
    ensures Dispatch(REGISTERED[i]).Some?
  {
  }

  lemma BranchIsRegistered(id: string)
    requires Dispatch(id).Some?
    ensures id in REGISTERED
  {
  }

  /** Every registered id has an activation branch, and only those: the default branch is dead. */
  lemma RegisteredDispatch(id: string)
    ensures id in REGISTERED <==> Dispatch(id).Some?
  {
    if id in REGISTERED {
      var i :| 0 <= i < |REGISTERED| && REGISTERED[i] == id;
      RegisteredHasBranch(i);
    }
    if Dispatch(id).Some? {
      BranchIsRegistered(id);
    }
  }
}
