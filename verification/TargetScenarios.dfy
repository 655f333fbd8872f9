/** The scenarios that only write on their targets: for each id, when the request succeeds and exactly what
    every target then answers. */
module TargetScenarios {
  import opened Overrides
  import opened Engine
  import opened Samples
  import opened Plans
  import opened Lifecycle
  import opened Effects

  /** Co-stop and ready time are high, CPU usage swings. */
  lemma CpuVmCostopRequest(env: Env, b: Book, req: Request, now: int, end: int)
    requires req.id == "cpu_vm_costop"
    ensures Leaves(env, b, req, now, end,
                   [Meter(13, HighValues(12000, 25)), Meter(12, HighValues(10000, 20)),
                    Meter(2, [9500, 2000, 9800, 1500, 9200, 3000, 9900, 1000, 8500, 4000, 9700, 2500])])
  {
    hide Leaves, HighValues;
    var rs := [Meter(13, HighValues(12000, 25)), Meter(12, HighValues(10000, 20)),
               Meter(2, [9500, 2000, 9800, 1500, 9200, 3000, 9900, 1000, 8500, 4000, 9700, 2500])];
    TargetLeaves(env, b, req, now, end, CpuVmCostop, rs);
  }

  /** The resource pool runs at its limit of about 8000 MHz. */
  lemma CpuRpLimitRequest(env: Env, b: Book, req: Request, now: int, end: int)
    requires req.id == "cpu_rp_limit"
    ensures Leaves(env, b, req, now, end, [Meter(6, HighValues(8000, 3))])
  {
    hide Leaves, HighValues;
    var rs := [Meter(6, HighValues(8000, 3))];
    TargetLeaves(env, b, req, now, end, CpuRpLimit, rs);
  }

  /** Consumed and active memory grow with every interval, and usage climbs. */
  lemma MemVmLeakRequest(env: Env, b: Book, req: Request, now: int, end: int)
    requires req.id == "mem_vm_leak"
    ensures Leaves(env, b, req, now, end,
                   [Meter(25, IncrementingValues(512000, 12)), Meter(26, IncrementingValues(491520, 12)),
                    Meter(24, [5000, 5500, 6000, 6500, 7000, 7500, 8000, 8500, 9000, 9200, 9500, 9800])])
  {
    hide Leaves, IncrementingValues;
    var rs := [Meter(25, IncrementingValues(512000, 12)), Meter(26, IncrementingValues(491520, 12)),
               Meter(24, [5000, 5500, 6000, 6500, 7000, 7500, 8000, 8500, 9000, 9200, 9500, 9800])];
    TargetLeaves(env, b, req, now, end, MemVmLeak, rs);
  }

  /** Little shared memory, and usage at 88 percent without balloon or swap. */
  lemma MemTpsFailureRequest(env: Env, b: Book, req: Request, now: int, end: int)
    requires req.id == "mem_tps_failure"
    ensures Leaves(env, b, req, now, end, [Meter(36, HighValues(1024, 5)), Meter(24, HighValues(8800, 3))])
  {
    hide Leaves, HighValues;
    var rs := [Meter(36, HighValues(1024, 5)), Meter(24, HighValues(8800, 3))];
    TargetLeaves(env, b, req, now, end, MemTpsFailure, rs);
  }

  /** Remote swap-ins and a moderate ready time. */
  lemma MemNumaImbalanceRequest(env: Env, b: Book, req: Request, now: int, end: int)
    requires req.id == "mem_numa_imbalance"
    ensures Leaves(env, b, req, now, end, [Meter(37, HighValues(800, 20)), Meter(12, HighValues(3000, 20))])
  {
    hide Leaves, HighValues;
    var rs := [Meter(37, HighValues(800, 20)), Meter(12, HighValues(3000, 20))];
    TargetLeaves(env, b, req, now, end, MemNumaImbalance, rs);
  }

  /** Read latency follows read_latency_ms only; write latency and twice it as the maximum follow
      write_latency_ms only. */
  lemma DiskLatencySpikeRequest(env: Env, b: Book, req: Request, now: int, end: int, read: int, write: int)
    requires req.id == "disk_latency_spike"
    requires read == if "read_latency_ms" in req.params then req.params["read_latency_ms"] else 40
    requires write == if "write_latency_ms" in req.params then req.params["write_latency_ms"] else 60
    ensures Leaves(env, b, req, now, end,
                   [Meter(449, HighValues(read, 15)), Meter(453, HighValues(write, 15)),
                    Meter(133, HighValues(2 * write, 20))])
  {
    hide Leaves, HighValues;
    var rs := [Meter(449, HighValues(read, 15)), Meter(453, HighValues(write, 15)),
               Meter(133, HighValues(2 * write, 20))];
    TargetLeaves(env, b, req, now, end, DiskLatencySpike, rs);
  }

  /** The datastore is not accessible; no metric changes. */
  lemma DiskDsInaccessibleRequest(env: Env, b: Book, req: Request, now: int, end: int)
    requires req.id == "disk_ds_inaccessible"
    ensures Leaves(env, b, req, now, end, [Prop("summary.accessible", Flag(false))])
  {
    hide Leaves;
    var rs := [Prop("summary.accessible", Flag(false))];
    TargetLeaves(env, b, req, now, end, DiskDsInaccessible, rs);
  }

  /** Reads and writes are many, and the latencies rise with them. */
  lemma DiskIoSaturationRequest(env: Env, b: Book, req: Request, now: int, end: int)
    requires req.id == "disk_io_saturation"
    ensures Leaves(env, b, req, now, end,
                   [Meter(172, HighValues(5000, 15)), Meter(173, HighValues(3000, 15)),
                    Meter(449, HighValues(15, 15)), Meter(453, HighValues(25, 15)),
                    Meter(133, HighValues(50, 20))])
  {
    hide Leaves, HighValues;
    var rs := [Meter(172, HighValues(5000, 15)), Meter(173, HighValues(3000, 15)),
               Meter(449, HighValues(15, 15)), Meter(453, HighValues(25, 15)), Meter(133, HighValues(50, 20))];
    TargetLeaves(env, b, req, now, end, DiskIoSaturation, rs);
  }

  /** All paths down: not accessible, no reads and no writes. */
  lemma DiskApdRequest(env: Env, b: Book, req: Request, now: int, end: int)
    requires req.id == "disk_apd"
    ensures Leaves(env, b, req, now, end,
                   [Prop("summary.accessible", Flag(false)), Meter(172, [0]), Meter(173, [0])])
  {
    hide Leaves;
    var rs := [Prop("summary.accessible", Flag(false)), Meter(172, [0]), Meter(173, [0])];
    TargetLeaves(env, b, req, now, end, DiskApd, rs);
  }

  /** No traffic, and received and half as many sent packets are dropped. */
  lemma NetVmIsolationRequest(env: Env, b: Book, req: Request, now: int, end: int)
    requires req.id == "net_vm_isolation"
    ensures Leaves(env, b, req, now, end,
                   [Meter(195, [0]), Meter(460, IncrementingValues(500, 10)),
                    Meter(461, IncrementingValues(250, 10))])
  {
    hide Leaves, IncrementingValues;
    var rs := [Meter(195, [0]), Meter(460, IncrementingValues(500, 10)), Meter(461, IncrementingValues(250, 10))];
    TargetLeaves(env, b, req, now, end, NetVmIsolation, rs);
  }

  /** Drops while traffic comes back. */
  lemma NetUplinkFailoverRequest(env: Env, b: Book, req: Request, now: int, end: int)
    requires req.id == "net_uplink_failover"
    ensures Leaves(env, b, req, now, end,
                   [Meter(460, IncrementingValues(1000, 10)), Meter(461, IncrementingValues(500, 10)),
                    Meter(195, [0, 0, 500, 2000, 4000, 4500, 4800, 4900, 5000, 5000, 5000, 5000])])
  {
    hide Leaves, IncrementingValues;
    var rs := [Meter(460, IncrementingValues(1000, 10)), Meter(461, IncrementingValues(500, 10)),
               Meter(195, [0, 0, 500, 2000, 4000, 4500, 4800, 4900, 5000, 5000, 5000, 5000])];
    TargetLeaves(env, b, req, now, end, NetUplinkFailover, rs);
  }

  /** vMotion is off. */
  lemma HostVmotionFailRequest(env: Env, b: Book, req: Request, now: int, end: int)
    requires req.id == "host_vmotion_fail"
    ensures Leaves(env, b, req, now, end, [Prop("summary.config.vmotionEnabled", Flag(false))])
  {
    hide Leaves;
    var rs := [Prop("summary.config.vmotionEnabled", Flag(false))];
    TargetLeaves(env, b, req, now, end, HostVmotionFail, rs);
  }

  /** NTP is not running. */
  lemma HostTimeDriftRequest(env: Env, b: Book, req: Request, now: int, end: int)
    requires req.id == "host_time_drift"
    ensures Leaves(env, b, req, now, end, [Prop("config.dateTimeInfo.ntpConfig.running", Flag(false))])
  {
    hide Leaves;
    var rs := [Prop("config.dateTimeInfo.ntpConfig.running", Flag(false))];
    TargetLeaves(env, b, req, now, end, HostTimeDrift, rs);
  }

  /** The tools do not run and the heartbeat is gray. */
  lemma VmToolsDownRequest(env: Env, b: Book, req: Request, now: int, end: int)
    requires req.id == "vm_tools_down"
    ensures Leaves(env, b, req, now, end,
                   [Prop("guest.toolsRunningStatus", Text("guestToolsNotRunning")),
                    Prop("guest.toolsStatus", Text("toolsNotRunning")),
                    Prop("guestHeartbeatStatus", Text("gray"))])
  {
    hide Leaves;
    var rs := [Prop("guest.toolsRunningStatus", Text("guestToolsNotRunning")),
               Prop("guest.toolsStatus", Text("toolsNotRunning")), Prop("guestHeartbeatStatus", Text("gray"))];
    TargetLeaves(env, b, req, now, end, VmToolsDown, rs);
  }

  /** The VM is orphaned. */
  lemma VmInvalidStateRequest(env: Env, b: Book, req: Request, now: int, end: int)
    requires req.id == "vm_invalid_state"
    ensures Leaves(env, b, req, now, end, [Prop("runtime.connectionState", Text("orphaned"))])
  {
    hide Leaves;
    var rs := [Prop("runtime.connectionState", Text("orphaned"))];
    TargetLeaves(env, b, req, now, end, VmInvalidState, rs);
  }

  /** The datastore is not accessible, without reads and with high latency. */
  lemma CascadeSanFailureRequest(env: Env, b: Book, req: Request, now: int, end: int)
    requires req.id == "cascade_san_failure"
    ensures Leaves(env, b, req, now, end,
                   [Prop("summary.accessible", Flag(false)), Meter(172, [0]), Meter(170, HighValues(500, 30))])
  {
    hide Leaves, HighValues;
    var rs := [Prop("summary.accessible", Flag(false)), Meter(172, [0]), Meter(170, HighValues(500, 30))];
    TargetLeaves(env, b, req, now, end, CascadeSanFailure, rs);
  }

  /** The datastore has 4 TiB, of which free_percent percent, cut to whole bytes, are free: for 0 to 100 percent
      never more than its capacity. */
  lemma DiskDsFullRequest(env: Env, b: Book, req: Request, now: int, end: int, percent: int, free: int)
    requires req.id == "disk_ds_full"
    requires percent == if "free_percent" in req.params then req.params["free_percent"] else 2
    requires percent >= 0 ==> 100 * free <= 4_398_046_511_104 * percent < 100 * (free + 1)
    requires percent < 0 ==> 100 * (free - 1) < 4_398_046_511_104 * percent <= 100 * free
    ensures Leaves(env, b, req, now, end,
                   [Prop("summary.freeSpace", Number(free)), Prop("summary.capacity", Number(4_398_046_511_104))])
    ensures 0 <= percent <= 100 ==> 0 <= free <= 4_398_046_511_104
  {
    hide Leaves, Quot;
    QuotientIs(4_398_046_511_104 * percent, free);
    var rs := [Prop("summary.freeSpace", Number(free)), Prop("summary.capacity", Number(4_398_046_511_104))];
    TargetLeaves(env, b, req, now, end, DiskDsFull, rs);
  }

  lemma QuotientIs(n: int, q: int)
    requires n >= 0 ==> 100 * q <= n < 100 * (q + 1)
    requires n < 0 ==> 100 * (q - 1) < n <= 100 * q
    ensures Quot(n, 100) == q
  {
  }
}
