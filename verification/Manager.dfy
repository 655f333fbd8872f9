/** The scenario manager: pkg/scenarios/manager.go and the activate and deactivate functions of
    pkg/scenarios/scenarios_impl.go, writing into the shared registry and sending tasks. Each
    method runs the events its plan lists, from the state it finds. */
module ScenarioManager {
  import opened Wrappers
  import opened Overrides
  import opened Engine
  import opened Samples
  import opened Plans
  import opened ActiveKeys
  import opened Lifecycle

  // ---------- Taking an event list apart ----------

  lemma RunCons(s: State, e: Event, es: seq<Event>)
    ensures Run(s, [e] + es) == Run(Step(s, e), es)
  {
    assert ([e] + es)[1..] == es;
  }

  lemma OnSplit(ref: Ref, a: seq<Override>, b: seq<Override>)
    ensures On(ref, a + b) == On(ref, a) + On(ref, b)
  {
  }

  lemma RunOnSplit(s: State, ref: Ref, a: seq<Override>, b: seq<Override>)
    ensures Run(s, On(ref, a + b)) == Run(Run(s, On(ref, a)), On(ref, b))
  {
    OnSplit(ref, a, b);
    RunConcat(s, On(ref, a), On(ref, b));
  }

  lemma RunOnOne(s: State, ref: Ref, o: Override)
    ensures Run(s, On(ref, [o])) == Step(s, Set(ref, o))
  {
    assert On(ref, [o]) == [Set(ref, o)];
    RunOne(s, Set(ref, o));
  }

  lemma RunOnNone(s: State, ref: Ref)
    ensures Run(s, On(ref, [])) == s
  {
    assert On(ref, []) == [];
  }

  class Manager {
    const env: Env
    const registry: Registry
    var world: World
    var calls: nat
    var active: ActiveMap
    var defs: set<string>

    ghost predicate Valid()
      reads this, registry
    {
      && registry.Valid()
      && (forall id :: id in defs <==> id in REGISTERED)
    }

    /** The state the event machine works on. */
    ghost function Snapshot(): State
      reads this, registry
    {
      State(registry.metrics, registry.properties, world, calls)
    }

    ghost function Ledger(): Book
      reads this, registry
    {
      Book(Snapshot(), active)
    }

    constructor (env: Env, reg: Registry, world: World)
      requires reg.Valid()
      ensures Valid() && this.env == env && registry == reg
      ensures Ledger() == Book(State(reg.metrics, reg.properties, world, 0), map[])
    {
      this.env, this.registry, this.world := env, reg, world;
      calls, active, defs := 0, map[], {};
      new;
      for i := 0 to |REGISTERED|
        modifies this`defs
        invariant forall id :: id in defs <==> id in REGISTERED[..i]
      {
        defs := defs + {REGISTERED[i]};
      }
    }

    // ---------- Single events ----------

    method SetMetric(ref: Ref, o: MetricOverride)
      requires Valid()
      modifies registry
      ensures Valid() && Snapshot() == Run(old(Snapshot()), On(ref, [Metric(o)]))
    {
      RunOnOne(Snapshot(), ref, Metric(o));
      registry.SetMetric(ref, o);
    }

    method SetProperty(ref: Ref, o: PropertyOverride)
      requires Valid()
      modifies registry
      ensures Valid() && Snapshot() == Run(old(Snapshot()), On(ref, [Property(o)]))
    {
      RunOnOne(Snapshot(), ref, Property(o));
      registry.SetProperty(ref, o);
    }

    /** Send a task to vCenter and wait for its result. */
    method Task(op: Op, ref: Ref) returns (outcome: Outcome)
      requires Valid()
      modifies `world, `calls
      ensures Valid() && Snapshot() == Run(old(Snapshot()), [Ask(env, old(calls), op, ref)])
      ensures outcome == env.oracle(old(calls), op, ref) && calls == old(calls) + 1
    {
      RunOne(Snapshot(), Ask(env, calls, op, ref));
      outcome := env.oracle(calls, op, ref);
      if outcome == Done {
        world := Effected(world, op, ref);
      }
      calls := calls + 1;
    }

    method ClearOverrides(ref: Ref)
      requires Valid()
      modifies registry
      ensures Valid() && Snapshot() == Run(old(Snapshot()), ClearBoth(ref))
    {
      RunCons(Snapshot(), ClearMetrics(ref), [ClearProperties(ref)]);
      RunOne(Step(Snapshot(), ClearMetrics(ref)), ClearProperties(ref));
      registry.ClearMetrics(ref);
      registry.ClearProperties(ref);
    }

    // ---------- The setHigh* helpers ----------

    method SetHighCPUMetrics(ref: Ref, cpuPercent: int, expiry: Expiry)
      requires Valid()
      modifies registry
      ensures Valid() && Snapshot() == Run(old(Snapshot()), On(ref, HighCpu(cpuPercent, expiry)))
    {
      var values := GenerateHighValues(cpuPercent * 100, 5);
      SetMetric(ref, Entry(Counter(2, ""), values, expiry));
    }

    method SetHighCPUReady(ref: Ref, readyMs: int, expiry: Expiry)
      requires Valid()
      modifies registry
      ensures Valid() && Snapshot() == Run(old(Snapshot()), On(ref, HighReady(readyMs, expiry)))
    {
      var values := GenerateHighValues(readyMs, 20);
      SetMetric(ref, Entry(Counter(12, ""), values, expiry));
    }

    method SetHighMemMetrics(ref: Ref, memPercent: int, balloonMB: int, swapRate: int, expiry: Expiry)
      requires Valid()
      modifies registry
      ensures Valid() && Snapshot() == Run(old(Snapshot()), On(ref, HighMem(memPercent, balloonMB, swapRate, expiry)))
    {
      hide Run, HighValues, Quot;
      ghost var s := Snapshot();
      ghost var usage := [M(24, HighValues(memPercent * 100, 3), expiry)];
      ghost var balloon := if balloonMB > 0 then [M(90, HighValues(balloonMB * 1024, 10), expiry)] else [];
      ghost var swapIn, swapOut :=
        M(85, HighValues(swapRate, 30), expiry), M(86, HighValues(Quot(swapRate, 2), 30), expiry);
      var values := GenerateHighValues(memPercent * 100, 3);
      SetMetric(ref, Entry(Counter(24, ""), values, expiry));
      if balloonMB > 0 {
        values := GenerateHighValues(balloonMB * 1024, 10);
        SetMetric(ref, Entry(Counter(90, ""), values, expiry));
      } else {
        RunOnNone(Snapshot(), ref);
      }
      RunOnSplit(s, ref, usage, balloon);
      if swapRate > 0 {
        values := GenerateHighValues(swapRate, 30);
        SetMetric(ref, Entry(Counter(85, ""), values, expiry));
        values := GenerateHighValues(Quot(swapRate, 2), 30);
        SetMetric(ref, Entry(Counter(86, ""), values, expiry));
        RunOnSplit(s, ref, usage + balloon, [swapIn]);
        RunOnSplit(s, ref, usage + balloon + [swapIn], [swapOut]);
        assert usage + balloon + [swapIn] + [swapOut] == HighMem(memPercent, balloonMB, swapRate, expiry);
      } else {
        assert usage + balloon == HighMem(memPercent, balloonMB, swapRate, expiry);
      }
    }

    method SetHighNetDrops(ref: Ref, dropsPerSec: int, expiry: Expiry)
      requires Valid()
      modifies registry
      ensures Valid() && Snapshot() == Run(old(Snapshot()), On(ref, NetDrops(dropsPerSec, expiry)))
    {
      ghost var s := Snapshot();
      var rx := GenerateIncrementingValues(dropsPerSec, 10);
      SetMetric(ref, Entry(Counter(460, ""), rx, expiry));
      var tx := GenerateIncrementingValues(Quot(dropsPerSec, 2), 10);
      SetMetric(ref, Entry(Counter(461, ""), tx, expiry));
      RunOnSplit(s, ref, [M(460, rx, expiry)], [M(461, tx, expiry)]);
      assert [M(460, rx, expiry)] + [M(461, tx, expiry)] == NetDrops(dropsPerSec, expiry);
    }

    /** The straight-line writes of a scenario on one entity, in order. */
    method WriteAll(ref: Ref, ws: seq<Override>)
      requires Valid()
      modifies registry
      ensures Valid() && Snapshot() == Run(old(Snapshot()), On(ref, ws))
    {
      hide Run;
      ghost var s := Snapshot();
      RunOnNone(s, ref);
      for i := 0 to |ws|
        invariant Valid() && Snapshot() == Run(s, On(ref, ws[..i]))
      {
        RunOnSplit(s, ref, ws[..i], [ws[i]]);
        assert ws[..i] + [ws[i]] == ws[..i + 1];
        match ws[i] {
          case Metric(m) => SetMetric(ref, m);
          case Property(p) => SetProperty(ref, p);
        }
      }
      assert ws[..|ws|] == ws;
    }

    // ---------- Loops over hosts and VMs ----------

    /** The second loops of the cluster scenarios: write to hosts[first..]. */
    method LoadHosts(hosts: seq<Host>, ph: Phase, first: nat, expiry: Expiry)
      requires Valid()
      modifies registry
      ensures Valid() && Snapshot() == Run(old(Snapshot()), OnHosts(hosts, ph, first, expiry))
    {
      ghost var s := Snapshot();
      var i := first;
      while i < |hosts|
        invariant Valid() && Run(s, OnHosts(hosts, ph, first, expiry)) == Run(Snapshot(), OnHosts(hosts, ph, i, expiry))
        decreases |hosts| - i
      {
        ghost var here := PhaseWrites(ph, i, expiry);
        RunConcat(Snapshot(), On(hosts[i].ref, here), OnHosts(hosts, ph, i + 1, expiry));
        WritePhase(hosts[i].ref, ph, i, expiry);
        i := i + 1;
      }
    }

    method WritePhase(hostRef: Ref, ph: Phase, i: nat, expiry: Expiry)
      requires Valid()
      modifies registry
      ensures Valid() && Snapshot() == Run(old(Snapshot()), On(hostRef, PhaseWrites(ph, i, expiry)))
    {
      hide Run, HighCpu, HighMem, NetDrops;
      ghost var s := Snapshot();
      match ph {
        case HaOverload =>
          SetHighCPUMetrics(hostRef, 88 + i * 2, expiry);
          SetHighMemMetrics(hostRef, 85 + i * 2, 2048, 500, expiry);
          RunOnSplit(s, hostRef, HighCpu(88 + i * 2, expiry), HighMem(85 + i * 2, 2048, 500, expiry));
        case HaCritical =>
          SetHighCPUMetrics(hostRef, 96 + i % 4, expiry);
          SetHighMemMetrics(hostRef, 97, 4096, 3000, expiry);
          RunOnSplit(s, hostRef, HighCpu(96 + i % 4, expiry), HighMem(97, 4096, 3000, expiry));
        case BootOverload =>
          var overloadPercent := 85 + i % 3 * 5;
          SetHighCPUMetrics(hostRef, overloadPercent, expiry);
          SetHighMemMetrics(hostRef, overloadPercent - 5, 2048, 1000, expiry);
          RunOnSplit(s, hostRef, HighCpu(overloadPercent, expiry), HighMem(overloadPercent - 5, 2048, 1000, expiry));
        case SplitDrops =>
          SetHighNetDrops(hostRef, 300, expiry);
        case RackLoad =>
          SetHighCPUMetrics(hostRef, 90 + i % 5, expiry);
          SetHighMemMetrics(hostRef, 88 + i % 5, 2048, 1500, expiry);
          RunOnSplit(s, hostRef, HighCpu(90 + i % 5, expiry), HighMem(88 + i % 5, 2048, 1500, expiry));
      }
    }

    /** Power off each of the VMs in turn, whatever the answers. */
    method PowerOffVms(vms: seq<VmRef>)
      requires Valid()
      modifies `world, `calls
      ensures Valid() && Snapshot() == Run(old(Snapshot()), PowerOffs(env, vms, old(calls)))
      ensures calls == old(calls) + Calls(PowerOffs(env, vms, old(calls)))
    {
      hide Run;
      ghost var s, n := Snapshot(), calls;
      CallsCounted(s, PowerOffs(env, vms, n));
      assert vms[0..] == vms;
      for i := 0 to |vms|
        invariant Valid() && Run(s, PowerOffs(env, vms, n)) == Run(Snapshot(), PowerOffs(env, vms[i..], calls))
      {
        assert vms[i..][1..] == vms[i + 1..];
        RunConcat(Snapshot(), [Ask(env, calls, PowerOff, vms[i])], PowerOffs(env, vms[i + 1..], calls + 1));
        var _ := Task(PowerOff, vms[i]);
      }
      RunNone(Snapshot());
    }

    method FailHost(host: Host) returns (outcome: Outcome)
      requires Valid()
      modifies `world, `calls
      ensures Valid() && Snapshot() == Run(old(Snapshot()), HostFails(env, host, old(calls)))
      ensures calls == old(calls) + Calls(HostFails(env, host, old(calls)))
      ensures outcome
              == env.oracle(old(calls) + Calls(PowerOffs(env, VmsOf(env, host.path), old(calls))), Disconnect, host.ref)
    {
      hide Run;
      ghost var s, n := Snapshot(), calls;
      CallsCounted(s, HostFails(env, host, n));
      ghost var offs := PowerOffs(env, VmsOf(env, host.path), n);
      RunConcat(s, offs, [Ask(env, n + Calls(offs), Disconnect, host.ref)]);
      PowerOffVms(VmsOf(env, host.path));
      outcome := Task(Disconnect, host.ref);
    }

    // ---------- Activation, one target ----------

    method ActivateHostAndVms(sc: Scenario, target: string, params: Params, expiry: Expiry) returns (end: Ending)
      requires Valid() && HostAndVms(sc)
      modifies registry
      ensures Valid()
      ensures var p := TargetPlan(env, sc, target, params, expiry, calls);
              Snapshot() == Run(old(Snapshot()), p.events) && end == p.end
    {
      hide Run, TargetWrites, OnVms, Uniform, Timed, TargetOnly, HostAndVms, OnCluster, VmTask;
      KindsApart(sc);
      if target !in env.objects {
        RunNone(Snapshot());
        return Errored;
      }
      var ref := env.objects[target];
      RunConcat(Snapshot(), On(ref, TargetWrites(sc, params, expiry)), OnVms(sc, VmsOf(env, target), 0, expiry));
      WriteAll(ref, TargetWrites(sc, params, expiry));
      WriteVms(sc, VmsOf(env, target), expiry);
      end := Completed;
    }

    method WriteVms(sc: Scenario, vms: seq<VmRef>, expiry: Expiry)
      requires Valid() && HostAndVms(sc)
      modifies registry
      ensures Valid() && Snapshot() == Run(old(Snapshot()), OnVms(sc, vms, 0, expiry))
    {
      ghost var s := Snapshot();
      for i := 0 to |vms|
        invariant Valid() && Run(s, OnVms(sc, vms, 0, expiry)) == Run(Snapshot(), OnVms(sc, vms, i, expiry))
      {
        RunConcat(Snapshot(), On(vms[i], VmWrites(sc, i, vms[i], expiry)), OnVms(sc, vms, i + 1, expiry));
        WriteVm(sc, i, vms[i], expiry);
      }
    }

    method WriteVm(sc: Scenario, i: nat, vm: VmRef, expiry: Expiry)
      requires Valid() && HostAndVms(sc)
      modifies registry
      ensures Valid() && Snapshot() == Run(old(Snapshot()), On(vm, VmWrites(sc, i, vm, expiry)))
    {
      hide Run, HighValues, IncrementingValues;
      ghost var s := Snapshot();
      match sc {
        case CpuHostSaturation =>
          SetHighCPUReady(vm, 8000 + LastByte(vm) * 500, expiry);
          SetHighCPUMetrics(vm, 70 + LastByte(vm) % 20, expiry);
          RunOnSplit(s, vm, HighReady(8000 + LastByte(vm) * 500, expiry), HighCpu(70 + LastByte(vm) % 20, expiry));
        case MemHostExhaustion =>
          var balloonMB := 512 + (i % 4) * 256;
          var balloon := GenerateHighValues(balloonMB * 1024, 10);
          SetMetric(vm, Entry(Counter(65, ""), balloon, expiry));
          var swapped := GenerateHighValues(256 * 1024, 15);
          SetMetric(vm, Entry(Counter(35, ""), swapped, expiry));
          RunOnSplit(s, vm, [M(65, balloon, expiry)], [M(35, swapped, expiry)]);
          assert [M(65, balloon, expiry)] + [M(35, swapped, expiry)] == VmWrites(sc, i, vm, expiry);
        case NetSaturation =>
          SetHighNetDrops(vm, 50, expiry);
      }
    }

    method ActivateHostTask(sc: Scenario, target: string, expiry: Expiry) returns (end: Ending)
      requires Valid() && HostTask(sc)
      modifies `world, `calls, registry
      ensures Valid()
      ensures var p := HostTaskPlan(env, sc, target, expiry, old(calls));
              Snapshot() == Run(old(Snapshot()), p.events) && end == p.end
    {
      hide Run, Uniform, Timed, PowerOffs, Calls;
      if target !in env.hosts {
        RunNone(Snapshot());
        return Errored;
      }
      var ref := env.hosts[target];
      match sc {
        case NetMgmtPartition =>
          var outcome := Task(Disconnect, ref);
          end := EndIf(outcome == Done);
        case HostMaintenance =>
          var outcome := Task(EnterMaintenance, ref);
          end := EndIf(outcome == Done);
        case HostPsod =>
          ghost var s, es := Snapshot(), HostFails(env, Host(ref, target), calls);
          var outcome := FailHost(Host(ref, target));
          if outcome != Done {
            return Errored;
          }
          var after := [NotResponding(expiry), M(2, [0], expiry), M(24, [0], expiry)];
          RunConcat(s, es, On(ref, after));
          WriteAll(ref, after);
          end := Completed;
      }
    }

    method ActivateVmTask(sc: Scenario, target: string, params: Params, expiry: Expiry) returns (end: Ending)
      requires Valid() && VmTask(sc)
      modifies `world, `calls, registry
      ensures Valid()
      ensures var p := VmTaskPlan(env, sc, target, params, expiry, old(calls));
              Snapshot() == Run(old(Snapshot()), p.events) && end == p.end
    {
      if target !in env.vms {
        RunNone(Snapshot());
        return Errored;
      }
      if sc == VmCrash {
        end := CrashVm(env.vms[target], expiry);
      } else {
        TakeSnapshots(env.vms[target], ParamInt(params, "snapshot_count", 5));
        end := Completed;
      }
    }

    method CrashVm(vm: VmRef, expiry: Expiry) returns (end: Ending)
      requires Valid()
      modifies `world, `calls, registry
      ensures Valid()
      ensures var e := Ask(env, old(calls), PowerOff, vm);
              && Snapshot() == Run(old(Snapshot()), On(vm, [P("guestHeartbeatStatus", Text("gray"), expiry)]) + [e])
              && end == EndIf(e.outcome != Rejected)
    {
      hide Run;
      var gray: PropertyOverride := Entry("guestHeartbeatStatus", Text("gray"), expiry);
      RunConcat(Snapshot(), On(vm, [Property(gray)]), [Ask(env, calls, PowerOff, vm)]);
      SetProperty(vm, gray);
      var outcome := Task(PowerOff, vm);
      end := EndIf(outcome != Rejected);
    }

    method TakeSnapshots(vm: VmRef, snapshotCount: int)
      requires Valid()
      modifies `world, `calls
      ensures Valid() && Snapshot() == Run(old(Snapshot()), Snapshots(env, vm, 1, snapshotCount, old(calls)))
    {
      hide Run;
      ghost var s, n := Snapshot(), calls;
      var i := 1;
      while i <= snapshotCount
        invariant i >= 1 && Valid()
        invariant Run(s, Snapshots(env, vm, 1, snapshotCount, n))
                == Run(Snapshot(), Snapshots(env, vm, i, snapshotCount, calls))
      {
        RunConcat(Snapshot(), [Ask(env, calls, CreateSnapshot(i), vm)],
                  Snapshots(env, vm, i + 1, snapshotCount, calls + 1));
        var _ := Task(CreateSnapshot(i), vm);
        i := i + 1;
      }
      RunNone(Snapshot());
    }

    method ActivateContention(hosts: seq<Host>, expiry: Expiry)
      requires Valid()
      modifies registry
      ensures Valid() && Snapshot() == Run(old(Snapshot()), ContentionOn(env, hosts, 0, expiry))
    {
      ghost var s := Snapshot();
      for i := 0 to |hosts|
        invariant Valid() && Run(s, ContentionOn(env, hosts, 0, expiry))
                == Run(Snapshot(), ContentionOn(env, hosts, i, expiry))
      {
        var vms := VmsOf(env, hosts[i].path);
        ghost var host := On(hosts[i].ref, HighCpu(82 + i * 3 % 18, expiry));
        ghost var rest := ContentionOn(env, hosts, i + 1, expiry);
        RunConcat(Snapshot(), host + ReadyOnVms(vms, 5000 + i * 1000, 0, expiry), rest);
        RunConcat(Snapshot(), host, ReadyOnVms(vms, 5000 + i * 1000, 0, expiry));
        SetHighCPUMetrics(hosts[i].ref, 82 + i * 3 % 18, expiry);
        ReadyVms(vms, 5000 + i * 1000, expiry);
      }
    }

    method ReadyVms(vms: seq<VmRef>, readyMs: int, expiry: Expiry)
      requires Valid()
      modifies registry
      ensures Valid() && Snapshot() == Run(old(Snapshot()), ReadyOnVms(vms, readyMs, 0, expiry))
    {
      ghost var s := Snapshot();
      for i := 0 to |vms|
        invariant Valid() && Run(s, ReadyOnVms(vms, readyMs, 0, expiry))
                == Run(Snapshot(), ReadyOnVms(vms, readyMs, i, expiry))
      {
        RunConcat(Snapshot(), On(vms[i], HighReady(readyMs, expiry)), ReadyOnVms(vms, readyMs, i + 1, expiry));
        SetHighCPUReady(vms[i], readyMs, expiry);
      }
    }

    /** First loop of the boot storm. */
    method DisconnectFirst(hosts: seq<Host>, hostCount: nat)
      requires Valid()
      modifies `world, `calls
      ensures Valid() && Snapshot() == Run(old(Snapshot()), BootCalls(env, hosts, hostCount, old(calls)))
    {
      hide Run;
      ghost var s, n := Snapshot(), calls;
      var disconnected := 0;
      assert hosts[0..] == hosts;
      for i := 0 to |hosts|
        invariant Valid() && disconnected <= hostCount
        invariant Run(s, BootCalls(env, hosts, hostCount, n))
                  == Run(Snapshot(), BootCalls(env, hosts[i..], hostCount - disconnected, calls))
      {
        if disconnected >= hostCount {
          RunNone(Snapshot());
          return;
        }
        assert hosts[i..][1..] == hosts[i + 1..];
        ghost var e := Ask(env, calls, Disconnect, hosts[i].ref);
        ghost var left := if e.outcome == Rejected then hostCount - disconnected else hostCount - disconnected - 1;
        RunConcat(Snapshot(), [e], BootCalls(env, hosts[i + 1..], left, calls + 1));
        var outcome := Task(Disconnect, hosts[i].ref);
        if outcome == Rejected {
          continue;
        }
        disconnected := disconnected + 1;
      }
      RunNone(Snapshot());
    }

    /** First loop of the rack power failure. */
    method PowerDownRack(hosts: seq<Host>, hostCount: nat, expiry: Expiry)
      requires Valid()
      modifies `world, `calls, registry
      ensures Valid() && Snapshot() == Run(old(Snapshot()), RackCalls(env, hosts, hostCount, expiry, old(calls)))
    {
      hide Run, RackHost, RackAccepts;
      ghost var s, n := Snapshot(), calls;
      var affected := 0;
      assert hosts[0..] == hosts;
      for i := 0 to |hosts|
        invariant Valid() && affected <= hostCount
        invariant Run(s, RackCalls(env, hosts, hostCount, expiry, n))
                  == Run(Snapshot(), RackCalls(env, hosts[i..], hostCount - affected, expiry, calls))
      {
        if affected >= hostCount {
          RunNone(Snapshot());
          return;
        }
        RackStep(env, hosts, i, hostCount - affected, expiry, calls, Snapshot());
        var accepted := PowerDownHost(hosts[i], expiry);
        if !accepted {
          continue;
        }
        affected := affected + 1;
      }
      RunNone(Snapshot());
    }

    /** The body of that loop: power off the host's VMs, disconnect it, mark it. */
    method PowerDownHost(host: Host, expiry: Expiry) returns (accepted: bool)
      requires Valid()
      modifies `world, `calls, registry
      ensures Valid() && Snapshot() == Run(old(Snapshot()), RackHost(env, host, expiry, old(calls)))
      ensures accepted == RackAccepts(env, host, old(calls))
      ensures calls == old(calls) + Calls(RackHost(env, host, expiry, old(calls)))
    {
      hide Run;
      ghost var s, n := Snapshot(), calls;
      CallsCounted(s, RackHost(env, host, expiry, n));
      var outcome := FailHost(host);
      accepted := outcome != Rejected;
      ghost var fails, mark := HostFails(env, host, n), On(host.ref, [NotResponding(expiry)]);
      if accepted {
        RunConcat(s, fails, mark);
        SetProperty(host.ref, Entry("runtime.connectionState", Text("notResponding"), expiry));
      } else {
        assert fails + [] == fails;
      }
    }

    method DisconnectHalf(hosts: seq<Host>, halfCount: nat)
      requires Valid() && halfCount <= |hosts|
      modifies `world, `calls
      ensures Valid() && Snapshot() == Run(old(Snapshot()), SplitCalls(env, hosts, 0, halfCount, old(calls)))
    {
      ghost var s, n := Snapshot(), calls;
      for i := 0 to halfCount
        invariant Valid()
        invariant Run(s, SplitCalls(env, hosts, 0, halfCount, n))
                == Run(Snapshot(), SplitCalls(env, hosts, i, halfCount, calls))
      {
        RunConcat(Snapshot(), [Ask(env, calls, Disconnect, hosts[i].ref)],
                  SplitCalls(env, hosts, i + 1, halfCount, calls + 1));
        var _ := Task(Disconnect, hosts[i].ref);
      }
    }

    method ActivateHaExhaustion(hosts: seq<Host>, expiry: Expiry)
      requires Valid() && |hosts| >= 3
      modifies `world, `calls, registry
      ensures Valid() && Snapshot() == Run(old(Snapshot()), HaEvents(env, hosts, expiry, old(calls)))
    {
      hide Run, HostFails, OnHosts;
      ghost var s, n := Snapshot(), calls;
      ghost var fail1 := HostFails(env, hosts[0], n);
      ghost var fail2 := HostFails(env, hosts[1], n + Calls(fail1));
      ghost var over, mark := OnHosts(hosts, HaOverload, 1, expiry), On(hosts[1].ref, [NotResponding(expiry)]);
      var _ := FailHost(hosts[0]);
      LoadHosts(hosts, HaOverload, 1, expiry);
      RunConcat(s, fail1, over);
      var _ := FailHost(hosts[1]);
      RunConcat(s, fail1 + over, fail2);
      SetProperty(hosts[1].ref, Entry("runtime.connectionState", Text("notResponding"), expiry));
      RunConcat(s, fail1 + over + fail2, mark);
      LoadHosts(hosts, HaCritical, 2, expiry);
      RunConcat(s, fail1 + over + fail2 + mark, OnHosts(hosts, HaCritical, 2, expiry));
    }

    method ActivateOnCluster(sc: Scenario, target: string, params: Params, expiry: Expiry) returns (end: Ending)
      requires Valid() && OnCluster(sc)
      modifies `world, `calls, registry
      ensures Valid()
      ensures var p := ClusterPlan(env, sc, target, params, expiry, old(calls));
              Snapshot() == Run(old(Snapshot()), p.events) && end == p.end
    {
      if target !in env.clusterHosts {
        return Errored;
      }
      var hosts := env.clusterHosts[target];
      ghost var s, n := Snapshot(), calls;
      end := Completed;
      match sc {
        case CpuClusterContention =>
          ActivateContention(hosts, expiry);
        case HostBootStorm =>
          var hostCount := ParamInt(params, "host_count", 3);
          if hostCount < 0 {
            return Panicked;
          }
          RunConcat(s, BootCalls(env, hosts, hostCount, n), OnHosts(hosts, BootOverload, hostCount, expiry));
          DisconnectFirst(hosts, hostCount);
          LoadHosts(hosts, BootOverload, hostCount, expiry);
        case CascadeHaExhaustion =>
          if |hosts| < 3 {
            return Errored;
          }
          ActivateHaExhaustion(hosts, expiry);
        case CascadeNetworkSplit =>
          var halfCount := |hosts| / 2;
          RunConcat(s, SplitCalls(env, hosts, 0, halfCount, n), OnHosts(hosts, SplitDrops, halfCount, expiry));
          DisconnectHalf(hosts, halfCount);
          LoadHosts(hosts, SplitDrops, halfCount, expiry);
        case CascadeRackPower =>
          var hostCount := ParamInt(params, "host_count", 4);
          if hostCount < 0 {
            return Panicked;
          }
          RunConcat(s, RackCalls(env, hosts, hostCount, expiry, n), OnHosts(hosts, RackLoad, hostCount, expiry));
          PowerDownRack(hosts, hostCount, expiry);
          LoadHosts(hosts, RackLoad, hostCount, expiry);
      }
    }

    method ActivateTarget(sc: Scenario, target: string, params: Params, expiry: Expiry) returns (end: Ending)
      requires Valid()
      modifies `world, `calls, registry
      ensures Valid()
      ensures var p := TargetPlan(env, sc, target, params, expiry, old(calls));
              && Snapshot() == Run(old(Snapshot()), p.events) && end == p.end
              && calls == old(calls) + Calls(p.events)
    {
      CallsCounted(Snapshot(), TargetPlan(env, sc, target, params, expiry, calls).events);
      if TargetOnly(sc) {
        if target !in env.objects {
          return Errored;
        }
        WriteAll(env.objects[target], TargetWrites(sc, params, expiry));
        end := Completed;
      } else if HostAndVms(sc) {
        end := ActivateHostAndVms(sc, target, params, expiry);
      } else if OnCluster(sc) {
        end := ActivateOnCluster(sc, target, params, expiry);
      } else if VmTask(sc) {
        end := ActivateVmTask(sc, target, params, expiry);
      } else {
        end := ActivateHostTask(sc, target, expiry);
      }
    }

    /** The dispatch and the loop over targets that every activate function has. */
    method ActivateScenario(req: Request, now: int) returns (end: Ending)
      requires Valid()
      modifies `world, `calls, registry
      ensures Valid()
      ensures var p := RequestPlan(env, req, now, old(calls));
              Snapshot() == Run(old(Snapshot()), p.events) && end == p.end
    {
      hide ActivationPlan, Dispatch;
      var expiry := if req.duration > 0 then At(now + req.duration * SECOND) else Never;
      var branch := Dispatch(req.id);
      if branch == None {
        return Errored;
      }
      end := ActivateTargets(branch.value, req.targets, req.params, expiry);
    }

    method ActivateTargets(sc: Scenario, targets: seq<string>, params: Params, expiry: Expiry) returns (end: Ending)
      requires Valid()
      modifies `world, `calls, registry
      ensures Valid()
      ensures var p := ActivationPlan(env, sc, targets, params, expiry, old(calls));
              Snapshot() == Run(old(Snapshot()), p.events) && end == p.end
    {
      hide TargetPlan, Run;
      ghost var s, whole := Snapshot(), ActivationPlan(env, sc, targets, params, expiry, calls);
      assert targets[0..] == targets;
      for i := 0 to |targets|
        invariant Valid()
        invariant var rest := ActivationPlan(env, sc, targets[i..], params, expiry, calls);
                  Run(s, whole.events) == Run(Snapshot(), rest.events) && whole.end == rest.end
      {
        ActivationStep(env, sc, targets, i, params, expiry, calls, Snapshot());
        end := ActivateTarget(sc, targets[i], params, expiry);
        if end != Completed {
          return;
        }
      }
      RunNone(Snapshot());
      end := Completed;
    }

    // ---------- Deactivation ----------

    method DeactivateOne(id: string, target: string)
      requires Valid()
      modifies `world, `calls, registry
      ensures Valid()
      ensures var es := DeactivateTarget(env, Dispatch(id), target, old(calls));
              Snapshot() == Run(old(Snapshot()), es) && calls == old(calls) + Calls(es)
    {
      ghost var s, n := Snapshot(), calls;
      CallsCounted(s, DeactivateTarget(env, Dispatch(id), target, n));
      var branch := Dispatch(id);
      if branch == Some(HostPsod) || branch == Some(NetMgmtPartition) {
        if target in env.hosts {
          var ref := env.hosts[target];
          RunConcat(s, ClearBoth(ref), [Ask(env, n, Reconnect, ref)]);
          ClearOverrides(ref);
          var _ := Task(Reconnect, ref);
        }
      } else if branch == Some(HostMaintenance) {
        if target in env.hosts {
          var _ := Task(ExitMaintenance, env.hosts[target]);
        }
      } else if branch == Some(VmCrash) {
        if target in env.vms {
          var ref := env.vms[target];
          RunConcat(s, ClearBoth(ref), [Ask(env, n, PowerOn, ref)]);
          ClearOverrides(ref);
          var _ := Task(PowerOn, ref);
        }
      } else if target in env.objects {
        ClearOverrides(env.objects[target]);
      }
    }

    method DeactivateScenario(id: string, targets: seq<string>)
      requires Valid()
      modifies `world, `calls, registry
      ensures Valid()
      ensures Snapshot() == Run(old(Snapshot()), DeactivationEvents(env, Dispatch(id), targets, old(calls)))
    {
      hide DeactivateTarget, Dispatch, Run;
      ghost var s, n, sc := Snapshot(), calls, Dispatch(id);
      assert targets[0..] == targets;
      for i := 0 to |targets|
        invariant Valid()
        invariant Run(s, DeactivationEvents(env, sc, targets, n))
                  == Run(Snapshot(), DeactivationEvents(env, sc, targets[i..], calls))
      {
        DeactivationStep(env, sc, targets, i, calls, Snapshot());
        DeactivateOne(id, targets[i]);
      }
      RunNone(Snapshot());
    }

    // ---------- The public operations ----------

    /** `now` is the clock when the lock is taken, `end` when the scenario is recorded. */
    method Activate(req: Request, now: int, end: int) returns (r: Result)
      requires Valid()
      modifies this, registry
      ensures Valid() && (Ledger(), r) == Activated(env, old(Ledger()), req, now, end)
    {
      if req.id !in defs {
        return UnknownScenario;
      }
      var ending := ActivateScenario(req, now);
      if ending != Completed {
        return if ending == Panicked then Crashed else ActivationFailed;
      }
      active := active[Key(req.id, req.targets) := ActiveScenario(req.id, req.targets, req.params, end)];
      r := Ok;
    }

    method Deactivate(req: Request) returns (r: Result)
      requires Valid()
      modifies this, registry
      ensures Valid() && (Ledger(), r) == Deactivated(env, old(Ledger()), req)
    {
      var key := Key(req.id, req.targets);
      if key !in active {
        return NotActive;
      }
      DeactivateScenario(req.id, req.targets);
      active := active - {key};
      r := Ok;
    }

    method ClearAllScenarios()
      requires Valid()
      modifies this, registry
      ensures Valid() && Ledger() == AllCleared(old(Ledger()))
    {
      registry.ClearAll();
      active := map[];
    }
  }

  lemma RackStep(env: Env, hosts: seq<Host>, i: nat, quota: int, x: Expiry, n: nat, s: State)
    requires i < |hosts| && quota > 0
    ensures var here := RackHost(env, hosts[i], x, n);
            var left := if RackAccepts(env, hosts[i], n) then quota - 1 else quota;
            Run(s, RackCalls(env, hosts[i..], quota, x, n))
            == Run(Run(s, here), RackCalls(env, hosts[i + 1..], left, x, n + Calls(here)))
  {
    hide RackHost, RackAccepts, Run;
    assert hosts[i..][1..] == hosts[i + 1..];
    var here := RackHost(env, hosts[i], x, n);
    var left := if RackAccepts(env, hosts[i], n) then quota - 1 else quota;
    RunConcat(s, here, RackCalls(env, hosts[i + 1..], left, x, n + Calls(here)));
  }

  lemma ActivationStep(env: Env, sc: Scenario, ts: seq<string>, i: nat, params: Params, x: Expiry, n: nat, s: State)
    requires i < |ts|
    ensures var p := TargetPlan(env, sc, ts[i], params, x, n);
            var rest := ActivationPlan(env, sc, ts[i + 1..], params, x, n + Calls(p.events));
            var here := ActivationPlan(env, sc, ts[i..], params, x, n);
            if p.Ok() then Run(s, here.events) == Run(Run(s, p.events), rest.events) && here.end == rest.end
            else here == p
  {
    hide TargetPlan, Run;
    assert ts[i..][1..] == ts[i + 1..];
    var p := TargetPlan(env, sc, ts[i], params, x, n);
    RunConcat(s, p.events, ActivationPlan(env, sc, ts[i + 1..], params, x, n + Calls(p.events)).events);
  }

  lemma DeactivationStep(env: Env, sc: Option<Scenario>, ts: seq<string>, i: nat, n: nat, s: State)
    requires i < |ts|
    ensures var es := DeactivateTarget(env, sc, ts[i], n);
            Run(s, DeactivationEvents(env, sc, ts[i..], n))
            == Run(Run(s, es), DeactivationEvents(env, sc, ts[i + 1..], n + Calls(es)))
  {
    hide DeactivateTarget, Run;
    assert ts[i..][1..] == ts[i + 1..];
    var es := DeactivateTarget(env, sc, ts[i], n);
    RunConcat(s, es, DeactivationEvents(env, sc, ts[i + 1..], n + Calls(es)));
  }
}
