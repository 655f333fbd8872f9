/** How far an activation reaches: whatever the scenario, the parameters and vCenter's answers, and
    also when it fails half-way, it writes on, and sends tasks to, nothing but the targets it
    resolves, the hosts of target clusters and the VMs on those hosts. */
module Reach {
  import opened Overrides
  import opened Engine
  import opened Plans
  import opened Lifecycle

  function HostRefs(hosts: seq<Host>): set<Ref> {
    set h | h in hosts :: h.ref
  }

  function VmRefs(env: Env, path: string): set<Ref> {
    set v | v in VmsOf(env, path)
  }

  function ClusterRefs(env: Env, hosts: seq<Host>): set<Ref> {
    HostRefs(hosts) + set h, v | h in hosts && v in VmsOf(env, h.path) :: v
  }

  function Reached(env: Env, sc: Scenario, target: string): set<Ref> {
    if OnCluster(sc) then
      if target in env.clusterHosts then ClusterRefs(env, env.clusterHosts[target]) else {}
    else if VmTask(sc) then
      if target in env.vms then {env.vms[target]} else {}
    else if HostTask(sc) then
      if target in env.hosts then {env.hosts[target]} + VmRefs(env, target) else {}
    else if target !in env.objects then {}
    else if HostAndVms(sc) then {env.objects[target]} + VmRefs(env, target)
    else {env.objects[target]}
  }

  function ReachedAll(env: Env, sc: Scenario, targets: seq<string>): set<Ref> {
    if targets == [] then {} else Reached(env, sc, targets[0]) + ReachedAll(env, sc, targets[1..])
  }

  /** All events are writes or tasks on these references. */
  predicate Within(es: seq<Event>, rs: set<Ref>) {
    forall e :: e in es ==> (e.Set? || e.Call?) && e.ref in rs
  }

  lemma WithinConcat(a: seq<Event>, b: seq<Event>, rs: set<Ref>)
    requires Within(a, rs) && Within(b, rs)
    ensures Within(a + b, rs)
  {
  }

  lemma OnWithin(ref: Ref, ws: seq<Override>, rs: set<Ref>)
    requires ref in rs
    ensures Within(On(ref, ws), rs)
  {
  }

  lemma {:induction false} HostsWithin(hosts: seq<Host>, ph: Phase, i: nat, x: Expiry, rs: set<Ref>)
    requires HostRefs(hosts) <= rs
    ensures Within(OnHosts(hosts, ph, i, x), rs)
    decreases |hosts| - i
  {
    hide PhaseWrites, Within;
    if i < |hosts| {
      assert hosts[i].ref in HostRefs(hosts);
      OnWithin(hosts[i].ref, PhaseWrites(ph, i, x), rs);
      HostsWithin(hosts, ph, i + 1, x, rs);
      WithinConcat(On(hosts[i].ref, PhaseWrites(ph, i, x)), OnHosts(hosts, ph, i + 1, x), rs);
    } else {
      NoneWithin(rs);
    }
  }

  lemma NoneWithin(rs: set<Ref>)
    ensures Within([], rs)
  {
  }

  lemma OneWithin(env: Env, n: nat, op: Op, ref: Ref, rs: set<Ref>)
    requires ref in rs
    ensures Within([Ask(env, n, op, ref)], rs)
  {
  }

  lemma {:induction false} VmsWithin(sc: Scenario, vms: seq<VmRef>, i: nat, x: Expiry, rs: set<Ref>)
    requires HostAndVms(sc) && forall v :: v in vms ==> v in rs
    ensures Within(OnVms(sc, vms, i, x), rs)
    decreases |vms| - i
  {
    hide VmWrites, Within;
    if i < |vms| {
      assert vms[i] in vms;
      OnWithin(vms[i], VmWrites(sc, i, vms[i], x), rs);
      VmsWithin(sc, vms, i + 1, x, rs);
      WithinConcat(On(vms[i], VmWrites(sc, i, vms[i], x)), OnVms(sc, vms, i + 1, x), rs);
    } else {
      NoneWithin(rs);
    }
  }

  lemma {:induction false} PowerOffsWithin(env: Env, vms: seq<VmRef>, n: nat, rs: set<Ref>)
    requires forall v :: v in vms ==> v in rs
    ensures Within(PowerOffs(env, vms, n), rs)
    decreases vms
  {
    hide Within;
    if vms != [] {
      assert vms[0] in vms;
      OneWithin(env, n, PowerOff, vms[0], rs);
      PowerOffsWithin(env, vms[1..], n + 1, rs);
      WithinConcat([Ask(env, n, PowerOff, vms[0])], PowerOffs(env, vms[1..], n + 1), rs);
    } else {
      NoneWithin(rs);
    }
  }

  lemma {:induction false} SnapshotsWithin(env: Env, vm: VmRef, i: nat, count: int, n: nat, rs: set<Ref>)
    requires vm in rs
    ensures Within(Snapshots(env, vm, i, count, n), rs)
    decreases count - i
  {
    hide Within;
    if i <= count {
      OneWithin(env, n, CreateSnapshot(i), vm, rs);
      SnapshotsWithin(env, vm, i + 1, count, n + 1, rs);
      WithinConcat([Ask(env, n, CreateSnapshot(i), vm)], Snapshots(env, vm, i + 1, count, n + 1), rs);
    } else {
      NoneWithin(rs);
    }
  }

  lemma {:induction false} ReadyWithin(vms: seq<VmRef>, readyMs: int, i: nat, x: Expiry, rs: set<Ref>)
    requires forall v :: v in vms ==> v in rs
    ensures Within(ReadyOnVms(vms, readyMs, i, x), rs)
    decreases |vms| - i
  {
    hide HighReady, Within;
    if i < |vms| {
      assert vms[i] in vms;
      OnWithin(vms[i], HighReady(readyMs, x), rs);
      ReadyWithin(vms, readyMs, i + 1, x, rs);
      WithinConcat(On(vms[i], HighReady(readyMs, x)), ReadyOnVms(vms, readyMs, i + 1, x), rs);
    } else {
      NoneWithin(rs);
    }
  }

  /** The host and its VMs are in the set. */
  ghost predicate Covers(env: Env, host: Host, rs: set<Ref>) {
    host.ref in rs && forall v :: v in VmsOf(env, host.path) ==> v in rs
  }

  lemma ClusterCovers(env: Env, hosts: seq<Host>, h: Host)
    requires h in hosts
    ensures Covers(env, h, ClusterRefs(env, hosts)) && HostRefs(hosts) <= ClusterRefs(env, hosts)
  {
  }

  lemma HostFailsWithin(env: Env, host: Host, n: nat, rs: set<Ref>)
    requires Covers(env, host, rs)
    ensures Within(HostFails(env, host, n), rs)
  {
    var offs := PowerOffs(env, VmsOf(env, host.path), n);
    PowerOffsWithin(env, VmsOf(env, host.path), n, rs);
    OneWithin(env, n + Calls(offs), Disconnect, host.ref, rs);
    WithinConcat(offs, [Ask(env, n + Calls(offs), Disconnect, host.ref)], rs);
  }

  lemma {:induction false} ContentionWithin(env: Env, hosts: seq<Host>, i: nat, x: Expiry, rs: set<Ref>)
    requires forall h :: h in hosts ==> Covers(env, h, rs)
    ensures Within(ContentionOn(env, hosts, i, x), rs)
    decreases |hosts| - i
  {
    hide HighCpu, Within;
    if i < |hosts| {
      assert hosts[i] in hosts;
      var here, vms, rest := On(hosts[i].ref, HighCpu(82 + i * 3 % 18, x)),
                             ReadyOnVms(VmsOf(env, hosts[i].path), 5000 + i * 1000, 0, x),
                             ContentionOn(env, hosts, i + 1, x);
      OnWithin(hosts[i].ref, HighCpu(82 + i * 3 % 18, x), rs);
      ReadyWithin(VmsOf(env, hosts[i].path), 5000 + i * 1000, 0, x, rs);
      ContentionWithin(env, hosts, i + 1, x, rs);
      WithinConcat(here, vms, rs);
      WithinConcat(here + vms, rest, rs);
    } else {
      NoneWithin(rs);
    }
  }

  lemma {:induction false} BootWithin(env: Env, hosts: seq<Host>, quota: int, n: nat, rs: set<Ref>)
    requires forall h :: h in hosts ==> Covers(env, h, rs)
    ensures Within(BootCalls(env, hosts, quota, n), rs)
    decreases hosts
  {
    hide Within;
    if hosts != [] && quota > 0 {
      assert hosts[0] in hosts;
      var e := Ask(env, n, Disconnect, hosts[0].ref);
      var left := if e.outcome == Rejected then quota else quota - 1;
      OneWithin(env, n, Disconnect, hosts[0].ref, rs);
      BootWithin(env, hosts[1..], left, n + 1, rs);
      WithinConcat([e], BootCalls(env, hosts[1..], left, n + 1), rs);
    } else {
      NoneWithin(rs);
    }
  }

  lemma {:induction false} RackWithin(env: Env, hosts: seq<Host>, quota: int, x: Expiry, n: nat, rs: set<Ref>)
    requires forall h :: h in hosts ==> Covers(env, h, rs)
    ensures Within(RackCalls(env, hosts, quota, x, n), rs)
    decreases hosts
  {
    hide Within, RackHost, RackAccepts;
    if hosts != [] && quota > 0 {
      assert hosts[0] in hosts;
      var here := RackHost(env, hosts[0], x, n);
      var left := if RackAccepts(env, hosts[0], n) then quota - 1 else quota;
      RackHostWithin(env, hosts[0], x, n, rs);
      RackWithin(env, hosts[1..], left, x, n + Calls(here), rs);
      WithinConcat(here, RackCalls(env, hosts[1..], left, x, n + Calls(here)), rs);
    } else {
      NoneWithin(rs);
    }
  }

  lemma RackHostWithin(env: Env, host: Host, x: Expiry, n: nat, rs: set<Ref>)
    requires Covers(env, host, rs)
    ensures Within(RackHost(env, host, x, n), rs)
  {
    hide HostFails, RackAccepts;
    HostFailsWithin(env, host, n, rs);
    OnWithin(host.ref, [NotResponding(x)], rs);
  }

  lemma {:induction false} SplitWithin(env: Env, hosts: seq<Host>, i: nat, half: nat, n: nat, rs: set<Ref>)
    requires half <= |hosts| && HostRefs(hosts) <= rs
    ensures Within(SplitCalls(env, hosts, i, half, n), rs)
    decreases half - i
  {
    hide Within;
    if i < half {
      assert hosts[i].ref in HostRefs(hosts);
      OneWithin(env, n, Disconnect, hosts[i].ref, rs);
      SplitWithin(env, hosts, i + 1, half, n + 1, rs);
      WithinConcat([Ask(env, n, Disconnect, hosts[i].ref)], SplitCalls(env, hosts, i + 1, half, n + 1), rs);
    } else {
      NoneWithin(rs);
    }
  }

  lemma HaWithin(env: Env, hosts: seq<Host>, x: Expiry, n: nat, rs: set<Ref>)
    requires |hosts| >= 3 && HostRefs(hosts) <= rs && forall h :: h in hosts ==> Covers(env, h, rs)
    ensures Within(HaEvents(env, hosts, x, n), rs)
  {
    hide Within, HostFails, OnHosts;
    assert hosts[0] in hosts && hosts[1] in hosts && hosts[1].ref in HostRefs(hosts);
    var fail1 := HostFails(env, hosts[0], n);
    var fail2 := HostFails(env, hosts[1], n + Calls(fail1));
    var over, crit := OnHosts(hosts, HaOverload, 1, x), OnHosts(hosts, HaCritical, 2, x);
    var mark := On(hosts[1].ref, [NotResponding(x)]);
    HostFailsWithin(env, hosts[0], n, rs);
    HostFailsWithin(env, hosts[1], n + Calls(fail1), rs);
    HostsWithin(hosts, HaOverload, 1, x, rs);
    HostsWithin(hosts, HaCritical, 2, x, rs);
    OnWithin(hosts[1].ref, [NotResponding(x)], rs);
    WithinConcat(fail1, over, rs);
    WithinConcat(fail1 + over, fail2, rs);
    WithinConcat(fail1 + over + fail2, mark, rs);
    WithinConcat(fail1 + over + fail2 + mark, crit, rs);
  }

  lemma ClusterWithin(env: Env, sc: Scenario, target: string, params: Params, x: Expiry, n: nat)
    requires OnCluster(sc)
    ensures Within(ClusterPlan(env, sc, target, params, x, n).events, Reached(env, sc, target))
  {
    hide Within, HaEvents, ContentionOn, BootCalls, RackCalls, SplitCalls, OnHosts, ClusterRefs, Covers, HostRefs;
    var rs := Reached(env, sc, target);
    NoneWithin(rs);
    if target in env.clusterHosts {
      var hosts := env.clusterHosts[target];
      forall h | h in hosts ensures Covers(env, h, rs) {
        ClusterCovers(env, hosts, h);
      }
      HostsInCluster(env, hosts);
      match sc {
        case CpuClusterContention => ContentionWithin(env, hosts, 0, x, rs);
        case HostBootStorm =>
          var c := ParamInt(params, "host_count", 3);
          if c >= 0 {
            BootWithin(env, hosts, c, n, rs);
            HostsWithin(hosts, BootOverload, c, x, rs);
            WithinConcat(BootCalls(env, hosts, c, n), OnHosts(hosts, BootOverload, c, x), rs);
          }
        case CascadeHaExhaustion =>
          if |hosts| >= 3 {
            HaWithin(env, hosts, x, n, rs);
          }
        case CascadeNetworkSplit =>
          var half := |hosts| / 2;
          SplitWithin(env, hosts, 0, half, n, rs);
          HostsWithin(hosts, SplitDrops, half, x, rs);
          WithinConcat(SplitCalls(env, hosts, 0, half, n), OnHosts(hosts, SplitDrops, half, x), rs);
        case CascadeRackPower =>
          var c := ParamInt(params, "host_count", 4);
          if c >= 0 {
            RackWithin(env, hosts, c, x, n, rs);
            HostsWithin(hosts, RackLoad, c, x, rs);
            WithinConcat(RackCalls(env, hosts, c, x, n), OnHosts(hosts, RackLoad, c, x), rs);
          }
      }
    }
  }

  lemma HostsInCluster(env: Env, hosts: seq<Host>)
    ensures HostRefs(hosts) <= ClusterRefs(env, hosts)
  {
  }

  lemma TargetWithin(env: Env, sc: Scenario, target: string, params: Params, x: Expiry, n: nat)
    ensures Within(TargetPlan(env, sc, target, params, x, n).events, Reached(env, sc, target))
  {
    hide Within, ClusterPlan, VmTaskPlan, HostTaskPlan, TargetWrites, OnVms, VmRefs, ClusterRefs, Uniform;
    if OnCluster(sc) {
      ClusterWithin(env, sc, target, params, x, n);
    } else if VmTask(sc) {
      VmTaskWithin(env, sc, target, params, x, n);
    } else if HostTask(sc) {
      HostTaskWithin(env, sc, target, x, n);
    } else if target in env.objects {
      WritesWithin(env, sc, target, params, x);
    } else {
      NoneWithin({});
    }
  }

  lemma WritesWithin(env: Env, sc: Scenario, target: string, params: Params, x: Expiry)
    requires target in env.objects && (TargetOnly(sc) || HostAndVms(sc))
    ensures Within(On(env.objects[target], TargetWrites(sc, params, x)), Reached(env, sc, target))
    ensures HostAndVms(sc) ==>
              Within(On(env.objects[target], TargetWrites(sc, params, x)) + OnVms(sc, VmsOf(env, target), 0, x),
                     Reached(env, sc, target))
  {
    hide Within, TargetWrites, OnVms, Uniform, Timed, Reached, VmRefs;
    var rs := Reached(env, sc, target);
    ReachesOwn(env, sc, target);
    OnWithin(env.objects[target], TargetWrites(sc, params, x), rs);
    if HostAndVms(sc) {
      VmsWithin(sc, VmsOf(env, target), 0, x, rs);
      WithinConcat(On(env.objects[target], TargetWrites(sc, params, x)), OnVms(sc, VmsOf(env, target), 0, x), rs);
    }
  }

  lemma ReachesOwn(env: Env, sc: Scenario, target: string)
    requires target in env.objects && (TargetOnly(sc) || HostAndVms(sc))
    ensures env.objects[target] in Reached(env, sc, target)
    ensures HostAndVms(sc) ==> forall v :: v in VmsOf(env, target) ==> v in Reached(env, sc, target)
  {
    hide TargetOnly, HostAndVms, OnCluster, VmTask, HostTask;
    KindsApart(sc);
  }

  lemma VmTaskWithin(env: Env, sc: Scenario, target: string, params: Params, x: Expiry, n: nat)
    requires VmTask(sc)
    ensures Within(VmTaskPlan(env, sc, target, params, x, n).events, Reached(env, sc, target))
  {
    hide Within, Snapshots, Uniform;
    var rs := Reached(env, sc, target);
    NoneWithin(rs);
    if target in env.vms {
      var ref, gray := env.vms[target], [P("guestHeartbeatStatus", Text("gray"), x)];
      OnWithin(ref, gray, rs);
      OneWithin(env, n, PowerOff, ref, rs);
      WithinConcat(On(ref, gray), [Ask(env, n, PowerOff, ref)], rs);
      SnapshotsWithin(env, ref, 1, ParamInt(params, "snapshot_count", 5), n, rs);
    }
  }

  lemma HostTaskWithin(env: Env, sc: Scenario, target: string, x: Expiry, n: nat)
    requires HostTask(sc)
    ensures Within(HostTaskPlan(env, sc, target, x, n).events, Reached(env, sc, target))
  {
    hide Within, PowerOffs, Uniform, Calls;
    var rs := Reached(env, sc, target);
    NoneWithin(rs);
    if target in env.hosts {
      var ref := env.hosts[target];
      OneWithin(env, n, Disconnect, ref, rs);
      OneWithin(env, n, EnterMaintenance, ref, rs);
      assert forall v :: v in VmsOf(env, target) ==> v in VmRefs(env, target);
      var fails := HostFails(env, Host(ref, target), n);
      HostFailsWithin(env, Host(ref, target), n, rs);
      var after := [NotResponding(x), M(2, [0], x), M(24, [0], x)];
      OnWithin(ref, after, rs);
      WithinConcat(fails, On(ref, after), rs);
    }
  }

  lemma WithinMore(es: seq<Event>, rs: set<Ref>, ss: set<Ref>)
    requires Within(es, rs) && rs <= ss
    ensures Within(es, ss)
  {
  }

  lemma {:induction false} PlanWithin(env: Env, sc: Scenario, targets: seq<string>, params: Params, x: Expiry, n: nat)
    ensures Within(ActivationPlan(env, sc, targets, params, x, n).events, ReachedAll(env, sc, targets))
    decreases targets
  {
    hide Within, TargetPlan, Reached;
    if targets == [] {
      NoneWithin({});
    } else {
      var rs := ReachedAll(env, sc, targets);
      var p := TargetPlan(env, sc, targets[0], params, x, n);
      TargetWithin(env, sc, targets[0], params, x, n);
      WithinMore(p.events, Reached(env, sc, targets[0]), rs);
      if p.Ok() {
        var q := ActivationPlan(env, sc, targets[1..], params, x, n + Calls(p.events));
        PlanWithin(env, sc, targets[1..], params, x, n + Calls(p.events));
        WithinMore(q.events, ReachedAll(env, sc, targets[1..]), rs);
        WithinConcat(p.events, q.events, rs);
      }
    }
  }

  /** The state of one host or VM, as far as tasks change it. */
  function Condition(w: World, r: Ref): (bool, bool, bool, nat) {
    (r in w.disconnected, r in w.maintenance, r in w.poweredOff, w.snapshots[r])
  }

  lemma {:induction false} WithinFrame(s: State, es: seq<Event>, rs: set<Ref>, r: Ref)
    requires Within(es, rs) && r !in rs
    ensures Condition(Run(s, es).world, r) == Condition(s.world, r)
    decreases es
  {
    if es != [] {
      assert es[0] in es;
      assert Condition(Step(s, es[0]).world, r) == Condition(s.world, r);
      WithinFrame(Step(s, es[0]), es[1..], rs, r);
    }
  }

  lemma WithinKeeps(es: seq<Event>, rs: set<Ref>, slot: Slot)
    requires Within(es, rs) && forall r :: r in rs ==> MorKey(r) != slot.key
    ensures Last(es, slot) == Keep
  {
    LastMeans(es, slot);
    forall i | 0 <= i < |es| ensures Touch(es[i], slot) == Keep {
      assert es[i] in es;
    }
  }

  /** Activate changes no override and no host or VM outside its reach, for all thirty scenarios,
      any parameters and answers, succeed or fail. */
  lemma ActivationReach(env: Env, b: Book, req: Request, now: int, end: int, slot: Slot, r: Ref)
    requires Dispatch(req.id).Some?
    ensures var rs := ReachedAll(env, Dispatch(req.id).value, req.targets);
            var s' := Activated(env, b, req, now, end).0.state;
            && ((forall q :: q in rs ==> MorKey(q) != slot.key) ==> Lookup(s', slot) == Lookup(b.state, slot))
            && (r !in rs ==> Condition(s'.world, r) == Condition(b.state.world, r))
  {
    hide ActivationPlan, ReachedAll, Condition, Lookup;
    var sc, x := Dispatch(req.id).value, ExpiryFor(req, now);
    var rs := ReachedAll(env, sc, req.targets);
    var es := ActivationPlan(env, sc, req.targets, req.params, x, b.state.calls).events;
    RegisteredDispatch(req.id);
    PlanWithin(env, sc, req.targets, req.params, x, b.state.calls);
    if forall q :: q in rs ==> MorKey(q) != slot.key {
      WithinKeeps(es, rs, slot);
      RunLookup(b.state, es, slot);
    }
    if r !in rs {
      WithinFrame(b.state, es, rs, r);
    }
  }

  // ---------- One target among several ----------

  /** The task number at which the activation reaches target k. */
  function TickAt(env: Env, sc: Scenario, targets: seq<string>, params: Params, x: Expiry, n: nat, k: nat): nat
    requires k <= |targets|
    decreases k
  {
    if k == 0 then n
    else TickAt(env, sc, targets[1..], params, x, n + Calls(TargetPlan(env, sc, targets[0], params, x, n).events),
                k - 1)
  }

  /** What the activation does for target k when it gets there. */
  function PlanAt(env: Env, sc: Scenario, targets: seq<string>, params: Params, x: Expiry, n: nat, k: nat): Plan
    requires k < |targets|
  {
    TargetPlan(env, sc, targets[k], params, x, TickAt(env, sc, targets, params, x, n, k))
  }

  lemma PlanAtRest(env: Env, sc: Scenario, targets: seq<string>, params: Params, x: Expiry, n: nat, k: nat)
    requires 0 < k < |targets|
    ensures var later := n + Calls(TargetPlan(env, sc, targets[0], params, x, n).events);
            PlanAt(env, sc, targets, params, x, n, k) == PlanAt(env, sc, targets[1..], params, x, later, k - 1)
  {
    hide TargetPlan;
  }

  /** An activation succeeds exactly when it does for every target, each at its own task number. */
  lemma {:induction false} AllTargetsOk(env: Env, sc: Scenario, targets: seq<string>, params: Params, x: Expiry, n: nat)
    ensures ActivationPlan(env, sc, targets, params, x, n).Ok()
            <==> forall k :: 0 <= k < |targets| ==> PlanAt(env, sc, targets, params, x, n, k).Ok()
    decreases targets
  {
    hide TargetPlan, PlanAt, Uniform, Calls;
    if targets != [] {
      var p := TargetPlan(env, sc, targets[0], params, x, n);
      PlanAtFirst(env, sc, targets, params, x, n);
      var later := n + Calls(p.events);
      AllTargetsOk(env, sc, targets[1..], params, x, later);
      forall k | 0 < k < |targets|
        ensures PlanAt(env, sc, targets, params, x, n, k) == PlanAt(env, sc, targets[1..], params, x, later, k - 1)
      {
        PlanAtRest(env, sc, targets, params, x, n, k);
      }
      if forall k :: 0 <= k < |targets| ==> PlanAt(env, sc, targets, params, x, n, k).Ok() {
        forall k | 0 <= k < |targets[1..]| ensures PlanAt(env, sc, targets[1..], params, x, later, k).Ok() {
          assert PlanAt(env, sc, targets, params, x, n, k + 1).Ok();
        }
      }
    }
  }

  lemma PlanAtFirst(env: Env, sc: Scenario, targets: seq<string>, params: Params, x: Expiry, n: nat)
    requires targets != []
    ensures PlanAt(env, sc, targets, params, x, n, 0) == TargetPlan(env, sc, targets[0], params, x, n)
  {
    hide TargetPlan;
  }

  lemma LastAcrossRest(env: Env, sc: Scenario, targets: seq<string>, params: Params, x: Expiry, n: nat, slot: Slot)
    requires targets != [] && ActivationPlan(env, sc, targets, params, x, n).Ok()
    ensures var p := TargetPlan(env, sc, targets[0], params, x, n);
            var q := ActivationPlan(env, sc, targets[1..], params, x, n + Calls(p.events));
            && q.Ok()
            && Last(ActivationPlan(env, sc, targets, params, x, n).events, slot)
            == Over(Last(p.events, slot), Last(q.events, slot))
  {
    hide TargetPlan, Last, Uniform, Calls;
    var p := TargetPlan(env, sc, targets[0], params, x, n);
    LastConcat(p.events, ActivationPlan(env, sc, targets[1..], params, x, n + Calls(p.events)).events, slot);
  }

  /** The events of an activation are those of its targets, as far as it gets. */
  lemma {:induction false} PlanOnly(
    env: Env, sc: Scenario, targets: seq<string>, params: Params, x: Expiry, n: nat, e: Event)
    requires e in ActivationPlan(env, sc, targets, params, x, n).events
    ensures exists k :: 0 <= k < |targets| && e in PlanAt(env, sc, targets, params, x, n, k).events
    decreases targets
  {
    hide ActivationPlan, TargetPlan, PlanAt, Uniform, Calls;
    ActivationOfNone(env, sc, params, x, n);
    ActivationCons(env, sc, targets, params, x, n);
    PlanAtFirst(env, sc, targets, params, x, n);
    var p := TargetPlan(env, sc, targets[0], params, x, n);
    if e !in p.events {
      PlanOnly(env, sc, targets[1..], params, x, n + Calls(p.events), e);
      var k :| 0 <= k < |targets[1..]| && e in PlanAt(env, sc, targets[1..], params, x, n + Calls(p.events), k).events;
      PlanAtRest(env, sc, targets, params, x, n, k + 1);
    }
  }

  lemma {:induction false} PlanHas(
    env: Env, sc: Scenario, targets: seq<string>, params: Params, x: Expiry, n: nat, k: nat, e: Event)
    requires k < |targets| && e in PlanAt(env, sc, targets, params, x, n, k).events
    requires forall j :: 0 <= j < k ==> PlanAt(env, sc, targets, params, x, n, j).Ok()
    ensures e in ActivationPlan(env, sc, targets, params, x, n).events
    decreases targets
  {
    hide ActivationPlan, TargetPlan, PlanAt, Uniform, Calls;
    ActivationCons(env, sc, targets, params, x, n);
    PlanAtFirst(env, sc, targets, params, x, n);
    if k > 0 {
      var rest, later := targets[1..], n + Calls(TargetPlan(env, sc, targets[0], params, x, n).events);
      forall j | 0 <= j < k - 1 ensures PlanAt(env, sc, rest, params, x, later, j).Ok() {
        PlanAtRest(env, sc, targets, params, x, n, j + 1);
        assert PlanAt(env, sc, targets, params, x, n, j + 1).Ok();
      }
      assert PlanAt(env, sc, targets, params, x, n, 0).Ok();
      PlanAtRest(env, sc, targets, params, x, n, k);
      PlanHas(env, sc, rest, params, x, later, k - 1, e);
    }
  }

  /** Every target but the k-th leaves the slot alone. */
  ghost predicate OthersKeep(
    env: Env, sc: Scenario, targets: seq<string>, params: Params, x: Expiry, n: nat, k: nat, slot: Slot)
  {
    forall j :: 0 <= j < |targets| && j != k ==> Last(PlanAt(env, sc, targets, params, x, n, j).events, slot) == Keep
  }

  lemma OthersKeepRest(
    env: Env, sc: Scenario, targets: seq<string>, params: Params, x: Expiry, n: nat, k: nat, slot: Slot)
    requires targets != [] && OthersKeep(env, sc, targets, params, x, n, k, slot)
    ensures var p := TargetPlan(env, sc, targets[0], params, x, n);
            var later, rest := n + Calls(p.events), targets[1..];
            && (k > 0 ==> Last(p.events, slot) == Keep && OthersKeep(env, sc, rest, params, x, later, k - 1, slot))
            && (k == 0 ==> OthersKeep(env, sc, rest, params, x, later, |rest|, slot))
  {
    hide TargetPlan, PlanAt, Last;
    var p, rest := TargetPlan(env, sc, targets[0], params, x, n), targets[1..];
    var later := n + Calls(p.events);
    PlanAtFirst(env, sc, targets, params, x, n);
    forall j | 0 <= j < |rest| && j + 1 != k
      ensures Last(PlanAt(env, sc, rest, params, x, later, j).events, slot) == Keep
    {
      PlanAtRest(env, sc, targets, params, x, n, j + 1);
    }
  }

  lemma {:induction false} AllKeep(
    env: Env, sc: Scenario, targets: seq<string>, params: Params, x: Expiry, n: nat, slot: Slot)
    requires ActivationPlan(env, sc, targets, params, x, n).Ok()
    requires OthersKeep(env, sc, targets, params, x, n, |targets|, slot)
    ensures Last(ActivationPlan(env, sc, targets, params, x, n).events, slot) == Keep
    decreases targets
  {
    hide TargetPlan, OthersKeep, Last, Uniform;
    if targets == [] {
      LastOfNone(slot);
    } else {
      LastAcrossRest(env, sc, targets, params, x, n, slot);
      OthersKeepRest(env, sc, targets, params, x, n, |targets|, slot);
      AllKeep(env, sc, targets[1..], params, x, n + Calls(TargetPlan(env, sc, targets[0], params, x, n).events), slot);
    }
  }

  /** When every other target leaves the slot alone, target k alone decides it. */
  lemma {:induction false} LastAcross(
    env: Env, sc: Scenario, targets: seq<string>, params: Params, x: Expiry, n: nat, k: nat, slot: Slot)
    requires k < |targets| && ActivationPlan(env, sc, targets, params, x, n).Ok()
    requires OthersKeep(env, sc, targets, params, x, n, k, slot)
    ensures Last(ActivationPlan(env, sc, targets, params, x, n).events, slot)
            == Last(PlanAt(env, sc, targets, params, x, n, k).events, slot)
    decreases targets
  {
    hide TargetPlan, PlanAt, OthersKeep, Last, ActivationPlan, Uniform;
    var later := n + Calls(TargetPlan(env, sc, targets[0], params, x, n).events);
    LastAcrossRest(env, sc, targets, params, x, n, slot);
    OthersKeepRest(env, sc, targets, params, x, n, k, slot);
    if k == 0 {
      PlanAtFirst(env, sc, targets, params, x, n);
      AllKeep(env, sc, targets[1..], params, x, later, slot);
    } else {
      PlanAtRest(env, sc, targets, params, x, n, k);
      LastAcross(env, sc, targets[1..], params, x, later, k - 1, slot);
    }
  }

  /** What events make of one host or VM depends on its own condition only. */
  lemma {:induction false} ConditionOwn(s: State, s': State, es: seq<Event>, r: Ref)
    requires Condition(s.world, r) == Condition(s'.world, r)
    ensures Condition(Run(s, es).world, r) == Condition(Run(s', es).world, r)
    decreases es
  {
    if es != [] {
      ConditionStep(s, s', es[0], r);
      ConditionOwn(Step(s, es[0]), Step(s', es[0]), es[1..], r);
    }
  }

  lemma ConditionStep(s: State, s': State, e: Event, r: Ref)
    requires Condition(s.world, r) == Condition(s'.world, r)
    ensures Condition(Step(s, e).world, r) == Condition(Step(s', e).world, r)
  {
    hide Put;
    if e.Call? && e.outcome == Done {
      var w, w' := Effected(s.world, e.op, e.ref), Effected(s'.world, e.op, e.ref);
      match e.op {
        case CreateSnapshot(_) => assert w.snapshots[r] == s.world.snapshots[r] + multiset{e.ref}[r];
        case _ =>
      }
      assert Condition(w, r) == Condition(w', r);
    }
  }

  /** When no other target reaches r, target k alone decides its condition. */
  lemma {:induction false} ConditionAcross(
    env: Env, sc: Scenario, targets: seq<string>, params: Params, x: Expiry, n: nat, k: nat, s: State, r: Ref)
    requires k < |targets| && ActivationPlan(env, sc, targets, params, x, n).Ok()
    requires forall j :: 0 <= j < |targets| && j != k ==> r !in Reached(env, sc, targets[j])
    ensures Condition(Run(s, ActivationPlan(env, sc, targets, params, x, n).events).world, r)
            == Condition(Run(s, PlanAt(env, sc, targets, params, x, n, k).events).world, r)
    decreases targets
  {
    hide TargetPlan, PlanAt, Condition, Reached, Within, Run;
    var p, rest := TargetPlan(env, sc, targets[0], params, x, n), targets[1..];
    var later := n + Calls(p.events);
    var q := ActivationPlan(env, sc, rest, params, x, later);
    PlanAtFirst(env, sc, targets, params, x, n);
    RunConcat(s, p.events, q.events);
    if k > 0 {
      PlanAtRest(env, sc, targets, params, x, n, k);
      TargetWithin(env, sc, targets[0], params, x, n);
      WithinFrame(s, p.events, Reached(env, sc, targets[0]), r);
      forall j | 0 <= j < |rest| && j != k - 1 ensures r !in Reached(env, sc, rest[j]) {
        assert rest[j] == targets[j + 1];
      }
      ConditionAcross(env, sc, rest, params, x, later, k - 1, Run(s, p.events), r);
      ConditionOwn(Run(s, p.events), s, PlanAt(env, sc, targets, params, x, n, k).events, r);
    } else {
      forall j | 0 <= j < |rest| ensures r !in Reached(env, sc, rest[j]) {
        assert rest[j] == targets[j + 1];
      }
      NotReachedAll(env, sc, rest, r);
      PlanWithin(env, sc, rest, params, x, later);
      WithinFrame(Run(s, p.events), q.events, ReachedAll(env, sc, rest), r);
    }
  }

  lemma {:induction false} NotReachedAll(env: Env, sc: Scenario, targets: seq<string>, r: Ref)
    requires forall j :: 0 <= j < |targets| ==> r !in Reached(env, sc, targets[j])
    ensures r !in ReachedAll(env, sc, targets)
  {
    hide Reached;
    if targets != [] {
      NotReachedAll(env, sc, targets[1..], r);
    }
  }

  /** No target but the k-th reaches an entity with this registry key. */
  ghost predicate OnlyTarget(env: Env, sc: Scenario, targets: seq<string>, k: nat, key: string) {
    forall j, q :: 0 <= j < |targets| && j != k && q in Reached(env, sc, targets[j]) ==> MorKey(q) != key
  }

  /** A successful Activate, for all thirty scenarios, treats each target as if it were the only one:
      on an entity no other target reaches, it leaves the overrides and the host or VM state that
      the plan of target k leaves, begun at the task number where the loop gets there. */
  lemma ActivationByTarget(env: Env, b: Book, req: Request, now: int, end: int, k: nat, slot: Slot, r: Ref)
    requires Activated(env, b, req, now, end).1 == Ok && k < |req.targets|
    ensures Dispatch(req.id).Some?
    ensures var sc := Dispatch(req.id).value;
            var s' := Activated(env, b, req, now, end).0.state;
            var alone := Run(b.state,
                             PlanAt(env, sc, req.targets, req.params, ExpiryFor(req, now), b.state.calls, k).events);
            && (OnlyTarget(env, sc, req.targets, k, slot.key) ==> Lookup(s', slot) == Lookup(alone, slot))
            && (OnlyTarget(env, sc, req.targets, k, MorKey(r)) ==> Condition(s'.world, r) == Condition(alone.world, r))
  {
    hide ActivationPlan, PlanAt, Reached, Condition, Lookup, Last, Within;
    RegisteredDispatch(req.id);
    var sc, x, n := Dispatch(req.id).value, ExpiryFor(req, now), b.state.calls;
    var es := ActivationPlan(env, sc, req.targets, req.params, x, n).events;
    if OnlyTarget(env, sc, req.targets, k, slot.key) {
      forall j | 0 <= j < |req.targets| && j != k
        ensures Last(PlanAt(env, sc, req.targets, req.params, x, n, j).events, slot) == Keep
      {
        PlanAtWithin(env, sc, req.targets, req.params, x, n, j);
        WithinKeeps(PlanAt(env, sc, req.targets, req.params, x, n, j).events, Reached(env, sc, req.targets[j]), slot);
      }
      LastAcross(env, sc, req.targets, req.params, x, n, k, slot);
      RunLookup(b.state, es, slot);
      RunLookup(b.state, PlanAt(env, sc, req.targets, req.params, x, n, k).events, slot);
    }
    if OnlyTarget(env, sc, req.targets, k, MorKey(r)) {
      ConditionAcross(env, sc, req.targets, req.params, x, n, k, b.state, r);
    }
  }

  lemma PlanAtWithin(env: Env, sc: Scenario, targets: seq<string>, params: Params, x: Expiry, n: nat, k: nat)
    requires k < |targets|
    ensures Within(PlanAt(env, sc, targets, params, x, n, k).events, Reached(env, sc, targets[k]))
  {
    TargetWithin(env, sc, targets[k], params, x, TickAt(env, sc, targets, params, x, n, k));
  }
}
