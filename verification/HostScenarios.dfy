/** The scenarios that load a host and its VMs, and CPU contention of a cluster: for each id, when the request
    succeeds and exactly what hosts and VMs then answer. */
module HostScenarios {
  import opened Wrappers
  import opened Overrides
  import opened Engine
  import opened Samples
  import opened Plans
  import opened Lifecycle
  import opened Footprints
  import opened Reach
  import opened Cascades
  import opened ClusterRequests
  import opened HostLoads
  import opened Effects

  /** The k-th target is a host that no other target reaches and that is none of its own VMs. */
  ghost predicate HostAlone(env: Env, sc: Scenario, targets: seq<string>, k: nat)
    requires k < |targets| && targets[k] in env.objects
  {
    var key := MorKey(env.objects[targets[k]]);
    OnlyTarget(env, sc, targets, k, key) && !VmAt(VmsOf(env, targets[k]), 0, key)
  }

  /** The VMs of the k-th target are distinct, and its i-th VM is not the host and reached by no other target. */
  ghost predicate VmAlone(env: Env, sc: Scenario, targets: seq<string>, k: nat, i: nat)
    requires k < |targets| && targets[k] in env.objects && i < |VmsOf(env, targets[k])|
  {
    var vms := VmsOf(env, targets[k]);
    && DistinctVms(vms) && MorKey(vms[i]) != MorKey(env.objects[targets[k]])
    && OnlyTarget(env, sc, targets, k, MorKey(vms[i]))
  }

  predicate AllObjects(env: Env, targets: seq<string>) {
    forall t :: t in targets ==> t in env.objects
  }

  lemma HostAnswers(env: Env, b: Book, req: Request, now: int, end: int, k: nat, sc: Scenario, rs: seq<Reading>)
    requires Dispatch(req.id) == Some(sc) && HostAndVms(sc) && k < |req.targets|
    requires TargetWrites(sc, req.params, ExpiryFor(req, now)) == StandAll(rs, ExpiryFor(req, now))
    ensures Activated(env, b, req, now, end).1 == Ok <==> AllObjects(env, req.targets)
    ensures AllObjects(env, req.targets) && HostAlone(env, sc, req.targets, k) ==>
              Answers(b.state, Activated(env, b, req, now, end).0.state, env.objects[req.targets[k]], rs, req, now)
  {
    hide Activated, TargetWrites, StandAll, OnlyTarget, VmAt, TakesWrites, Answers, HostAndVms;
    LoadRequest(env, b, req, now, end, k);
    if AllObjects(env, req.targets) && HostAlone(env, sc, req.targets, k) {
      TakesAnswers(b.state, Activated(env, b, req, now, end).0.state, env.objects[req.targets[k]], rs, req, now);
    }
  }

  lemma VmAnswers(env: Env, b: Book, req: Request, now: int, end: int, k: nat, i: nat, sc: Scenario, rs: seq<Reading>)
    requires Dispatch(req.id) == Some(sc) && HostAndVms(sc) && k < |req.targets| && AllObjects(env, req.targets)
    requires i < |VmsOf(env, req.targets[k])| && VmAlone(env, sc, req.targets, k, i)
    requires VmWrites(sc, i, VmsOf(env, req.targets[k])[i], ExpiryFor(req, now)) == StandAll(rs, ExpiryFor(req, now))
    ensures Answers(b.state, Activated(env, b, req, now, end).0.state, VmsOf(env, req.targets[k])[i], rs, req, now)
  {
    hide Activated, VmWrites, StandAll, OnlyTarget, VmAt, TakesWrites, Answers, HostAndVms, DistinctVms;
    LoadRequest(env, b, req, now, end, k);
    TakesAnswers(b.state, Activated(env, b, req, now, end).0.state, VmsOf(env, req.targets[k])[i], rs, req, now);
  }

  /** CPU usage of the host follows cpu_percent; ready time and usage of each VM follow the last character of its
      reference value. */
  lemma CpuHostSaturationRequest(env: Env, b: Book, req: Request, now: int, end: int, k: nat, percent: int)
    requires req.id == "cpu_host_saturation" && k < |req.targets|
    requires percent == if "cpu_percent" in req.params then req.params["cpu_percent"] else 97
    ensures Activated(env, b, req, now, end).1 == Ok <==> AllObjects(env, req.targets)
    ensures AllObjects(env, req.targets) ==>
              var s', t := Activated(env, b, req, now, end).0.state, req.targets[k];
              && (HostAlone(env, CpuHostSaturation, req.targets, k) ==>
                    Answers(b.state, s', env.objects[t],
                            [Meter(2, HighValues(percent * 100, 5))], req, now))
              && (forall i :: 0 <= i < |VmsOf(env, t)| && VmAlone(env, CpuHostSaturation, req.targets, k, i) ==>
                    Answers(b.state, s', VmsOf(env, t)[i], CpuHostSaturationVm(VmsOf(env, t)[i]), req, now))
  {
    hide Activated, HighValues, IncrementingValues, Answers, HostAlone, VmAlone;
    var rs := [Meter(2, HighValues(percent * 100, 5))];
    HostAnswers(env, b, req, now, end, k, CpuHostSaturation, rs);
    if AllObjects(env, req.targets) {
      var s', vms := Activated(env, b, req, now, end).0.state, VmsOf(env, req.targets[k]);
      forall i | 0 <= i < |vms| && VmAlone(env, CpuHostSaturation, req.targets, k, i)
        ensures Answers(b.state, s', vms[i], CpuHostSaturationVm(vms[i]), req, now)
      {
        VmAnswers(env, b, req, now, end, k, i, CpuHostSaturation, CpuHostSaturationVm(vms[i]));
      }
    }
  }

  function CpuHostSaturationVm(vm: VmRef): seq<Reading> {
    var last := vm.value[|vm.value| - 1] as int;
    [Meter(12, HighValues(8000 + last * 500, 20)), Meter(2, HighValues((70 + last % 20) * 100, 5))]
  }

  /** Usage of the host follows mem_percent, with balloon, swap and compression; the balloon of the i-th VM
      varies over four sizes, and each VM swaps. */
  lemma MemHostExhaustionRequest(env: Env, b: Book, req: Request, now: int, end: int, k: nat, percent: int)
    requires req.id == "mem_host_exhaustion" && k < |req.targets|
    requires percent == if "mem_percent" in req.params then req.params["mem_percent"] else 98
    ensures Activated(env, b, req, now, end).1 == Ok <==> AllObjects(env, req.targets)
    ensures AllObjects(env, req.targets) ==>
              var s', t := Activated(env, b, req, now, end).0.state, req.targets[k];
              && (HostAlone(env, MemHostExhaustion, req.targets, k) ==>
                    Answers(b.state, s', env.objects[t],
                            [Meter(24, HighValues(percent * 100, 3)), Meter(90, HighValues(4_194_304, 10)),
                             Meter(85, HighValues(2000, 30)), Meter(86, HighValues(1000, 30)),
                             Meter(80, HighValues(500, 20))], req, now))
              && (forall i :: 0 <= i < |VmsOf(env, t)| && VmAlone(env, MemHostExhaustion, req.targets, k, i) ==>
                    Answers(b.state, s', VmsOf(env, t)[i], MemHostExhaustionVm(i), req, now))
  {
    hide Activated, HighValues, IncrementingValues, Answers, HostAlone, VmAlone;
    var rs := [Meter(24, HighValues(percent * 100, 3)), Meter(90, HighValues(4_194_304, 10)),
               Meter(85, HighValues(2000, 30)), Meter(86, HighValues(1000, 30)), Meter(80, HighValues(500, 20))];
    HostAnswers(env, b, req, now, end, k, MemHostExhaustion, rs);
    if AllObjects(env, req.targets) {
      var s', vms := Activated(env, b, req, now, end).0.state, VmsOf(env, req.targets[k]);
      forall i | 0 <= i < |vms| && VmAlone(env, MemHostExhaustion, req.targets, k, i)
        ensures Answers(b.state, s', vms[i], MemHostExhaustionVm(i), req, now)
      {
        VmAnswers(env, b, req, now, end, k, i, MemHostExhaustion, MemHostExhaustionVm(i));
      }
    }
  }

  function MemHostExhaustionVm(i: nat): seq<Reading> {
    [Meter(65, HighValues((512 + i % 4 * 256) * 1024, 10)), Meter(35, HighValues(262_144, 15))]
  }

  /** The host's network is near capacity and drops packets, and each VM drops a quarter as many. */
  lemma NetSaturationRequest(env: Env, b: Book, req: Request, now: int, end: int, k: nat)
    requires req.id == "net_saturation" && k < |req.targets|
    ensures Activated(env, b, req, now, end).1 == Ok <==> AllObjects(env, req.targets)
    ensures AllObjects(env, req.targets) ==>
              var s', t := Activated(env, b, req, now, end).0.state, req.targets[k];
              && (HostAlone(env, NetSaturation, req.targets, k) ==>
                    Answers(b.state, s', env.objects[t],
                            [Meter(195, HighValues(9500, 3)), Meter(460, IncrementingValues(200, 10)),
                             Meter(461, IncrementingValues(100, 10))], req, now))
              && (forall i :: 0 <= i < |VmsOf(env, t)| && VmAlone(env, NetSaturation, req.targets, k, i) ==>
                    Answers(b.state, s', VmsOf(env, t)[i], NetSaturationVm(), req, now))
  {
    hide Activated, HighValues, IncrementingValues, Answers, HostAlone, VmAlone;
    var rs := [Meter(195, HighValues(9500, 3)), Meter(460, IncrementingValues(200, 10)),
               Meter(461, IncrementingValues(100, 10))];
    HostAnswers(env, b, req, now, end, k, NetSaturation, rs);
    if AllObjects(env, req.targets) {
      var s', vms := Activated(env, b, req, now, end).0.state, VmsOf(env, req.targets[k]);
      forall i | 0 <= i < |vms| && VmAlone(env, NetSaturation, req.targets, k, i)
        ensures Answers(b.state, s', vms[i], NetSaturationVm(), req, now)
      {
        VmAnswers(env, b, req, now, end, k, i, NetSaturation, NetSaturationVm());
      }
    }
  }

  function NetSaturationVm(): seq<Reading> {
    [Meter(460, IncrementingValues(50, 10)), Meter(461, IncrementingValues(25, 10))]
  }

  /** CPU usage of a cluster's i-th host lies between 82 and 97 percent in steps of three, and the ready time of its
      VMs grows by a second from host to host. */
  lemma CpuClusterContentionRequest(env: Env, b: Book, req: Request, now: int, end: int, k: nat, i: nat)
    requires req.id == "cpu_cluster_contention" && k < |req.targets|
    ensures Activated(env, b, req, now, end).1 == Ok <==> AllFound(env, req.targets)
    ensures AllFound(env, req.targets) ==>
              var hosts, s' := env.clusterHosts[req.targets[k]], Activated(env, b, req, now, end).0.state;
              i < |hosts| ==>
                && (ClusterHostAlone(env, req.targets, k, i) ==>
                      Answers(b.state, s', hosts[i].ref, [Meter(2, HighValues((82 + i * 3 % 18) * 100, 5))], req, now))
                && (forall j :: 0 <= j < |VmsOf(env, hosts[i].path)| && ClusterVmAlone(env, req.targets, k, i, j) ==>
                      Answers(b.state, s', VmsOf(env, hosts[i].path)[j], [Meter(12, HighValues(5000 + i * 1000, 20))],
                              req, now))
  {
    hide Activated, HighValues, Answers, ClusterHostAlone, ClusterVmAlone;
    ContentionOk(env, b, req, now, end);
    if AllFound(env, req.targets) {
      var hosts, s' := env.clusterHosts[req.targets[k]], Activated(env, b, req, now, end).0.state;
      if i < |hosts| {
        if ClusterHostAlone(env, req.targets, k, i) {
          ContendedHost(env, b, req, now, end, k, i);
        }
        forall j | 0 <= j < |VmsOf(env, hosts[i].path)| && ClusterVmAlone(env, req.targets, k, i, j)
          ensures Answers(b.state, s', VmsOf(env, hosts[i].path)[j], [Meter(12, HighValues(5000 + i * 1000, 20))], req,
                          now)
        {
          ContendedVm(env, b, req, now, end, k, i, j);
        }
      }
    }
  }

  /** Host i of the k-th cluster is no other host and no VM, and no other target reaches it. */
  ghost predicate ClusterHostAlone(env: Env, targets: seq<string>, k: nat, i: nat)
    requires k < |targets| && targets[k] in env.clusterHosts && i < |env.clusterHosts[targets[k]]|
  {
    var hosts := env.clusterHosts[targets[k]];
    && DistinctHosts(hosts) && !VmOfHostAt(env, hosts, 0, MorKey(hosts[i].ref))
    && OnlyTarget(env, CpuClusterContention, targets, k, MorKey(hosts[i].ref))
  }

  ghost predicate ClusterVmAlone(env: Env, targets: seq<string>, k: nat, i: nat, j: nat)
    requires k < |targets| && targets[k] in env.clusterHosts && i < |env.clusterHosts[targets[k]]|
    requires j < |VmsOf(env, env.clusterHosts[targets[k]][i].path)|
  {
    var hosts := env.clusterHosts[targets[k]];
    OwnVmOf(env, hosts, i, j) && OnlyTarget(env, CpuClusterContention, targets, k, MorKey(VmsOf(env, hosts[i].path)[j]))
  }

  lemma ContentionOk(env: Env, b: Book, req: Request, now: int, end: int)
    requires req.id == "cpu_cluster_contention"
    ensures Activated(env, b, req, now, end).1 == Ok <==> AllFound(env, req.targets)
  {
    hide ActivationPlan, TargetPlan, TickAt, Run, Uniform;
    var x, n := ExpiryFor(req, now), b.state.calls;
    RegisteredDispatch(req.id);
    assert Dispatch(req.id) == Some(CpuClusterContention);
    AllTargetsOk(env, CpuClusterContention, req.targets, req.params, x, n);
    forall i | 0 <= i < |req.targets|
      ensures PlanAt(env, CpuClusterContention, req.targets, req.params, x, n, i).Ok()
              <==> req.targets[i] in env.clusterHosts
    {
      ContentionTarget(env, req.targets[i], req.params, x,
                       TickAt(env, CpuClusterContention, req.targets, req.params, x, n, i));
    }
  }

  lemma ContentionTarget(env: Env, target: string, params: Params, x: Expiry, n: nat)
    ensures TargetPlan(env, CpuClusterContention, target, params, x, n).Ok() <==> target in env.clusterHosts
  {
    hide ContentionOn, Uniform;
  }

  lemma ContendedHost(env: Env, b: Book, req: Request, now: int, end: int, k: nat, i: nat)
    requires req.id == "cpu_cluster_contention" && k < |req.targets| && AllFound(env, req.targets)
    requires i < |env.clusterHosts[req.targets[k]]| && ClusterHostAlone(env, req.targets, k, i)
    ensures Answers(b.state, Activated(env, b, req, now, end).0.state, env.clusterHosts[req.targets[k]][i].ref,
                    [Meter(2, HighValues((82 + i * 3 % 18) * 100, 5))], req, now)
  {
    hide Activated, HighValues, Answers, OnlyTarget, TakesWrites, VmOfHostAt, DistinctHosts;
    var hosts, s', x := env.clusterHosts[req.targets[k]], Activated(env, b, req, now, end).0.state, ExpiryFor(req, now);
    var rs := [Meter(2, HighValues((82 + i * 3 % 18) * 100, 5))];
    ContentionOk(env, b, req, now, end);
    assert Dispatch(req.id) == Some(CpuClusterContention);
    ContentionRequest(env, b, req, now, end, k, i);
    assert HighCpu(ContentionCpu(i), x) == StandAll(rs, x);
    TakesAnswers(b.state, s', hosts[i].ref, rs, req, now);
  }

  lemma ContendedVm(env: Env, b: Book, req: Request, now: int, end: int, k: nat, i: nat, j: nat)
    requires req.id == "cpu_cluster_contention" && k < |req.targets| && AllFound(env, req.targets)
    requires i < |env.clusterHosts[req.targets[k]]| && j < |VmsOf(env, env.clusterHosts[req.targets[k]][i].path)|
    requires ClusterVmAlone(env, req.targets, k, i, j)
    ensures Answers(b.state, Activated(env, b, req, now, end).0.state,
                    VmsOf(env, env.clusterHosts[req.targets[k]][i].path)[j],
                    [Meter(12, HighValues(5000 + i * 1000, 20))], req, now)
  {
    hide Activated, HighValues, Answers, OnlyTarget, TakesWrites, OwnVmOf;
    var hosts, s', x := env.clusterHosts[req.targets[k]], Activated(env, b, req, now, end).0.state, ExpiryFor(req, now);
    var rs := [Meter(12, HighValues(5000 + i * 1000, 20))];
    ContentionOk(env, b, req, now, end);
    assert Dispatch(req.id) == Some(CpuClusterContention);
    ContentionRequest(env, b, req, now, end, k, i);
    assert HighReady(ContentionReady(i), x) == StandAll(rs, x);
    TakesAnswers(b.state, s', VmsOf(env, hosts[i].path)[j], rs, req, now);
  }
}
