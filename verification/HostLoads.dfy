/** What a reader sees after the scenarios that load hosts together with the VMs on them: CPU saturation,
    memory exhaustion and network saturation of a host, and CPU contention of a cluster. */
module HostLoads {
  import opened Wrappers
  import opened Overrides
  import opened Engine
  import opened Plans
  import opened Lifecycle
  import opened Footprints
  import opened Reach
  import opened Cascades
  import opened ClusterRequests
  import Samples

  ghost predicate DistinctVms(vms: seq<VmRef>) {
    forall i, j :: 0 <= i < j < |vms| ==> MorKey(vms[i]) != MorKey(vms[j])
  }

  predicate VmAt(vms: seq<VmRef>, i: nat, key: string) {
    exists k :: i <= k < |vms| && MorKey(vms[k]) == key
  }

  lemma NoVmRest(vms: seq<VmRef>, i: nat, key: string)
    requires i < |vms| && !VmAt(vms, i, key)
    ensures MorKey(vms[i]) != key && !VmAt(vms, i + 1, key)
  {
  }

  // ---------- One host and its VMs ----------

  lemma {:induction false} VmsElsewhere(sc: Scenario, vms: seq<VmRef>, i: nat, x: Expiry, slot: Slot)
    requires HostAndVms(sc) && !VmAt(vms, i, slot.key)
    ensures Last(OnVms(sc, vms, i, x), slot) == Keep
    decreases |vms| - i
  {
    hide VmWrites, VmAt;
    if i < |vms| {
      NoVmRest(vms, i, slot.key);
      OnElsewhere(vms[i], VmWrites(sc, i, vms[i], x), slot);
      VmsElsewhere(sc, vms, i + 1, x, slot);
      LastConcat(On(vms[i], VmWrites(sc, i, vms[i], x)), OnVms(sc, vms, i + 1, x), slot);
    }
  }

  lemma {:induction false} OwnVm(sc: Scenario, vms: seq<VmRef>, i: nat, x: Expiry, k: nat, slot: Slot)
    requires HostAndVms(sc) && DistinctVms(vms) && i <= k < |vms| && slot.key == MorKey(vms[k])
    ensures Last(OnVms(sc, vms, i, x), slot) == Last(On(vms[k], VmWrites(sc, k, vms[k], x)), slot)
    decreases |vms| - i
  {
    hide VmWrites;
    var here := On(vms[i], VmWrites(sc, i, vms[i], x));
    LastConcat(here, OnVms(sc, vms, i + 1, x), slot);
    if i == k {
      VmsElsewhere(sc, vms, i + 1, x, slot);
    } else {
      OnElsewhere(vms[i], VmWrites(sc, i, vms[i], x), slot);
      OwnVm(sc, vms, i + 1, x, k, slot);
    }
  }

  lemma HostWritesOnce(sc: Scenario, params: Params, x: Expiry)
    requires HostAndVms(sc)
    ensures OnceEach(TargetWrites(sc, params, x))
  {
    hide Samples.HighValues, Samples.IncrementingValues, Samples.Quot;
  }

  lemma VmWritesOnce(sc: Scenario, i: nat, vm: VmRef, x: Expiry)
    requires HostAndVms(sc)
    ensures OnceEach(VmWrites(sc, i, vm, x))
  {
    hide Samples.HighValues, Samples.IncrementingValues, Samples.Quot;
  }

  function LoadEvents(sc: Scenario, ref: Ref, vms: seq<VmRef>, params: Params, x: Expiry): seq<Event>
    requires HostAndVms(sc)
  {
    On(ref, TargetWrites(sc, params, x)) + OnVms(sc, vms, 0, x)
  }

  lemma HostOfLoad(s: State, sc: Scenario, ref: Ref, vms: seq<VmRef>, params: Params, x: Expiry)
    requires HostAndVms(sc) && !VmAt(vms, 0, MorKey(ref))
    ensures TakesWrites(s, Run(s, LoadEvents(sc, ref, vms, params, x)), ref, TargetWrites(sc, params, x))
  {
    hide TargetWrites, Run, Last, OnceEach, OnVms, VmAt, TakesWrites;
    HostWritesOnce(sc, params, x);
    var es := LoadEvents(sc, ref, vms, params, x);
    forall slot: Slot | slot.key == MorKey(ref)
      ensures Last(es, slot) == Last(On(ref, TargetWrites(sc, params, x)), slot)
    {
      VmsElsewhere(sc, vms, 0, x, slot);
      LastConcat(On(ref, TargetWrites(sc, params, x)), OnVms(sc, vms, 0, x), slot);
    }
    OwnWritesTaken(s, es, ref, TargetWrites(sc, params, x));
  }

  lemma VmOfLoad(s: State, sc: Scenario, ref: Ref, vms: seq<VmRef>, params: Params, x: Expiry, i: nat)
    requires HostAndVms(sc) && DistinctVms(vms) && i < |vms| && MorKey(vms[i]) != MorKey(ref)
    ensures TakesWrites(s, Run(s, LoadEvents(sc, ref, vms, params, x)), vms[i], VmWrites(sc, i, vms[i], x))
  {
    hide TargetWrites, VmWrites, Run, Last, OnceEach, OnVms, TakesWrites, DistinctVms;
    VmWritesOnce(sc, i, vms[i], x);
    var es := LoadEvents(sc, ref, vms, params, x);
    forall slot: Slot | slot.key == MorKey(vms[i])
      ensures Last(es, slot) == Last(On(vms[i], VmWrites(sc, i, vms[i], x)), slot)
    {
      OnElsewhere(ref, TargetWrites(sc, params, x), slot);
      OwnVm(sc, vms, 0, x, i, slot);
      LastConcat(On(ref, TargetWrites(sc, params, x)), OnVms(sc, vms, 0, x), slot);
    }
    OwnWritesTaken(s, es, vms[i], VmWrites(sc, i, vms[i], x));
  }

  /** After CPU saturation, memory exhaustion or network saturation of any number of hosts, which succeeds
      exactly when all are found: a host that no other target reaches and that is none of its own VMs
      shows exactly its writes, and likewise the i-th of its distinct VMs its own; their other slots
      are as before. */
  lemma LoadRequest(env: Env, b: Book, req: Request, now: int, end: int, k: nat)
    requires Dispatch(req.id).Some? && HostAndVms(Dispatch(req.id).value) && k < |req.targets|
    ensures Activated(env, b, req, now, end).1 == Ok <==> forall t :: t in req.targets ==> t in env.objects
    ensures Activated(env, b, req, now, end).1 == Ok ==>
              var sc, s', x := Dispatch(req.id).value, Activated(env, b, req, now, end).0.state, ExpiryFor(req, now);
              var ref, vms := env.objects[req.targets[k]], VmsOf(env, req.targets[k]);
              && (OnlyTarget(env, sc, req.targets, k, MorKey(ref)) && !VmAt(vms, 0, MorKey(ref)) ==>
                    TakesWrites(b.state, s', ref, TargetWrites(sc, req.params, x)))
              && (forall i :: 0 <= i < |vms| && DistinctVms(vms) && MorKey(vms[i]) != MorKey(ref)
                              && OnlyTarget(env, sc, req.targets, k, MorKey(vms[i])) ==>
                    TakesWrites(b.state, s', vms[i], VmWrites(sc, i, vms[i], x)))
  {
    hide Activated, TargetWrites, VmWrites, OnlyTarget, VmAt, TakesWrites, LoadEvents, DistinctVms;
    LoadOk(env, b, req, now, end);
    if Activated(env, b, req, now, end).1 == Ok {
      var sc, s', x := Dispatch(req.id).value, Activated(env, b, req, now, end).0.state, ExpiryFor(req, now);
      var ref, vms := env.objects[req.targets[k]], VmsOf(env, req.targets[k]);
      if OnlyTarget(env, sc, req.targets, k, MorKey(ref)) && !VmAt(vms, 0, MorKey(ref)) {
        HostOfLoad(b.state, sc, ref, vms, req.params, x);
        LoadTaken(env, b, req, now, end, k, ref, TargetWrites(sc, req.params, x));
      }
      forall i | 0 <= i < |vms| && DistinctVms(vms) && MorKey(vms[i]) != MorKey(ref)
                 && OnlyTarget(env, sc, req.targets, k, MorKey(vms[i]))
        ensures TakesWrites(b.state, s', vms[i], VmWrites(sc, i, vms[i], x))
      {
        VmOfLoad(b.state, sc, ref, vms, req.params, x, i);
        LoadTaken(env, b, req, now, end, k, vms[i], VmWrites(sc, i, vms[i], x));
      }
    }
  }

  lemma LoadOk(env: Env, b: Book, req: Request, now: int, end: int)
    requires Dispatch(req.id).Some? && HostAndVms(Dispatch(req.id).value)
    ensures Activated(env, b, req, now, end).1 == Ok <==> forall t :: t in req.targets ==> t in env.objects
  {
    hide ActivationPlan, TargetWrites, OnVms, TickAt, Run;
    var sc, x, n := Dispatch(req.id).value, ExpiryFor(req, now), b.state.calls;
    RegisteredDispatch(req.id);
    AllTargetsOk(env, sc, req.targets, req.params, x, n);
    forall i | 0 <= i < |req.targets|
      ensures PlanAt(env, sc, req.targets, req.params, x, n, i).Ok() <==> req.targets[i] in env.objects
    {
    }
  }

  /** On an entity that only target k reaches, the request leaves what its own events leave. */
  lemma LoadTaken(env: Env, b: Book, req: Request, now: int, end: int, k: nat, ref: Ref, ws: seq<Override>)
    requires Dispatch(req.id).Some? && HostAndVms(Dispatch(req.id).value) && k < |req.targets|
    requires Activated(env, b, req, now, end).1 == Ok && req.targets[k] in env.objects
    requires OnlyTarget(env, Dispatch(req.id).value, req.targets, k, MorKey(ref))
    requires var sc, t := Dispatch(req.id).value, req.targets[k];
             var es := LoadEvents(sc, env.objects[t], VmsOf(env, t), req.params, ExpiryFor(req, now));
             TakesWrites(b.state, Run(b.state, es), ref, ws)
    ensures TakesWrites(b.state, Activated(env, b, req, now, end).0.state, ref, ws)
  {
    hide Activated, TargetWrites, OnVms, TickAt, OnlyTarget, TakesWrites, Run, Lookup;
    var sc, t, x := Dispatch(req.id).value, req.targets[k], ExpiryFor(req, now);
    var s' := Activated(env, b, req, now, end).0.state;
    var alone := Run(b.state, LoadEvents(sc, env.objects[t], VmsOf(env, t), req.params, x));
    forall slot: Slot | slot.key == MorKey(ref) ensures Lookup(s', slot) == Lookup(alone, slot) {
      ActivationByTarget(env, b, req, now, end, k, slot, ref);
    }
    TakenAgrees(b.state, alone, s', ref, ws);
  }

  // ---------- CPU contention of a cluster ----------

  predicate HostAt(env: Env, hosts: seq<Host>, i: nat, key: string) {
    exists k :: i <= k < |hosts| && MorKey(hosts[k].ref) == key
  }

  /** Some VM of a host from the i-th on has this key. */
  predicate VmOfHostAt(env: Env, hosts: seq<Host>, i: nat, key: string) {
    exists k :: i <= k < |hosts| && VmAt(VmsOf(env, hosts[k].path), 0, key)
  }

  lemma {:induction false} ReadyElsewhere(vms: seq<VmRef>, readyMs: int, i: nat, x: Expiry, slot: Slot)
    requires !VmAt(vms, i, slot.key)
    ensures Last(ReadyOnVms(vms, readyMs, i, x), slot) == Keep
    decreases |vms| - i
  {
    hide HighReady, VmAt;
    if i < |vms| {
      NoVmRest(vms, i, slot.key);
      OnElsewhere(vms[i], HighReady(readyMs, x), slot);
      ReadyElsewhere(vms, readyMs, i + 1, x, slot);
      LastConcat(On(vms[i], HighReady(readyMs, x)), ReadyOnVms(vms, readyMs, i + 1, x), slot);
    }
  }

  lemma {:induction false} OwnReady(vms: seq<VmRef>, readyMs: int, i: nat, x: Expiry, k: nat, slot: Slot)
    requires DistinctVms(vms) && i <= k < |vms| && slot.key == MorKey(vms[k])
    ensures Last(ReadyOnVms(vms, readyMs, i, x), slot) == Last(On(vms[k], HighReady(readyMs, x)), slot)
    decreases |vms| - i
  {
    hide HighReady;
    LastConcat(On(vms[i], HighReady(readyMs, x)), ReadyOnVms(vms, readyMs, i + 1, x), slot);
    if i == k {
      ReadyElsewhere(vms, readyMs, i + 1, x, slot);
    } else {
      OnElsewhere(vms[i], HighReady(readyMs, x), slot);
      OwnReady(vms, readyMs, i + 1, x, k, slot);
    }
  }

  function ContentionCpu(i: nat): int { 82 + i * 3 % 18 }

  function ContentionReady(i: nat): int { 5000 + i * 1000 }

  lemma ContentionCons(env: Env, hosts: seq<Host>, i: nat, x: Expiry, slot: Slot)
    requires i < |hosts|
    ensures var vms := VmsOf(env, hosts[i].path);
            Last(ContentionOn(env, hosts, i, x), slot)
            == Over(Over(Last(On(hosts[i].ref, HighCpu(ContentionCpu(i), x)), slot),
                         Last(ReadyOnVms(vms, ContentionReady(i), 0, x), slot)),
                    Last(ContentionOn(env, hosts, i + 1, x), slot))
  {
    hide HighCpu, Last;
    var host := On(hosts[i].ref, HighCpu(82 + i * 3 % 18, x));
    var ready := ReadyOnVms(VmsOf(env, hosts[i].path), 5000 + i * 1000, 0, x);
    LastConcat(host + ready, ContentionOn(env, hosts, i + 1, x), slot);
    LastConcat(host, ready, slot);
  }

  lemma {:induction false} ContentionElsewhere(env: Env, hosts: seq<Host>, i: nat, x: Expiry, slot: Slot)
    requires !HostAt(env, hosts, i, slot.key) && !VmOfHostAt(env, hosts, i, slot.key)
    ensures Last(ContentionOn(env, hosts, i, x), slot) == Keep
    decreases |hosts| - i
  {
    hide HighCpu, VmAt;
    if i < |hosts| {
      ContentionCons(env, hosts, i, x, slot);
      OnElsewhere(hosts[i].ref, HighCpu(ContentionCpu(i), x), slot);
      ReadyElsewhere(VmsOf(env, hosts[i].path), ContentionReady(i), 0, x, slot);
      ContentionElsewhere(env, hosts, i + 1, x, slot);
    }
  }

  lemma {:induction false} ContentionOnHost(env: Env, hosts: seq<Host>, i: nat, x: Expiry, k: nat, slot: Slot)
    requires DistinctHosts(hosts) && i <= k < |hosts| && slot.key == MorKey(hosts[k].ref)
    requires !VmOfHostAt(env, hosts, 0, slot.key)
    ensures Last(ContentionOn(env, hosts, i, x), slot) == Last(On(hosts[k].ref, HighCpu(ContentionCpu(k), x)), slot)
    decreases |hosts| - i
  {
    hide HighCpu, VmAt;
    ContentionCons(env, hosts, i, x, slot);
    ReadyElsewhere(VmsOf(env, hosts[i].path), ContentionReady(i), 0, x, slot);
    if i == k {
      ContentionElsewhere(env, hosts, i + 1, x, slot);
    } else {
      OnElsewhere(hosts[i].ref, HighCpu(ContentionCpu(i), x), slot);
      ContentionOnHost(env, hosts, i + 1, x, k, slot);
    }
  }

  /** The j-th VM of host k is no host and no VM of another host. */
  ghost predicate OwnVmOf(env: Env, hosts: seq<Host>, k: nat, j: nat)
    requires k < |hosts| && j < |VmsOf(env, hosts[k].path)|
  {
    var vms := VmsOf(env, hosts[k].path);
    && DistinctVms(vms) && !HostAt(env, hosts, 0, MorKey(vms[j]))
    && forall i :: 0 <= i < |hosts| && i != k ==> !VmAt(VmsOf(env, hosts[i].path), 0, MorKey(vms[j]))
  }

  lemma {:induction false} ContentionOnVm(env: Env, hosts: seq<Host>, i: nat, x: Expiry, k: nat, j: nat, slot: Slot)
    requires i <= k < |hosts| && j < |VmsOf(env, hosts[k].path)| && OwnVmOf(env, hosts, k, j)
    requires slot.key == MorKey(VmsOf(env, hosts[k].path)[j])
    ensures Last(ContentionOn(env, hosts, i, x), slot)
            == Last(On(VmsOf(env, hosts[k].path)[j], HighReady(ContentionReady(k), x)), slot)
    decreases |hosts| - i
  {
    hide HighCpu, HighReady, VmAt;
    ContentionCons(env, hosts, i, x, slot);
    OnElsewhere(hosts[i].ref, HighCpu(ContentionCpu(i), x), slot);
    if i == k {
      OwnReady(VmsOf(env, hosts[k].path), ContentionReady(k), 0, x, j, slot);
      ContentionElsewhere(env, hosts, i + 1, x, slot);
    } else {
      ReadyElsewhere(VmsOf(env, hosts[i].path), ContentionReady(i), 0, x, slot);
      ContentionOnVm(env, hosts, i + 1, x, k, j, slot);
    }
  }

  lemma HostOfContention(env: Env, s: State, hosts: seq<Host>, x: Expiry, i: nat)
    requires DistinctHosts(hosts) && i < |hosts| && !VmOfHostAt(env, hosts, 0, MorKey(hosts[i].ref))
    ensures TakesWrites(s, Run(s, ContentionOn(env, hosts, 0, x)), hosts[i].ref, HighCpu(ContentionCpu(i), x))
  {
    hide Run, Last, ContentionOn, TakesWrites, VmOfHostAt, Samples.HighValues;
    forall slot: Slot | slot.key == MorKey(hosts[i].ref)
      ensures Last(ContentionOn(env, hosts, 0, x), slot) == Last(On(hosts[i].ref, HighCpu(ContentionCpu(i), x)), slot)
    {
      ContentionOnHost(env, hosts, 0, x, i, slot);
    }
    OwnWritesTaken(s, ContentionOn(env, hosts, 0, x), hosts[i].ref, HighCpu(ContentionCpu(i), x));
  }

  lemma VmOfContention(env: Env, s: State, hosts: seq<Host>, x: Expiry, i: nat, j: nat)
    requires i < |hosts| && j < |VmsOf(env, hosts[i].path)| && OwnVmOf(env, hosts, i, j)
    ensures TakesWrites(s, Run(s, ContentionOn(env, hosts, 0, x)), VmsOf(env, hosts[i].path)[j],
                        HighReady(ContentionReady(i), x))
  {
    hide Run, Last, ContentionOn, TakesWrites, OwnVmOf, Samples.HighValues;
    var vm := VmsOf(env, hosts[i].path)[j];
    forall slot: Slot | slot.key == MorKey(vm)
      ensures Last(ContentionOn(env, hosts, 0, x), slot) == Last(On(vm, HighReady(ContentionReady(i), x)), slot)
    {
      ContentionOnVm(env, hosts, 0, x, i, j, slot);
    }
    OwnWritesTaken(s, ContentionOn(env, hosts, 0, x), vm, HighReady(ContentionReady(i), x));
  }

  /** After CPU contention of any number of clusters: host i of a cluster shows its CPU load and each of its
      VMs the ready time of that host, wherever no other target reaches and the entities are distinct;
      their other slots are as before. */
  lemma ContentionRequest(env: Env, b: Book, req: Request, now: int, end: int, k: nat, i: nat)
    requires Dispatch(req.id) == Some(CpuClusterContention) && k < |req.targets|
    requires Activated(env, b, req, now, end).1 == Ok
    ensures req.targets[k] in env.clusterHosts
    ensures var hosts, s' := env.clusterHosts[req.targets[k]], Activated(env, b, req, now, end).0.state;
            var x := ExpiryFor(req, now);
            i < |hosts| ==>
              && (DistinctHosts(hosts) && !VmOfHostAt(env, hosts, 0, MorKey(hosts[i].ref))
                  && OnlyTarget(env, CpuClusterContention, req.targets, k, MorKey(hosts[i].ref)) ==>
                    TakesWrites(b.state, s', hosts[i].ref, HighCpu(ContentionCpu(i), x)))
              && (forall j :: 0 <= j < |VmsOf(env, hosts[i].path)| ==>
                    (OwnVmOf(env, hosts, i, j)
                     && OnlyTarget(env, CpuClusterContention, req.targets, k, MorKey(VmsOf(env, hosts[i].path)[j])) ==>
                       TakesWrites(b.state, s', VmsOf(env, hosts[i].path)[j], HighReady(ContentionReady(i), x))))
  {
    hide Activated, OnlyTarget, TakesWrites, OwnVmOf, VmOfHostAt, HighCpu, HighReady, DistinctHosts;
    ContentionFound(env, b, req, now, end, k);
    var hosts, s', x := env.clusterHosts[req.targets[k]], Activated(env, b, req, now, end).0.state, ExpiryFor(req, now);
    if i < |hosts| {
      if DistinctHosts(hosts) && !VmOfHostAt(env, hosts, 0, MorKey(hosts[i].ref))
         && OnlyTarget(env, CpuClusterContention, req.targets, k, MorKey(hosts[i].ref)) {
        HostOfContention(env, b.state, hosts, x, i);
        ContentionTaken(env, b, req, now, end, k, hosts[i].ref, HighCpu(ContentionCpu(i), x));
      }
      forall j | 0 <= j < |VmsOf(env, hosts[i].path)| && OwnVmOf(env, hosts, i, j)
                 && OnlyTarget(env, CpuClusterContention, req.targets, k, MorKey(VmsOf(env, hosts[i].path)[j]))
        ensures TakesWrites(b.state, s', VmsOf(env, hosts[i].path)[j], HighReady(ContentionReady(i), x))
      {
        VmOfContention(env, b.state, hosts, x, i, j);
        ContentionTaken(env, b, req, now, end, k, VmsOf(env, hosts[i].path)[j], HighReady(ContentionReady(i), x));
      }
    }
  }

  lemma ContentionFound(env: Env, b: Book, req: Request, now: int, end: int, k: nat)
    requires Dispatch(req.id) == Some(CpuClusterContention) && k < |req.targets|
    requires Activated(env, b, req, now, end).1 == Ok
    ensures req.targets[k] in env.clusterHosts
  {
    hide Activated, ClusterPlan;
    ClusterAlone(env, b, req, now, end, k, {});
  }

  lemma ContentionTaken(env: Env, b: Book, req: Request, now: int, end: int, k: nat, ref: Ref, ws: seq<Override>)
    requires Dispatch(req.id) == Some(CpuClusterContention) && k < |req.targets|
    requires Activated(env, b, req, now, end).1 == Ok && req.targets[k] in env.clusterHosts
    requires OnlyTarget(env, CpuClusterContention, req.targets, k, MorKey(ref))
    requires var es := ContentionOn(env, env.clusterHosts[req.targets[k]], 0, ExpiryFor(req, now));
             TakesWrites(b.state, Run(b.state, es), ref, ws)
    ensures TakesWrites(b.state, Activated(env, b, req, now, end).0.state, ref, ws)
  {
    hide Activated, ContentionOn, OnlyTarget, TakesWrites, Run, Lookup;
    OneSeparate(env, CpuClusterContention, req.targets, k, ref);
    ClusterAlone(env, b, req, now, end, k, {ref});
    var alone := Run(b.state, ContentionOn(env, env.clusterHosts[req.targets[k]], 0, ExpiryFor(req, now)));
    TakenAgrees(b.state, alone, Activated(env, b, req, now, end).0.state, ref, ws);
  }
}
