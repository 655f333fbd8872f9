/** The cluster scenarios as requested: when Activate succeeds on any number of clusters, and what it
    leaves on each cluster that shares no host with the others. */
module ClusterRequests {
  import opened Wrappers
  import opened Overrides
  import opened Engine
  import opened Plans
  import opened Lifecycle
  import opened Footprints
  import opened Reach
  import opened Cascades
  import opened Quotas

  // ---------- When a request succeeds ----------

  /** The number of hosts to take down, for the scenarios that have such a parameter. */
  function HostCount(sc: Scenario, params: Params): int
    requires sc.HostBootStorm? || sc.CascadeRackPower?
  {
    if "host_count" in params then params["host_count"] else if sc.HostBootStorm? then 3 else 4
  }

  predicate AllFound(env: Env, targets: seq<string>) {
    forall t :: t in targets ==> t in env.clusterHosts
  }

  /** A boot storm or rack failure on found clusters succeeds exactly when host_count is not negative.
      A negative one panics at the first cluster, before any event: nothing changes. */
  lemma NegativeHostCount(env: Env, b: Book, req: Request, now: int, end: int)
    requires req.id == "host_boot_storm" || req.id == "cascade_rack_power"
    ensures var n := HostCount(if req.id == "host_boot_storm" then HostBootStorm else CascadeRackPower, req.params);
            var (b', r) := Activated(env, b, req, now, end);
            && (req.targets != [] && AllFound(env, req.targets) ==> (r == Ok <==> n >= 0))
            && (req.targets == [] || n >= 0 ==> (r == Ok <==> AllFound(env, req.targets)) && r != Crashed)
            && (req.targets != [] && n < 0 ==>
                  b' == b && r == if req.targets[0] in env.clusterHosts then Crashed else ActivationFailed)
  {
    hide BootCalls, RackCalls, OnHosts, ActivationPlan, Uniform;
    assert Dispatch(req.id) == Some(if req.id == "host_boot_storm" then HostBootStorm else CascadeRackPower);
    RegisteredDispatch(req.id);
    var sc, x := Dispatch(req.id).value, ExpiryFor(req, now);
    QuotaPlan(env, sc, req.targets, req.params, x, b.state.calls);
    RunNone(b.state);
  }

  lemma {:induction false} QuotaPlan(env: Env, sc: Scenario, targets: seq<string>, params: Params, x: Expiry, n: nat)
    requires sc.HostBootStorm? || sc.CascadeRackPower?
    ensures var p := ActivationPlan(env, sc, targets, params, x, n);
            if targets != [] && HostCount(sc, params) < 0 then
              p == Plan([], if targets[0] in env.clusterHosts then Panicked else Errored)
            else p.end == if AllFound(env, targets) then Completed else Errored
    decreases targets
  {
    hide TargetPlan, Uniform, Calls;
    if targets != [] {
      var p := TargetPlan(env, sc, targets[0], params, x, n);
      QuotaTarget(env, sc, targets[0], params, x, n);
      QuotaPlan(env, sc, targets[1..], params, x, n + Calls(p.events));
      assert targets == [targets[0]] + targets[1..];
    }
  }

  lemma QuotaTarget(env: Env, sc: Scenario, target: string, params: Params, x: Expiry, n: nat)
    requires sc.HostBootStorm? || sc.CascadeRackPower?
    ensures var p := TargetPlan(env, sc, target, params, x, n);
            && p.end == (if target !in env.clusterHosts then Errored
                         else if HostCount(sc, params) < 0 then Panicked
                         else Completed)
            && (!p.Ok() ==> p.events == [])
  {
    hide BootCalls, RackCalls, OnHosts, Uniform;
  }

  // ---------- One cluster among several ----------

  /** No other target reaches any of these entities. */
  ghost predicate Separate(env: Env, sc: Scenario, targets: seq<string>, k: nat, rs: set<Ref>) {
    forall q :: q in rs ==> OnlyTarget(env, sc, targets, k, MorKey(q))
  }

  /** The two states agree on the overrides and the condition of these entities. */
  ghost predicate AgreeOn(s: State, s': State, rs: set<Ref>) {
    && (forall q, slot: Slot :: q in rs && slot.key == MorKey(q) ==> Lookup(s, slot) == Lookup(s', slot))
    && (forall q :: q in rs ==> Condition(s.world, q) == Condition(s'.world, q))
  }

  /** The task number at which the activation gets to target k. */
  function Tick(env: Env, b: Book, req: Request, now: int, k: nat): nat
    requires Dispatch(req.id).Some? && k <= |req.targets|
  {
    TickAt(env, Dispatch(req.id).value, req.targets, req.params, ExpiryFor(req, now), b.state.calls, k)
  }

  lemma ClusterAlone(env: Env, b: Book, req: Request, now: int, end: int, k: nat, rs: set<Ref>)
    requires Dispatch(req.id).Some? && OnCluster(Dispatch(req.id).value)
    requires Activated(env, b, req, now, end).1 == Ok && k < |req.targets|
    ensures req.targets[k] in env.clusterHosts
    ensures var sc := Dispatch(req.id).value;
            var p := ClusterPlan(env, sc, req.targets[k], req.params, ExpiryFor(req, now), Tick(env, b, req, now, k));
            && p.Ok()
            && (Separate(env, sc, req.targets, k, rs) ==>
                  AgreeOn(Activated(env, b, req, now, end).0.state, Run(b.state, p.events), rs))
  {
    hide ActivationPlan, ClusterPlan, Lookup, Condition, Reached, TickAt, OnlyTarget, Run;
    var sc, x, n := Dispatch(req.id).value, ExpiryFor(req, now), b.state.calls;
    RegisteredDispatch(req.id);
    AllTargetsOk(env, sc, req.targets, req.params, x, n);
    var p := PlanAt(env, sc, req.targets, req.params, x, n, k);
    assert p == ClusterPlan(env, sc, req.targets[k], req.params, x, Tick(env, b, req, now, k));
    ClusterFound(env, sc, req.targets[k], req.params, x, Tick(env, b, req, now, k));
    if Separate(env, sc, req.targets, k, rs) {
      var s' := Activated(env, b, req, now, end).0.state;
      forall q, slot: Slot | q in rs && slot.key == MorKey(q)
        ensures Lookup(s', slot) == Lookup(Run(b.state, p.events), slot)
      {
        ActivationByTarget(env, b, req, now, end, k, slot, q);
      }
      forall q | q in rs ensures Condition(s'.world, q) == Condition(Run(b.state, p.events).world, q) {
        ActivationByTarget(env, b, req, now, end, k, PropertySlot("", ""), q);
      }
    }
  }

  lemma ClusterFound(env: Env, sc: Scenario, target: string, params: Params, x: Expiry, n: nat)
    requires OnCluster(sc) && ClusterPlan(env, sc, target, params, x, n).Ok()
    ensures target in env.clusterHosts
  {
  }

  lemma AgreeOnHosts(s: State, s': State, hosts: seq<Host>, rs: set<Ref>)
    requires AgreeOn(s, s', rs) && HostRefs(hosts) <= rs
    ensures forall i, slot: Slot :: 0 <= i < |hosts| && slot.key == MorKey(hosts[i].ref) ==>
              Lookup(s, slot) == Lookup(s', slot)
    ensures forall i :: 0 <= i < |hosts| ==> Out(s, hosts[i]) == Out(s', hosts[i])
    ensures OutOrLoaded(s, hosts) == OutOrLoaded(s', hosts) && MarkedOrLoaded(s, hosts) == MarkedOrLoaded(s', hosts)
    ensures OutOrDropping(s, hosts) == OutOrDropping(s', hosts)
  {
    hide Lookup;
    forall i | 0 <= i < |hosts|
      ensures Out(s, hosts[i]) == Out(s', hosts[i]) && Loaded(s, hosts[i]) == Loaded(s', hosts[i])
      ensures Marked(s, hosts[i]) == Marked(s', hosts[i]) && Dropping(s, hosts[i]) == Dropping(s', hosts[i])
      ensures forall slot: Slot :: slot.key == MorKey(hosts[i].ref) ==> Lookup(s, slot) == Lookup(s', slot)
    {
      assert hosts[i] in hosts && hosts[i].ref in rs;
      var key := MorKey(hosts[i].ref);
      assert CpuSlot(hosts[i]).key == key && StateSlot(hosts[i]).key == key;
      assert MetricSlot(key, Counter(460, "")).key == key;
      assert Condition(s.world, hosts[i].ref) == Condition(s'.world, hosts[i].ref);
    }
  }

  // ---------- Boot storm ----------

  /** From s to s', begun at task number n: hosts[count..] take the overload and no other override of a
      host changes; a host goes down if it was asked and its task completed. */
  ghost predicate BootEnd(env: Env, s: State, s': State, hosts: seq<Host>, count: nat, x: Expiry, n: nat) {
    && (forall i, slot: Slot :: 0 <= i < |hosts| && slot.key == MorKey(hosts[i].ref) ==>
          Lookup(s', slot) ==
            if i >= count && Pressure(slot) then
              Some(M(slot.counter.id, LoadSamples(OverloadOf(i), slot.counter.id), x))
            else Lookup(s, slot))
    && (forall i :: 0 <= i < |hosts| ==>
          (Out(s', hosts[i]) <==>
           || Out(s, hosts[i])
           || (i < BootAsked(env, hosts, count, n) && env.oracle(n + i, Disconnect, hosts[i].ref) == Done)))
  }

  lemma BootAlone(env: Env, s: State, hosts: seq<Host>, count: nat, x: Expiry, n: nat)
    requires DistinctHosts(hosts)
    ensures BootEnd(env, s, Run(s, BootEvents(env, hosts, count, x, n)), hosts, count, x, n)
  {
    hide Run, BootEvents, Lookup, BootAsked, LoadSamples;
    var s' := Run(s, BootEvents(env, hosts, count, x, n));
    BootStormLoads(env, s, hosts, count, x, n);
    BootQuota(env, s, hosts, count, x, n);
    forall i, slot: Slot | 0 <= i < |hosts| && slot.key == MorKey(hosts[i].ref)
      ensures Lookup(s', slot) ==
              if i >= count && Pressure(slot) then
                Some(M(slot.counter.id, LoadSamples(OverloadOf(i), slot.counter.id), x))
              else Lookup(s, slot)
    {
      if i < count {
        assert forall j :: count <= j < |hosts| ==> slot.key != MorKey(hosts[j].ref);
      } else {
        assert Shows(s, s', hosts[i].ref, OverloadOf(i), false, x);
      }
    }
    forall i | 0 <= i < |hosts| {
      StruckHost(env, hosts, BootAsked(env, hosts, count, n), n, i);
    }
  }

  lemma BootPlanIs(env: Env, target: string, params: Params, x: Expiry, n: nat)
    requires ClusterPlan(env, HostBootStorm, target, params, x, n).Ok()
    ensures target in env.clusterHosts && HostCount(HostBootStorm, params) >= 0
    ensures ClusterPlan(env, HostBootStorm, target, params, x, n).events
            == BootEvents(env, env.clusterHosts[target], HostCount(HostBootStorm, params), x, n)
  {
    hide BootCalls, OnHosts;
  }

  /** A boot storm on several clusters leaves each separate one as if it were the only one; the
      disconnected and loaded hosts of a healthy one split it exactly when its first host_count tasks
      complete. */
  lemma BootRequest(env: Env, b: Book, req: Request, now: int, end: int, k: nat)
    requires req.id == "host_boot_storm"
    requires Activated(env, b, req, now, end).1 == Ok && k < |req.targets|
    ensures req.targets[k] in env.clusterHosts && HostCount(HostBootStorm, req.params) >= 0
    ensures var hosts, count := env.clusterHosts[req.targets[k]], HostCount(HostBootStorm, req.params);
            var s', tick := Activated(env, b, req, now, end).0.state, Tick(env, b, req, now, k);
            DistinctHosts(hosts) && Separate(env, HostBootStorm, req.targets, k, HostRefs(hosts)) ==>
              && BootEnd(env, b.state, s', hosts, count, ExpiryFor(req, now), tick)
              && (Healthy(b.state, hosts) ==>
                    (OutOrLoaded(s', hosts) <==>
                     forall i :: 0 <= i < Min(count, |hosts|) ==>
                       env.oracle(tick + i, Disconnect, hosts[i].ref) == Done))
  {
    hide Activated, Run, ClusterPlan, BootEvents, Separate, Tick, AgreeOn, BootEnd, OutOrLoaded, MarkedOrLoaded,
         OutOrDropping, Healthy, HostRefs, Lookup, BootAsked, Condition;
    assert Dispatch(req.id) == Some(HostBootStorm);
    var rs := if req.targets[k] in env.clusterHosts then HostRefs(env.clusterHosts[req.targets[k]]) else {};
    var x, s', tick := ExpiryFor(req, now), Activated(env, b, req, now, end).0.state, Tick(env, b, req, now, k);
    ClusterAlone(env, b, req, now, end, k, rs);
    BootPlanIs(env, req.targets[k], req.params, x, tick);
    var hosts, count := env.clusterHosts[req.targets[k]], HostCount(HostBootStorm, req.params);
    if DistinctHosts(hosts) && Separate(env, HostBootStorm, req.targets, k, rs) {
      var alone := Run(b.state, BootEvents(env, hosts, count, x, tick));
      AgreeSwaps(s', alone, rs);
      BootAlone(env, b.state, hosts, count, x, tick);
      BootEndAgrees(env, b.state, alone, s', hosts, count, x, tick);
      if Healthy(b.state, hosts) {
        AgreeOnHosts(s', alone, hosts, rs);
        BootPartition(env, b.state, hosts, count, x, tick);
      }
    }
  }

  lemma BootEndAgrees(env: Env, s: State, s': State, s'': State, hosts: seq<Host>, count: nat, x: Expiry, n: nat)
    requires BootEnd(env, s, s', hosts, count, x, n) && AgreeOn(s', s'', HostRefs(hosts))
    ensures BootEnd(env, s, s'', hosts, count, x, n)
  {
    hide Lookup, LoadSamples, BootAsked, OutOrLoaded, MarkedOrLoaded, OutOrDropping;
    AgreeOnHosts(s', s'', hosts, HostRefs(hosts));
  }

  // ---------- Rack power ----------

  /** Likewise for a rack failure: loads on hosts[count..], a mark on each host visited that accepted,
      and of the hosts and VMs visited those go down whose tasks complete. */
  ghost predicate RackEnd(env: Env, s: State, s': State, hosts: seq<Host>, count: nat, x: Expiry, n: nat) {
    var m := RackAsked(env, hosts, count, n);
    && (forall i, slot: Slot :: 0 <= i < |hosts| && slot.key == MorKey(hosts[i].ref) ==>
          Lookup(s', slot) ==
            if i >= count && Pressure(slot) then
              Some(M(slot.counter.id, LoadSamples(RackLoadOf(i), slot.counter.id), x))
            else if slot == StateSlot(hosts[i]) && i < m && RackAccepts(env, hosts[i], RackTick(env, hosts, i, n)) then
              Some(NotResponding(x))
            else Lookup(s, slot))
    && (forall q :: q in ClusterRefs(env, hosts) ==>
          (q in s'.world.disconnected <==> q in s.world.disconnected || FelledBy(env, hosts, m, n, Disconnect, q)))
    && (forall q :: q in ClusterRefs(env, hosts) ==>
          (q in s'.world.poweredOff <==> q in s.world.poweredOff || FelledBy(env, hosts, m, n, PowerOff, q)))
  }

  lemma RackAlone(env: Env, s: State, hosts: seq<Host>, count: nat, x: Expiry, n: nat)
    requires DistinctHosts(hosts)
    ensures RackEnd(env, s, Run(s, RackEvents(env, hosts, count, x, n)), hosts, count, x, n)
  {
    hide Run, RackEvents, Lookup, RackAsked, LoadSamples, RackAccepts, FelledBy, ClusterRefs;
    var s' := Run(s, RackEvents(env, hosts, count, x, n));
    forall i, slot: Slot | 0 <= i < |hosts| && slot.key == MorKey(hosts[i].ref)
      ensures Lookup(s', slot) ==
              if i >= count && Pressure(slot) then
                Some(M(slot.counter.id, LoadSamples(RackLoadOf(i), slot.counter.id), x))
              else if slot == StateSlot(hosts[i]) && i < RackAsked(env, hosts, count, n)
                      && RackAccepts(env, hosts[i], RackTick(env, hosts, i, n)) then Some(NotResponding(x))
              else Lookup(s, slot)
    {
      RackEndState(env, s, hosts, count, x, n, i, slot);
    }
    forall q {
      RackWorld(env, s, hosts, count, x, n, q);
    }
  }

  lemma RackPlanIs(env: Env, target: string, params: Params, x: Expiry, n: nat)
    requires ClusterPlan(env, CascadeRackPower, target, params, x, n).Ok()
    ensures target in env.clusterHosts && HostCount(CascadeRackPower, params) >= 0
    ensures ClusterPlan(env, CascadeRackPower, target, params, x, n).events
            == RackEvents(env, env.clusterHosts[target], HostCount(CascadeRackPower, params), x, n)
  {
    hide RackCalls, OnHosts;
  }

  lemma RackEndAgrees(env: Env, s: State, s': State, s'': State, hosts: seq<Host>, count: nat, x: Expiry, n: nat)
    requires RackEnd(env, s, s', hosts, count, x, n) && AgreeOn(s', s'', ClusterRefs(env, hosts))
    ensures RackEnd(env, s, s'', hosts, count, x, n)
  {
    hide Lookup, LoadSamples, RackAsked, RackAccepts, FelledBy, ClusterRefs, OutOrLoaded, MarkedOrLoaded, OutOrDropping;
    HostsInCluster(env, hosts);
    AgreeOnHosts(s', s'', hosts, ClusterRefs(env, hosts));
    forall q | q in ClusterRefs(env, hosts)
      ensures q in s'.world.disconnected <==> q in s''.world.disconnected
      ensures q in s'.world.poweredOff <==> q in s''.world.poweredOff
    {
      assert Condition(s'.world, q) == Condition(s''.world, q);
    }
  }

  /** A rack failure on several clusters leaves each separate one as if it were the only one. On a
      healthy, unmarked one the marked and loaded hosts split it exactly when the first host_count
      hosts accept, and the disconnected and loaded ones exactly when their tasks complete. */
  lemma RackRequest(env: Env, b: Book, req: Request, now: int, end: int, k: nat)
    requires req.id == "cascade_rack_power"
    requires Activated(env, b, req, now, end).1 == Ok && k < |req.targets|
    ensures req.targets[k] in env.clusterHosts && HostCount(CascadeRackPower, req.params) >= 0
    ensures var hosts, count := env.clusterHosts[req.targets[k]], HostCount(CascadeRackPower, req.params);
            var s', tick := Activated(env, b, req, now, end).0.state, Tick(env, b, req, now, k);
            DistinctHosts(hosts) && Separate(env, CascadeRackPower, req.targets, k, ClusterRefs(env, hosts)) ==>
              && RackEnd(env, b.state, s', hosts, count, ExpiryFor(req, now), tick)
              && (Healthy(b.state, hosts) && (forall i :: 0 <= i < |hosts| ==> !Marked(b.state, hosts[i])) ==>
                    && (MarkedOrLoaded(s', hosts) <==> FirstAccept(env, hosts, Min(count, |hosts|), tick))
                    && (OutOrLoaded(s', hosts) <==> FirstGoOut(env, hosts, Min(count, |hosts|), tick)))
  {
    hide Activated, Run, ClusterPlan, RackEvents, Separate, Tick, AgreeOn, RackEnd, OutOrLoaded, MarkedOrLoaded,
         Healthy, Marked, FirstAccept, FirstGoOut, ClusterRefs;
    assert Dispatch(req.id) == Some(CascadeRackPower);
    var rs := if req.targets[k] in env.clusterHosts then ClusterRefs(env, env.clusterHosts[req.targets[k]]) else {};
    var x, s', tick := ExpiryFor(req, now), Activated(env, b, req, now, end).0.state, Tick(env, b, req, now, k);
    ClusterAlone(env, b, req, now, end, k, rs);
    RackPlanIs(env, req.targets[k], req.params, x, tick);
    var hosts, count := env.clusterHosts[req.targets[k]], HostCount(CascadeRackPower, req.params);
    if DistinctHosts(hosts) && Separate(env, CascadeRackPower, req.targets, k, rs) {
      var alone := Run(b.state, RackEvents(env, hosts, count, x, tick));
      AgreeSwaps(s', alone, rs);
      RackAlone(env, b.state, hosts, count, x, tick);
      RackEndAgrees(env, b.state, alone, s', hosts, count, x, tick);
      if Healthy(b.state, hosts) && forall i :: 0 <= i < |hosts| ==> !Marked(b.state, hosts[i]) {
        HostsInCluster(env, hosts);
        AgreeOnHosts(s', alone, hosts, rs);
        RackPartition(env, b.state, hosts, count, x, tick);
      }
    }
  }

  // ---------- Network split ----------

  ghost predicate SplitEnd(env: Env, s: State, s': State, hosts: seq<Host>, x: Expiry, n: nat) {
    var half := |hosts| / 2;
    && (forall i, slot: Slot :: 0 <= i < |hosts| && slot.key == MorKey(hosts[i].ref) ==>
          Lookup(s', slot) ==
            if i >= half then AfterDrops(s, slot, x) else Lookup(s, slot))
    && (forall i :: 0 <= i < |hosts| ==>
          (Out(s', hosts[i]) <==>
           Out(s, hosts[i]) || (i < half && env.oracle(n + i, Disconnect, hosts[i].ref) == Done)))
  }

  lemma SplitAlone(env: Env, s: State, hosts: seq<Host>, x: Expiry, n: nat)
    requires DistinctHosts(hosts)
    ensures SplitEnd(env, s, Run(s, SplitEvents(env, hosts, x, n)), hosts, x, n)
  {
    hide Run, SplitEvents, Lookup, AfterDrops, SplitCalls;
    var s', half := Run(s, SplitEvents(env, hosts, x, n)), |hosts| / 2;
    SplitBrain(env, s, hosts, x, n);
    forall i, slot: Slot | 0 <= i < |hosts| && slot.key == MorKey(hosts[i].ref)
      ensures Lookup(s', slot) ==
              if i >= half then AfterDrops(s, slot, x) else Lookup(s, slot)
    {
      if i < half {
        assert forall j :: half <= j < |hosts| ==> slot.key != MorKey(hosts[j].ref);
      }
    }
    forall i | 0 <= i < |hosts| {
      StruckHost(env, hosts, half, n, i);
    }
  }

  lemma SplitPlanIs(env: Env, target: string, params: Params, x: Expiry, n: nat)
    requires target in env.clusterHosts
    ensures ClusterPlan(env, CascadeNetworkSplit, target, params, x, n).events
            == SplitEvents(env, env.clusterHosts[target], x, n)
  {
    hide SplitCalls, OnHosts;
  }

  lemma SplitEndAgrees(env: Env, s: State, s': State, s'': State, hosts: seq<Host>, x: Expiry, n: nat)
    requires SplitEnd(env, s, s', hosts, x, n) && AgreeOn(s', s'', HostRefs(hosts))
    ensures SplitEnd(env, s, s'', hosts, x, n)
  {
    hide Lookup, AfterDrops, OutOrLoaded, MarkedOrLoaded, OutOrDropping;
    AgreeOnHosts(s', s'', hosts, HostRefs(hosts));
  }

  /** A split of several clusters succeeds exactly when all are found, and cuts each separate one. */
  lemma SplitRequest(env: Env, b: Book, req: Request, now: int, end: int, k: nat)
    requires req.id == "cascade_network_split" && k < |req.targets|
    ensures Activated(env, b, req, now, end).1 == Ok <==> AllFound(env, req.targets)
    ensures AllFound(env, req.targets) ==>
              var hosts, s' := env.clusterHosts[req.targets[k]], Activated(env, b, req, now, end).0.state;
              var tick := Tick(env, b, req, now, k);
              DistinctHosts(hosts) && Separate(env, CascadeNetworkSplit, req.targets, k, HostRefs(hosts)) ==>
                && SplitEnd(env, b.state, s', hosts, ExpiryFor(req, now), tick)
                && ((forall i :: 0 <= i < |hosts| ==> !Out(b.state, hosts[i]) && !Dropping(b.state, hosts[i])) ==>
                      (OutOrDropping(s', hosts) <==>
                       forall i :: 0 <= i < |hosts| / 2 ==> env.oracle(tick + i, Disconnect, hosts[i].ref) == Done))
  {
    hide Activated, Run, ClusterPlan, SplitEvents, Separate, Tick, AgreeOn, SplitEnd, OutOrLoaded, MarkedOrLoaded,
         OutOrDropping, Dropping, Out, HostRefs, Lookup, Condition, TickAt, Struck;
    assert Dispatch(req.id) == Some(CascadeNetworkSplit);
    SplitOk(env, b, req, now, end);
    if AllFound(env, req.targets) {
      var hosts, s' := env.clusterHosts[req.targets[k]], Activated(env, b, req, now, end).0.state;
      ClusterAlone(env, b, req, now, end, k, HostRefs(hosts));
      SplitPlanIs(env, req.targets[k], req.params, ExpiryFor(req, now), Tick(env, b, req, now, k));
      if DistinctHosts(hosts) && Separate(env, CascadeNetworkSplit, req.targets, k, HostRefs(hosts)) {
        SplitAgreeing(env, b.state, s', hosts, ExpiryFor(req, now), Tick(env, b, req, now, k));
      }
    }
  }

  lemma SplitAgreeing(env: Env, s: State, s': State, hosts: seq<Host>, x: Expiry, n: nat)
    requires DistinctHosts(hosts) && AgreeOn(s', Run(s, SplitEvents(env, hosts, x, n)), HostRefs(hosts))
    ensures SplitEnd(env, s, s', hosts, x, n)
    ensures (forall i :: 0 <= i < |hosts| ==> !Out(s, hosts[i]) && !Dropping(s, hosts[i])) ==>
              (OutOrDropping(s', hosts) <==>
               forall i :: 0 <= i < |hosts| / 2 ==> env.oracle(n + i, Disconnect, hosts[i].ref) == Done)
  {
    hide Run, SplitEvents, AgreeOn, SplitEnd, OutOrLoaded, MarkedOrLoaded, OutOrDropping, Dropping, Out, HostRefs;
    var alone := Run(s, SplitEvents(env, hosts, x, n));
    AgreeSwaps(s', alone, HostRefs(hosts));
    AgreeOnHosts(s', alone, hosts, HostRefs(hosts));
    SplitAlone(env, s, hosts, x, n);
    SplitEndAgrees(env, s, alone, s', hosts, x, n);
    if forall i :: 0 <= i < |hosts| ==> !Out(s, hosts[i]) && !Dropping(s, hosts[i]) {
      SplitPartition(env, s, hosts, x, n);
    }
  }

  lemma SplitOk(env: Env, b: Book, req: Request, now: int, end: int)
    requires req.id == "cascade_network_split"
    ensures Activated(env, b, req, now, end).1 == Ok <==> AllFound(env, req.targets)
  {
    hide ActivationPlan, TargetPlan, TickAt, Uniform, Run;
    assert Dispatch(req.id) == Some(CascadeNetworkSplit);
    RegisteredDispatch(req.id);
    var x, n := ExpiryFor(req, now), b.state.calls;
    AllTargetsOk(env, CascadeNetworkSplit, req.targets, req.params, x, n);
    forall i | 0 <= i < |req.targets|
      ensures PlanAt(env, CascadeNetworkSplit, req.targets, req.params, x, n, i).Ok()
              <==> req.targets[i] in env.clusterHosts
    {
      SplitTarget(env, req.targets[i], req.params, x,
                  TickAt(env, CascadeNetworkSplit, req.targets, req.params, x, n, i));
    }
  }

  lemma SplitTarget(env: Env, target: string, params: Params, x: Expiry, n: nat)
    ensures TargetPlan(env, CascadeNetworkSplit, target, params, x, n).Ok() <==> target in env.clusterHosts
  {
    hide SplitCalls, OnHosts, Uniform;
  }

  // ---------- HA exhaustion ----------

  /** The effect that HaCascade describes, on the cluster's own hosts. */
  ghost predicate HaEnd(env: Env, s: State, s': State, hosts: seq<Host>, x: Expiry, n: nat)
    requires |hosts| >= 3
  {
    && (forall i :: 2 <= i < |hosts| ==> Shows(s, s', hosts[i].ref, CriticalLoad(i), false, x))
    && Shows(s, s', hosts[1].ref, SECOND_HOST, true, x)
    && SameOverrides(s, s', hosts[0])
    && (forall i :: 0 <= i < |hosts| ==>
          (Out(s', hosts[i]) <==>
           || Out(s, hosts[i])
           || (i == 0 && OutHost(env, hosts[0], n) != {})
           || (i == 1 && OutHost(env, hosts[1], n + |VmsOf(env, hosts[0].path)| + 1) != {})))
  }

  ghost predicate SameOverrides(s: State, s': State, host: Host) {
    forall slot: Slot :: slot.key == MorKey(host.ref) ==> Lookup(s', slot) == Lookup(s, slot)
  }

  lemma HaAlone(env: Env, s: State, hosts: seq<Host>, x: Expiry, n: nat)
    requires |hosts| >= 3 && DistinctHosts(hosts)
    ensures HaEnd(env, s, Run(s, HaEvents(env, hosts, x, n)), hosts, x, n)
  {
    hide Run, HaEvents, Lookup, LoadSamples, OffVms;
    HaCascade(env, s, hosts, x, n);
    forall slot: Slot | slot.key == MorKey(hosts[0].ref)
      ensures Lookup(Run(s, HaEvents(env, hosts, x, n)), slot) == Lookup(s, slot)
    {
      assert forall k :: 1 <= k < |hosts| ==> slot.key != MorKey(hosts[k].ref);
    }
    assert forall i :: 1 <= i < |hosts| ==> hosts[i].ref != hosts[0].ref;
    assert forall i :: 2 <= i < |hosts| ==> hosts[i].ref != hosts[1].ref;
  }

  lemma HaEndAgrees(env: Env, s: State, s': State, s'': State, hosts: seq<Host>, x: Expiry, n: nat)
    requires |hosts| >= 3 && HaEnd(env, s, s', hosts, x, n) && AgreeOn(s', s'', HostRefs(hosts))
    ensures HaEnd(env, s, s'', hosts, x, n)
  {
    hide Lookup, LoadSamples, OutHost, Condition, OutOrLoaded, MarkedOrLoaded, OutOrDropping;
    AgreeOnHosts(s', s'', hosts, HostRefs(hosts));
    forall i | 2 <= i < |hosts| ensures Shows(s, s'', hosts[i].ref, CriticalLoad(i), false, x) {
      assert Shows(s, s', hosts[i].ref, CriticalLoad(i), false, x);
    }
  }

  /** The HA cascade as requested: the activation succeeds exactly when the finder lists at least three
      hosts for every target, and on a single cluster HaCascade describes the whole result. */
  lemma HaSucceeds(env: Env, b: Book, req: Request, now: int, end: int)
    requires req.id == "cascade_ha_exhaustion"
    ensures var (b1, r) := Activated(env, b, req, now, end);
            && (r == Ok <==> forall t :: t in req.targets ==> t in env.clusterHosts && |env.clusterHosts[t]| >= 3)
            && (r == Ok && |req.targets| == 1 ==>
                  b1.state == Run(b.state,
                                  HaEvents(env, env.clusterHosts[req.targets[0]], ExpiryFor(req, now), b.state.calls)))
  {
    hide HaEvents, TickAt, Run, ActivationPlan, TargetPlan, Uniform;
    assert Dispatch(req.id) == Some(CascadeHaExhaustion);
    RegisteredDispatch(req.id);
    var x, n := ExpiryFor(req, now), b.state.calls;
    AllTargetsOk(env, CascadeHaExhaustion, req.targets, req.params, x, n);
    forall i | 0 <= i < |req.targets|
      ensures PlanAt(env, CascadeHaExhaustion, req.targets, req.params, x, n, i).Ok()
              <==> req.targets[i] in env.clusterHosts && |env.clusterHosts[req.targets[i]]| >= 3
    {
      var tick := TickAt(env, CascadeHaExhaustion, req.targets, req.params, x, n, i);
      HaTarget(env, req.targets[i], req.params, x, tick);
    }
    if |req.targets| == 1 {
      HaTarget(env, req.targets[0], req.params, x, n);
      OneTargetPlan(env, CascadeHaExhaustion, req.targets, req.params, x, n);
    }
  }

  lemma HaTarget(env: Env, target: string, params: Params, x: Expiry, n: nat)
    ensures var p := TargetPlan(env, CascadeHaExhaustion, target, params, x, n);
            && (p.Ok() <==> target in env.clusterHosts && |env.clusterHosts[target]| >= 3)
            && (p.Ok() ==> p.events == HaEvents(env, env.clusterHosts[target], x, n))
  {
    hide HaEvents, Uniform;
  }

  /** On several clusters, each separate one ends as HaCascade says; and every host or VM that no other
      target reaches goes down exactly when it belongs to the first two hosts and its task completes. */
  lemma HaRequest(env: Env, b: Book, req: Request, now: int, end: int, k: nat)
    requires req.id == "cascade_ha_exhaustion"
    requires Activated(env, b, req, now, end).1 == Ok && k < |req.targets|
    ensures req.targets[k] in env.clusterHosts && |env.clusterHosts[req.targets[k]]| >= 3
    ensures var hosts, s' := env.clusterHosts[req.targets[k]], Activated(env, b, req, now, end).0.state;
            var tick := Tick(env, b, req, now, k);
            && (DistinctHosts(hosts) && Separate(env, CascadeHaExhaustion, req.targets, k, HostRefs(hosts)) ==>
                  HaEnd(env, b.state, s', hosts, ExpiryFor(req, now), tick))
            && (forall q :: OnlyTarget(env, CascadeHaExhaustion, req.targets, k, MorKey(q)) ==>
                  HaDown(env, b.state, s', hosts, tick, q))
  {
    hide Activated, Run, HaEvents, Separate, Tick, HaEnd, AgreeOn, OnlyTarget, HaDown;
    assert Dispatch(req.id) == Some(CascadeHaExhaustion);
    HaSucceeds(env, b, req, now, end);
    var hosts, x, tick := env.clusterHosts[req.targets[k]], ExpiryFor(req, now), Tick(env, b, req, now, k);
    var s', alone := Activated(env, b, req, now, end).0.state, Run(b.state, HaEvents(env, hosts, x, tick));
    if DistinctHosts(hosts) && Separate(env, CascadeHaExhaustion, req.targets, k, HostRefs(hosts)) {
      ClusterAlone(env, b, req, now, end, k, HostRefs(hosts));
      HaAlone(env, b.state, hosts, x, tick);
      AgreeSwaps(s', alone, HostRefs(hosts));
      HaEndAgrees(env, b.state, alone, s', hosts, x, tick);
    }
    forall q | OnlyTarget(env, CascadeHaExhaustion, req.targets, k, MorKey(q))
      ensures HaDown(env, b.state, s', hosts, tick, q)
    {
      OneSeparate(env, CascadeHaExhaustion, req.targets, k, q);
      ClusterAlone(env, b, req, now, end, k, {q});
      HaDownAlone(env, b.state, s', hosts, x, tick, q);
    }
  }

  /** Whether the cascade takes this host or VM down. */
  predicate HaDown(env: Env, s: State, s': State, hosts: seq<Host>, n: nat, q: Ref)
    requires |hosts| >= 3
  {
    var later := n + |VmsOf(env, hosts[0].path)| + 1;
    && (q in s'.world.disconnected <==>
        q in s.world.disconnected || q in OutHost(env, hosts[0], n) || q in OutHost(env, hosts[1], later))
    && (q in s'.world.poweredOff <==>
        q in s.world.poweredOff || q in OffVms(env, hosts[0], n) || q in OffVms(env, hosts[1], later))
  }

  lemma OneSeparate(env: Env, sc: Scenario, targets: seq<string>, k: nat, q: Ref)
    requires OnlyTarget(env, sc, targets, k, MorKey(q))
    ensures Separate(env, sc, targets, k, {q})
  {
  }

  lemma HaDownAlone(env: Env, s: State, s': State, hosts: seq<Host>, x: Expiry, n: nat, q: Ref)
    requires |hosts| >= 3 && AgreeOn(s', Run(s, HaEvents(env, hosts, x, n)), {q})
    ensures HaDown(env, s, s', hosts, n, q)
  {
    hide Run, HaEvents, Lookup, OutHost, OffVms;
    HaWorld(env, s, hosts, x, n);
    assert Condition(s'.world, q) == Condition(Run(s, HaEvents(env, hosts, x, n)).world, q);
  }

  /** Deactivating any of the cluster scenarios leaves every override that does not stand on a target
      itself: those of the hosts and their VMs stay. */
  lemma HostsKeepOverrides(env: Env, b: Book, req: Request, now: int, end: int, slot: Slot)
    requires Dispatch(req.id).Some? && OnCluster(Dispatch(req.id).value)
    requires Activated(env, b, req, now, end).1 == Ok && slot.key !in TargetKeys(env, req.targets)
    ensures var b1 := Activated(env, b, req, now, end).0;
            var (b2, r) := Deactivated(env, b1, req);
            r == Ok && Lookup(b2.state, slot) == Lookup(b1.state, slot)
  {
    hide Activated, Deactivated, Lookup;
    ActivateThenDeactivate(env, b, req, now, end, slot);
    ClearsTargets(env, Dispatch(req.id).value, req.targets);
  }

  lemma ClearsTargets(env: Env, sc: Scenario, targets: seq<string>)
    requires OnCluster(sc)
    ensures ClearedKeys(env, Some(sc), targets) == TargetKeys(env, targets)
  {
  }

  lemma AgreeSwaps(s: State, s': State, rs: set<Ref>)
    requires AgreeOn(s, s', rs)
    ensures AgreeOn(s', s, rs)
  {
  }

  lemma OneTargetPlan(env: Env, sc: Scenario, targets: seq<string>, params: Params, x: Expiry, n: nat)
    requires |targets| == 1
    ensures ActivationPlan(env, sc, targets, params, x, n) == TargetPlan(env, sc, targets[0], params, x, n)
  {
    hide TargetPlan;
    var p := TargetPlan(env, sc, targets[0], params, x, n);
    assert targets[1..] == [];
    assert ActivationPlan(env, sc, [], params, x, n + Calls(p.events)) == Plan([], Completed);
    assert p.events + [] == p.events;
  }
}
