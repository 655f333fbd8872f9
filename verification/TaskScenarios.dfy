/** The scenarios that send tasks for their targets one by one: the tasks of snapshot growth, and which overrides
    partition, maintenance, crash, PSOD and snapshot growth leave. */
module TaskScenarios {
  import opened Wrappers
  import opened Overrides
  import opened Engine
  import opened Plans
  import opened Lifecycle
  import opened Footprints
  import opened Reach
  import opened Cascades
  import opened StateChanges
  import opened Effects

  // ---------- Overrides ----------

  predicate OnlyCalls(es: seq<Event>) {
    forall e :: e in es ==> e.Call?
  }

  lemma {:induction false} CallsLeaveOverrides(s: State, es: seq<Event>)
    requires OnlyCalls(es)
    ensures Run(s, es).metrics == s.metrics && Run(s, es).properties == s.properties
    decreases es
  {
    if es != [] {
      assert es[0] in es;
      CallsLeaveOverrides(Step(s, es[0]), es[1..]);
    }
  }

  /** A partition, a maintenance mode and snapshots are tasks only: no override changes, whatever the answers. */
  lemma TasksLeaveOverrides(env: Env, b: Book, req: Request, now: int, end: int)
    requires req.id == "net_mgmt_partition" || req.id == "host_maintenance" || req.id == "vm_snapshot_growth"
    ensures var s' := Activated(env, b, req, now, end).0.state;
            s'.metrics == b.state.metrics && s'.properties == b.state.properties
  {
    hide ActivationPlan, Run, Uniform, Dispatch;
    RegisteredDispatch(req.id);
    TaskIds(req.id);
    var sc := TaskScenario(req.id);
    TaskEvents(env, sc, req.targets, req.params, ExpiryFor(req, now), b.state.calls);
    CallsLeaveOverrides(b.state,
                        ActivationPlan(env, sc, req.targets, req.params, ExpiryFor(req, now), b.state.calls).events);
  }

  lemma TaskIds(id: string)
    requires id == "net_mgmt_partition" || id == "host_maintenance" || id == "vm_snapshot_growth"
    ensures Dispatch(id) == Some(TaskScenario(id))
  {
  }

  lemma TaskEvents(env: Env, sc: Scenario, targets: seq<string>, params: Params, x: Expiry, n: nat)
    requires sc.NetMgmtPartition? || sc.HostMaintenance? || sc.VmSnapshotGrowth?
    ensures OnlyCalls(ActivationPlan(env, sc, targets, params, x, n).events)
  {
    hide ActivationPlan, TargetPlan, PlanAt, Uniform;
    forall e | e in ActivationPlan(env, sc, targets, params, x, n).events ensures e.Call? {
      PlanOnly(env, sc, targets, params, x, n, e);
      var k :| 0 <= k < |targets| && e in PlanAt(env, sc, targets, params, x, n, k).events;
      PlanAtIs(env, sc, targets, params, x, n, k);
      TaskTarget(env, sc, targets[k], params, x, TickAt(env, sc, targets, params, x, n, k), e);
    }
  }

  function TaskScenario(id: string): Scenario {
    if id == "net_mgmt_partition" then NetMgmtPartition
    else if id == "host_maintenance" then HostMaintenance
    else VmSnapshotGrowth
  }

  lemma PlanAtIs(env: Env, sc: Scenario, targets: seq<string>, params: Params, x: Expiry, n: nat, k: nat)
    requires k < |targets|
    ensures PlanAt(env, sc, targets, params, x, n, k)
            == TargetPlan(env, sc, targets[k], params, x, TickAt(env, sc, targets, params, x, n, k))
  {
  }

  lemma TaskTarget(env: Env, sc: Scenario, target: string, params: Params, x: Expiry, n: nat, e: Event)
    requires sc.NetMgmtPartition? || sc.HostMaintenance? || sc.VmSnapshotGrowth?
    requires e in TargetPlan(env, sc, target, params, x, n).events
    ensures e.Call?
  {
    hide Snapshots, Uniform, TargetPlan;
    if sc.VmSnapshotGrowth? {
      SnapshotPlan(env, target, params, x, n);
    } else {
      ReversiblePlan(env, sc, target, params, x, n);
    }
  }

  lemma SnapshotPlan(env: Env, target: string, params: Params, x: Expiry, n: nat)
    ensures TargetPlan(env, VmSnapshotGrowth, target, params, x, n)
            == if target in env.vms then
                 Plan(Snapshots(env, env.vms[target], 1, ParamInt(params, "snapshot_count", 5), n), Completed)
               else Plan([], Errored)
  {
    hide Snapshots, Uniform, TargetOnly, HostAndVms;
    KindsApart(VmSnapshotGrowth);
  }

  lemma CrashTarget(env: Env, target: string, params: Params, x: Expiry, n: nat)
    requires target in env.vms
    ensures var es := TargetPlan(env, VmCrash, target, params, x, n).events;
            && Set(env.vms[target], P("guestHeartbeatStatus", Text("gray"), x)) in es
            && forall e :: e in es ==> e.Call? || (e.Set? && e.o == P("guestHeartbeatStatus", Text("gray"), x))
  {
    hide Uniform;
    ReversiblePlan(env, VmCrash, target, params, x, n);
    var w := On(env.vms[target], [P("guestHeartbeatStatus", Text("gray"), x)]);
    assert w[0] == Set(env.vms[target], P("guestHeartbeatStatus", Text("gray"), x)) && w[0] in w;
  }

  lemma CrashMissing(env: Env, target: string, params: Params, x: Expiry, n: nat)
    requires target !in env.vms
    ensures TargetPlan(env, VmCrash, target, params, x, n).events == []
  {
    hide Uniform;
    ReversiblePlan(env, VmCrash, target, params, x, n);
  }

  lemma CrashEvents(env: Env, targets: seq<string>, params: Params, x: Expiry, n: nat)
    ensures forall e :: e in ActivationPlan(env, VmCrash, targets, params, x, n).events ==>
              e.Call? || (e.Set? && e.o == P("guestHeartbeatStatus", Text("gray"), x))
  {
    hide ActivationPlan, TargetPlan, PlanAt, Uniform;
    forall e | e in ActivationPlan(env, VmCrash, targets, params, x, n).events
      ensures e.Call? || (e.Set? && e.o == P("guestHeartbeatStatus", Text("gray"), x))
    {
      PlanOnly(env, VmCrash, targets, params, x, n, e);
      var j :| 0 <= j < |targets| && e in PlanAt(env, VmCrash, targets, params, x, n, j).events;
      PlanAtIs(env, VmCrash, targets, params, x, n, j);
      if targets[j] in env.vms {
        CrashTarget(env, targets[j], params, x, TickAt(env, VmCrash, targets, params, x, n, j));
      } else {
        CrashMissing(env, targets[j], params, x, TickAt(env, VmCrash, targets, params, x, n, j));
      }
    }
  }

  /** While the rounds end well, each takes one task. */
  lemma {:induction false} RoundTicks(
    env: Env, sc: Scenario, targets: seq<string>, params: Params, x: Expiry, n: nat, k: nat)
    requires Reversible(sc) && k <= |targets| && forall j :: 0 <= j < k ==> Goes(env, sc, targets[j], n + j)
    ensures TickAt(env, sc, targets, params, x, n, k) == n + k
    ensures forall j :: 0 <= j < k ==> PlanAt(env, sc, targets, params, x, n, j).Ok()
    decreases k
  {
    hide TargetPlan, Goes, PlanAt;
    if k > 0 {
      var rest := targets[1..];
      assert Goes(env, sc, targets[0], n + 0);
      TargetForward(env, sc, targets[0], params, x, n);
      forall j | 0 <= j < k - 1 ensures Goes(env, sc, rest[j], n + 1 + j) {
        assert rest[j] == targets[j + 1] && Goes(env, sc, targets[j + 1], n + (j + 1));
      }
      RoundTicks(env, sc, rest, params, x, n + 1, k - 1);
      PlanAtFirst(env, sc, targets, params, x, n);
      forall j | 0 < j < k ensures PlanAt(env, sc, targets, params, x, n, j).Ok() {
        PlanAtRest(env, sc, targets, params, x, n, j);
        assert PlanAt(env, sc, rest, params, x, n + 1, j - 1).Ok();
      }
    }
  }

  lemma CrashHas(env: Env, targets: seq<string>, params: Params, x: Expiry, n: nat, k: nat)
    requires k < |targets| && targets[k] in env.vms && forall j :: 0 <= j < k ==> Goes(env, VmCrash, targets[j], n + j)
    ensures Set(env.vms[targets[k]], P("guestHeartbeatStatus", Text("gray"), x))
            in ActivationPlan(env, VmCrash, targets, params, x, n).events
  {
    hide ActivationPlan, TargetPlan, PlanAt, Goes, Uniform;
    RoundTicks(env, VmCrash, targets, params, x, n, k);
    PlanAtIs(env, VmCrash, targets, params, x, n, k);
    CrashTarget(env, targets[k], params, x, n + k);
    PlanHas(env, VmCrash, targets, params, x, n, k,
            Set(env.vms[targets[k]], P("guestHeartbeatStatus", Text("gray"), x)));
  }

  /** A crash marks the heartbeat of each VM it gets to gray, and changes no other override of it: also of the VM
      whose power-off is then rejected. */
  lemma VmCrashAnswers(env: Env, b: Book, req: Request, now: int, end: int, k: nat)
    requires req.id == "vm_crash" && k < |req.targets| && req.targets[k] in env.vms
    requires forall j :: 0 <= j < k ==> Goes(env, VmCrash, req.targets[j], b.state.calls + j)
    ensures Answers(b.state, Activated(env, b, req, now, end).0.state, env.vms[req.targets[k]],
                    [Prop("guestHeartbeatStatus", Text("gray"))], req, now)
  {
    hide ActivationPlan, TargetPlan, PlanAt, Run, Goes, TakesWrites, Answers, Uniform;
    var x, n, ref := ExpiryFor(req, now), b.state.calls, env.vms[req.targets[k]];
    assert Dispatch(req.id) == Some(VmCrash);
    RegisteredDispatch(req.id);
    var es := ActivationPlan(env, VmCrash, req.targets, req.params, x, n).events;
    var ws := [P("guestHeartbeatStatus", Text("gray"), x)];
    CrashEvents(env, req.targets, req.params, x, n);
    CrashHas(env, req.targets, req.params, x, n, k);
    TakesFromEvents(b.state, es, ref, ws);
    var rs := [Prop("guestHeartbeatStatus", Text("gray"))];
    assert ws == StandAll(rs, x);
    TakesAnswers(b.state, Activated(env, b, req, now, end).0.state, ref, rs, req, now);
  }

  function PsodReadings(): seq<Reading> {
    [Prop("runtime.connectionState", Text("notResponding")), Meter(2, [0]), Meter(24, [0])]
  }

  lemma PsodTargetWrites(env: Env, target: string, params: Params, x: Expiry, n: nat)
    requires target in env.hosts
    ensures var p, ws := TargetPlan(env, HostPsod, target, params, x, n), StandAll(PsodReadings(), x);
            && (forall e :: e in p.events ==> e.Call? || (e.Set? && e.o in ws))
            && (p.Ok() ==> forall o :: o in ws ==> Set(env.hosts[target], o) in p.events)
  {
    hide HostFails, OutHost;
    PsodShape(env, target, params, x, n);
    var ref, ws := env.hosts[target], StandAll(PsodReadings(), x);
    var marks := On(ref, [NotResponding(x), M(2, [0], x), M(24, [0], x)]);
    assert [NotResponding(x), M(2, [0], x), M(24, [0], x)] == ws;
    forall o | o in ws ensures Set(ref, o) in marks {
      var i :| 0 <= i < |ws| && ws[i] == o;
      assert marks[i] == Set(ref, o);
    }
  }

  /** After a successful PSOD every target is reported as not responding, with CPU and memory usage zero. */
  lemma HostPsodAnswers(env: Env, b: Book, req: Request, now: int, end: int, t: string)
    requires req.id == "host_psod" && Activated(env, b, req, now, end).1 == Ok && t in req.targets
    ensures t in env.hosts
    ensures Answers(b.state, Activated(env, b, req, now, end).0.state, env.hosts[t],
                    [Prop("runtime.connectionState", Text("notResponding")), Meter(2, [0]), Meter(24, [0])], req, now)
  {
    hide ActivationPlan, TargetPlan, PlanAt, Run, TakesWrites, Answers, Uniform, PsodReadings, StandAll, OnceEach;
    var x, n := ExpiryFor(req, now), b.state.calls;
    assert Dispatch(req.id) == Some(HostPsod);
    RegisteredDispatch(req.id);
    AllTargetsOk(env, HostPsod, req.targets, req.params, x, n);
    var es, ws := ActivationPlan(env, HostPsod, req.targets, req.params, x, n).events, StandAll(PsodReadings(), x);
    forall j | 0 <= j < |req.targets|
      ensures req.targets[j] in env.hosts
      ensures forall e :: e in PlanAt(env, HostPsod, req.targets, req.params, x, n, j).events ==>
                e.Call? || (e.Set? && e.o in ws)
      ensures forall o :: o in ws ==>
                Set(env.hosts[req.targets[j]], o) in PlanAt(env, HostPsod, req.targets, req.params, x, n, j).events
    {
      var tick := TickAt(env, HostPsod, req.targets, req.params, x, n, j);
      PlanAtIs(env, HostPsod, req.targets, req.params, x, n, j);
      if req.targets[j] !in env.hosts {
        NoPsod(env, req.targets[j], req.params, x, tick);
        assert false;
      }
      PsodTargetWrites(env, req.targets[j], req.params, x, tick);
    }
    forall e | e in es ensures e.Call? || (e.Set? && e.o in ws) {
      PlanOnly(env, HostPsod, req.targets, req.params, x, n, e);
    }
    var k :| 0 <= k < |req.targets| && req.targets[k] == t;
    forall o | o in ws ensures Set(env.hosts[t], o) in es {
      PlanHas(env, HostPsod, req.targets, req.params, x, n, k, Set(env.hosts[t], o));
    }
    PsodOnceEach(x);
    TakesFromEvents(b.state, es, env.hosts[t], ws);
    TakesAnswers(b.state, Activated(env, b, req, now, end).0.state, env.hosts[t], PsodReadings(), req, now);
    PsodReadingsAre();
  }

  lemma PsodReadingsAre()
    ensures PsodReadings() == [Prop("runtime.connectionState", Text("notResponding")), Meter(2, [0]), Meter(24, [0])]
  {
  }

  lemma PsodOnceEach(x: Expiry)
    ensures OnceEach(StandAll(PsodReadings(), x))
  {
  }

  // ---------- Snapshots ----------

  /** How many leading targets the finder finds as VMs. */
  function FoundVms(env: Env, targets: seq<string>): (m: nat)
    ensures m <= |targets| && forall k :: 0 <= k < m ==> targets[k] in env.vms
    ensures m < |targets| ==> targets[m] !in env.vms
  {
    if targets == [] || targets[0] !in env.vms then 0 else 1 + FoundVms(env, targets[1..])
  }

  /** The i-th task for the k-th target, of `count` each, is its snapshot number i + 1. */
  predicate SnapshotAt(env: Env, targets: seq<string>, count: nat, n: nat, es: seq<Event>, k: nat, i: nat)
    requires k < |targets| && targets[k] in env.vms
  {
    var p, vm := k * count + i, env.vms[targets[k]];
    p < |es| && es[p] == Call(CreateSnapshot(i + 1), vm, env.oracle(n + p, CreateSnapshot(i + 1), vm))
  }

  /** The tasks are exactly snapshots 1 to `count` of each of the first m targets, in this order. */
  ghost predicate SnapshotsInOrder(env: Env, targets: seq<string>, m: nat, count: nat, n: nat, es: seq<Event>)
    requires m <= |targets| && forall k :: 0 <= k < m ==> targets[k] in env.vms
  {
    |es| == m * count && forall k, i :: 0 <= k < m && 0 <= i < count ==> SnapshotAt(env, targets, count, n, es, k, i)
  }

  lemma {:induction false} SnapshotsAre(env: Env, vm: VmRef, i: nat, count: int, n: nat)
    requires i >= 1
    ensures var es := Snapshots(env, vm, i, count, n);
            && |es| == (if count < i then 0 else count - i + 1)
            && forall p :: 0 <= p < |es| ==> es[p] == Ask(env, n + p, CreateSnapshot(i + p), vm)
    decreases count - i
  {
    hide Ask;
    if i <= count {
      var es, rest := Snapshots(env, vm, i, count, n), Snapshots(env, vm, i + 1, count, n + 1);
      SnapshotsAre(env, vm, i + 1, count, n + 1);
      forall p | 0 < p < |es| ensures es[p] == Ask(env, n + p, CreateSnapshot(i + p), vm) {
        assert es[p] == rest[p - 1] && n + 1 + (p - 1) == n + p && i + 1 + (p - 1) == i + p;
      }
    }
  }

  lemma RowStep(k: nat, count: nat)
    requires k > 0
    ensures k * count == (k - 1) * count + count
  {
  }

  lemma RowFits(k: nat, m: nat, count: nat)
    requires k < m
    ensures k * count + count <= m * count
  {
    assert (m - k - 1) * count >= 0;
    assert m * count == k * count + count + (m - k - 1) * count;
  }

  lemma {:induction false} OnlyCallsCounted(es: seq<Event>)
    requires OnlyCalls(es)
    ensures Calls(es) == |es|
  {
    if es != [] {
      assert es[0] in es;
      OnlyCallsCounted(es[1..]);
    }
  }

  lemma {:induction false} SnapshotEvents(env: Env, targets: seq<string>, params: Params, x: Expiry, n: nat, count: nat)
    requires count == Max(0, if "snapshot_count" in params then params["snapshot_count"] else 5)
    ensures var p, m := ActivationPlan(env, VmSnapshotGrowth, targets, params, x, n), FoundVms(env, targets);
            && (p.Ok() <==> m == |targets|) && p.end != Panicked
            && SnapshotsInOrder(env, targets, m, count, n, p.events)
    decreases targets
  {
    hide ActivationPlan, TargetPlan, Uniform, SnapshotAt, Snapshots;
    ActivationOfNone(env, VmSnapshotGrowth, params, x, n);
    if targets != [] {
      var p, rest := TargetPlan(env, VmSnapshotGrowth, targets[0], params, x, n), targets[1..];
      ActivationCons(env, VmSnapshotGrowth, targets, params, x, n);
      SnapshotPlan(env, targets[0], params, x, n);
      if targets[0] in env.vms {
        var vm := env.vms[targets[0]];
        SnapshotsAre(env, vm, 1, ParamInt(params, "snapshot_count", 5), n);
        assert OnlyCalls(p.events);
        OnlyCallsCounted(p.events);
        SnapshotEvents(env, rest, params, x, n + count, count);
        var q := ActivationPlan(env, VmSnapshotGrowth, rest, params, x, n + count);
        OneMoreTarget(env, targets, FoundVms(env, targets), count, n, p.events, q.events);
      }
    }
  }

  lemma OneMoreTarget(env: Env, targets: seq<string>, m: nat, count: nat, n: nat, first: seq<Event>, rest: seq<Event>)
    requires 0 < m <= |targets| && forall k :: 0 <= k < m ==> targets[k] in env.vms
    requires |first| == count
    requires forall p :: 0 <= p < count ==> first[p] == Ask(env, n + p, CreateSnapshot(1 + p), env.vms[targets[0]])
    requires SnapshotsInOrder(env, targets[1..], m - 1, count, n + count, rest)
    ensures SnapshotsInOrder(env, targets, m, count, n, first + rest)
  {
    RowStep(m, count);
    forall k, i | 0 <= k < m && 0 <= i < count ensures SnapshotAt(env, targets, count, n, first + rest, k, i) {
      if k > 0 {
        assert SnapshotAt(env, targets[1..], count, n + count, rest, k - 1, i);
        RowStep(k, count);
        assert (first + rest)[k * count + i] == rest[(k - 1) * count + i];
      } else {
        RowFits(0, m, count);
      }
    }
  }

  function Max(a: int, b: int): int {
    if a < b then b else a
  }

  /** How many snapshot tasks on this entity completed. */
  function Finished(es: seq<Event>, r: Ref): nat {
    if es == [] then 0
    else (if es[0].Call? && es[0].outcome == Done && es[0].ref == r then 1 else 0) + Finished(es[1..], r)
  }

  lemma {:induction false} SnapshotsGrow(s: State, es: seq<Event>, r: Ref)
    requires forall e :: e in es ==> e.Call? && e.op.CreateSnapshot?
    ensures var w := Run(s, es).world;
            && w.snapshots[r] == s.world.snapshots[r] + Finished(es, r)
            && w.disconnected == s.world.disconnected && w.maintenance == s.world.maintenance
            && w.poweredOff == s.world.poweredOff
    decreases es
  {
    if es != [] {
      var e := es[0];
      assert e in es;
      assert Step(s, e).world.snapshots[r]
             == s.world.snapshots[r] + (if e.outcome == Done && e.ref == r then 1 else 0);
      SnapshotsGrow(Step(s, e), es[1..], r);
    }
  }

  lemma OrderedAreSnapshots(env: Env, targets: seq<string>, m: nat, count: nat, n: nat, es: seq<Event>)
    requires m <= |targets| && forall k :: 0 <= k < m ==> targets[k] in env.vms
    requires SnapshotsInOrder(env, targets, m, count, n, es)
    ensures forall e :: e in es ==> e.Call? && e.op.CreateSnapshot?
  {
    forall e | e in es ensures e.Call? && e.op.CreateSnapshot? {
      var p :| 0 <= p < |es| && es[p] == e;
      Place(p, m, count);
      assert SnapshotAt(env, targets, count, n, es, p / count, p % count);
    }
  }

  lemma Place(p: nat, m: nat, count: nat)
    requires p < m * count
    ensures count > 0 && p / count < m && p % count < count && (p / count) * count + p % count == p
  {
    assert count == 0 ==> m * count == 0;
    var q := p / count;
    assert q * count + p % count == p;
    RowsBelow(m, q, count);
  }

  lemma RowsBelow(m: nat, q: nat, count: nat)
    ensures m <= q ==> m * count <= q * count
  {
    if m <= q {
      assert q * count == m * count + (q - m) * count;
    }
  }

  /** Snapshot growth sends, for each target in turn as far as the VMs are found, the tasks for snapshots 1 to
      snapshot_count (5 by default, none when it is negative), whatever vCenter answers; it succeeds exactly
      when all VMs are found. Each VM gains exactly its completed snapshots, and nothing else changes. */
  lemma VmSnapshotGrowthRequest(env: Env, b: Book, req: Request, now: int, end: int, count: nat, r: Ref)
    requires req.id == "vm_snapshot_growth"
    requires count == Max(0, if "snapshot_count" in req.params then req.params["snapshot_count"] else 5)
    ensures var (b', res) := Activated(env, b, req, now, end);
            var es, m := RequestPlan(env, req, now, b.state.calls).events, FoundVms(env, req.targets);
            var w, w' := b.state.world, b'.state.world;
            && (res == Ok <==> forall t :: t in req.targets ==> t in env.vms)
            && (res != Ok ==> res == ActivationFailed)
            && b'.state == Run(b.state, es) && SnapshotsInOrder(env, req.targets, m, count, b.state.calls, es)
            && b'.state.calls == b.state.calls + m * count && (res == Ok ==> m == |req.targets|)
            && w'.snapshots[r] == w.snapshots[r] + Finished(es, r)
            && w'.disconnected == w.disconnected && w'.maintenance == w.maintenance && w'.poweredOff == w.poweredOff
  {
    hide ActivationPlan, Run, SnapshotsInOrder, Uniform;
    assert Dispatch(req.id) == Some(VmSnapshotGrowth);
    RegisteredDispatch(req.id);
    var x, n, m := ExpiryFor(req, now), b.state.calls, FoundVms(env, req.targets);
    var es := ActivationPlan(env, VmSnapshotGrowth, req.targets, req.params, x, n).events;
    SnapshotEvents(env, req.targets, req.params, x, n, count);
    OrderedAreSnapshots(env, req.targets, m, count, n, es);
    SnapshotsGrow(b.state, es, r);
    CallsCounted(b.state, es);
    OnlyCallsCounted(es);
    OrderedLength(env, req.targets, m, count, n, es);
  }

  lemma OrderedLength(env: Env, targets: seq<string>, m: nat, count: nat, n: nat, es: seq<Event>)
    requires m <= |targets| && forall k :: 0 <= k < m ==> targets[k] in env.vms
    requires SnapshotsInOrder(env, targets, m, count, n, es)
    ensures |es| == m * count
  {
  }
}
