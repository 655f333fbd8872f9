/** ClearAll against deactivating what is active: "ClearAll deactivates all active scenarios" is true of
    the active map, and of overrides, hosts and VMs only under the conditions proved here. */
module Cleanup {
  import opened Wrappers
  import opened Overrides
  import opened Engine
  import opened Plans
  import opened ActiveKeys
  import opened Lifecycle
  import opened Footprints
  import opened Cascades
  import opened StateChanges

  // ---------- Hosts and VMs that come back ----------

  predicate Restoring(op: Op) {
    op == Reconnect || op == ExitMaintenance || op == PowerOn
  }

  /** Every task reconnects a host, ends its maintenance or powers on a VM. */
  predicate OnlyUp(es: seq<Event>) {
    forall e :: e in es && e.Call? ==> Restoring(e.op)
  }

  /** The entities this task would bring back, if it were completed on all of them. */
  function Awaiting(w: World, op: Op): set<Ref> {
    match op
    case Reconnect => w.disconnected
    case ExitMaintenance => w.maintenance
    case PowerOn => w.poweredOff
    case _ => {}
  }

  function Up(w: World, hosts: set<Ref>, maintained: set<Ref>, vms: set<Ref>): World {
    w.(disconnected := w.disconnected - hosts, maintenance := w.maintenance - maintained,
       poweredOff := w.poweredOff - vms)
  }

  function UpBy(w: World, es: seq<Event>): World {
    Up(w, Hit(es, Reconnect), Hit(es, ExitMaintenance), Hit(es, PowerOn))
  }

  lemma UpStep(s: State, e: Event)
    requires OnlyUp([e])
    ensures Step(s, e).world == UpBy(s.world, [e])
  {
    assert e in [e];
    if e.Call? && e.outcome == Done {
      assert Hit([e], e.op) == {e.ref};
      assert forall op :: op != e.op ==> Hit([e], op) == {};
    } else {
      assert forall op :: Hit([e], op) == {};
    }
  }

  lemma UpTwice(w: World, a: seq<Event>, b: seq<Event>)
    ensures UpBy(UpBy(w, a), b) == UpBy(w, a + b)
  {
    hide Hit;
    forall op, rs: set<Ref> ensures rs - Hit(a, op) - Hit(b, op) == rs - Hit(a + b, op) {
      HitConcat(a, b, op);
    }
  }

  /** Such events bring back exactly the hosts and VMs whose tasks completed. */
  lemma {:induction false} UpWorld(s: State, es: seq<Event>)
    requires OnlyUp(es)
    ensures Run(s, es).world == UpBy(s.world, es)
    decreases es
  {
    hide Step, UpBy;
    if es == [] {
      UpNone(s.world);
    } else {
      assert es == [es[0]] + es[1..] && es[0] in es;
      UpStep(s, es[0]);
      UpWorld(Step(s, es[0]), es[1..]);
      UpTwice(s.world, [es[0]], es[1..]);
    }
  }

  lemma UpNone(w: World)
    ensures UpBy(w, []) == w
  {
    assert forall op :: Hit([], op) == {};
    assert forall rs: set<Ref> :: rs - {} == rs;
  }

  /** They change nothing exactly when no completed task was on an entity that awaited it. */
  lemma UpIdle(w: World, es: seq<Event>)
    ensures UpBy(w, es) == w <==> forall op :: Restoring(op) ==> Hit(es, op) !! Awaiting(w, op)
  {
    hide Hit;
    MinusSame(w.disconnected, Hit(es, Reconnect));
    MinusSame(w.maintenance, Hit(es, ExitMaintenance));
    MinusSame(w.poweredOff, Hit(es, PowerOn));
    assert Restoring(Reconnect) && Restoring(ExitMaintenance) && Restoring(PowerOn);
  }

  lemma MinusSame(a: set<Ref>, b: set<Ref>)
    ensures a - b == a <==> b !! a
  {
  }

  // ---------- The tasks of a deactivation ----------

  function RestoreOp(sc: Option<Scenario>): Option<Op> {
    if sc == Some(HostPsod) || sc == Some(NetMgmtPartition) then Some(Reconnect)
    else if sc == Some(HostMaintenance) then Some(ExitMaintenance)
    else if sc == Some(VmCrash) then Some(PowerOn)
    else None
  }

  /** The host or VM a deactivation sends its task to. */
  function RestoreRef(env: Env, sc: Option<Scenario>, target: string): Option<Ref> {
    if sc == Some(VmCrash) then (if target in env.vms then Some(env.vms[target]) else None)
    else if target in env.hosts then Some(env.hosts[target]) else None
  }

  /** The entities that deactivating these targets sends this task to. */
  function Restored(env: Env, sc: Option<Scenario>, targets: seq<string>, op: Op): set<Ref> {
    set t | t in targets && RestoreOp(sc) == Some(op) && RestoreRef(env, sc, t).Some? :: RestoreRef(env, sc, t).value
  }

  lemma {:induction false} DeactivationUp(env: Env, sc: Option<Scenario>, targets: seq<string>, n: nat)
    ensures OnlyUp(DeactivationEvents(env, sc, targets, n))
    decreases targets
  {
    if targets != [] {
      DeactivationUp(env, sc, targets[1..], n + Calls(DeactivateTarget(env, sc, targets[0], n)));
    }
  }

  lemma TargetRestores(env: Env, sc: Option<Scenario>, target: string, n: nat, op: Op)
    requires CompletesAll(env)
    ensures var es := DeactivateTarget(env, sc, target, n); OnlyUp(es) && Hit(es, op) == Restored(env, sc, [target], op)
  {
    hide DeactivateTarget, Hit, RestoreOp, RestoreRef, CompletesAll;
    assert target in [target];
    if RestoreOp(sc).Some? && RestoreRef(env, sc, target).Some? {
      RestoringTask(env, sc, target, n);
      OneRestored(env, DeactivateTarget(env, sc, target, n), n,
                  RestoreOp(sc).value, RestoreRef(env, sc, target).value, op);
    } else {
      NoRestoringTask(env, sc, target, n);
      HitNone(DeactivateTarget(env, sc, target, n), op);
    }
  }

  lemma RestoringTask(env: Env, sc: Option<Scenario>, target: string, n: nat)
    requires RestoreOp(sc).Some? && RestoreRef(env, sc, target).Some?
    ensures var es := DeactivateTarget(env, sc, target, n);
            var e := Ask(env, n, RestoreOp(sc).value, RestoreRef(env, sc, target).value);
            e in es && Restoring(e.op) && forall f :: f in es && f.Call? ==> f == e
  {
  }

  lemma NoRestoringTask(env: Env, sc: Option<Scenario>, target: string, n: nat)
    requires RestoreOp(sc).None? || RestoreRef(env, sc, target).None?
    ensures forall e :: e in DeactivateTarget(env, sc, target, n) ==> !e.Call?
  {
  }

  lemma OneRestored(env: Env, es: seq<Event>, n: nat, op: Op, ref: Ref, other: Op)
    requires CompletesAll(env)
    requires Ask(env, n, op, ref) in es && forall f :: f in es && f.Call? ==> f == Ask(env, n, op, ref)
    ensures Hit(es, other) == if other == op then {ref} else {}
  {
  }

  lemma {:induction false} DeactivationRestores(env: Env, sc: Option<Scenario>, targets: seq<string>, n: nat, op: Op)
    requires CompletesAll(env)
    ensures var es := DeactivationEvents(env, sc, targets, n);
            OnlyUp(es) && Hit(es, op) == Restored(env, sc, targets, op)
    decreases targets
  {
    hide DeactivateTarget, Hit, RestoreOp, RestoreRef, CompletesAll;
    if targets == [] {
      HitNone([], op);
    } else {
      var es, rest := DeactivateTarget(env, sc, targets[0], n), targets[1..];
      TargetRestores(env, sc, targets[0], n, op);
      DeactivationRestores(env, sc, rest, n + Calls(es), op);
      HitConcat(es, DeactivationEvents(env, sc, rest, n + Calls(es)), op);
      assert targets == [targets[0]] + rest;
    }
  }

  // ---------- The rows a deactivation removes ----------

  lemma {:induction false} DeactivationRows(env: Env, sc: Option<Scenario>, targets: seq<string>, s: State, n: nat)
    ensures var s', keys := Run(s, DeactivationEvents(env, sc, targets, n)), ClearedKeys(env, sc, targets);
            s'.metrics == s.metrics - keys && s'.properties == s.properties - keys
    decreases targets
  {
    hide DeactivateTarget, ClearedKeys, Run;
    if targets == [] {
      NothingCleared(env, sc, s);
      RunNone(s);
    } else {
      var es, rest := DeactivateTarget(env, sc, targets[0], n), targets[1..];
      var first, more := ClearedKeys(env, sc, [targets[0]]), ClearedKeys(env, sc, rest);
      TargetRows(env, sc, targets[0], s, n);
      DeactivationRows(env, sc, rest, Run(s, es), n + Calls(es));
      RunConcat(s, es, DeactivationEvents(env, sc, rest, n + Calls(es)));
      ClearedKeysSplit(env, sc, targets);
      MinusTwice(s.metrics, first, more);
      MinusTwice(s.properties, first, more);
    }
  }

  lemma MinusTwice<V>(m: map<string, V>, a: set<string>, b: set<string>)
    ensures m - a - b == m - (a + b)
  {
  }

  lemma NothingCleared(env: Env, sc: Option<Scenario>, s: State)
    ensures ClearedKeys(env, sc, []) == {} && s.metrics - {} == s.metrics && s.properties - {} == s.properties
  {
  }

  lemma TargetRows(env: Env, sc: Option<Scenario>, target: string, s: State, n: nat)
    ensures var s', keys := Run(s, DeactivateTarget(env, sc, target, n)), ClearedKeys(env, sc, [target]);
            s'.metrics == s.metrics - keys && s'.properties == s.properties - keys
  {
    hide Run;
    var r := Resolved(env, sc, target);
    assert target in [target];
    if r.Some? {
      assert ClearedKeys(env, sc, [target]) == {MorKey(r.value)};
      ClearAndAsk(env, s, r.value, n, Reconnect);
      ClearAndAsk(env, s, r.value, n, PowerOn);
    } else {
      NothingCleared(env, sc, s);
      assert ClearedKeys(env, sc, [target]) == {};
      RunNone(s);
      if target in env.hosts {
        RunOne(s, Ask(env, n, ExitMaintenance, env.hosts[target]));
      }
    }
  }

  lemma ClearAndAsk(env: Env, s: State, ref: Ref, n: nat, op: Op)
    ensures var s', s'' := Run(s, ClearBoth(ref)), Run(s, ClearBoth(ref) + [Ask(env, n, op, ref)]);
            && s'.metrics == s.metrics - {MorKey(ref)} && s'.properties == s.properties - {MorKey(ref)}
            && s''.metrics == s'.metrics && s''.properties == s'.properties
  {
    RunConcat(s, ClearBoth(ref), [Ask(env, n, op, ref)]);
    RunOne(Run(s, ClearBoth(ref)), Ask(env, n, op, ref));
    assert ClearBoth(ref)[1..] == [ClearProperties(ref)];
    RunOne(Step(s, ClearMetrics(ref)), ClearProperties(ref));
  }

  // ---------- One active scenario ----------

  /** One Deactivate on an active key, when tasks complete: the hosts and VMs it restores, the rows it
      removes, the entry it takes off the map. */
  lemma DeactivatedState(env: Env, b: Book, req: Request)
    requires CompletesAll(env) && Key(req.id, req.targets) in b.active
    ensures var sc, ts := Dispatch(req.id), req.targets;
            var b' := Deactivated(env, b, req).0;
            && b'.active == b.active - {Key(req.id, ts)}
            && b'.state.world == Up(b.state.world, Restored(env, sc, ts, Reconnect),
                                    Restored(env, sc, ts, ExitMaintenance), Restored(env, sc, ts, PowerOn))
            && b'.state.metrics == b.state.metrics - ClearedKeys(env, sc, ts)
            && b'.state.properties == b.state.properties - ClearedKeys(env, sc, ts)
  {
    hide DeactivationEvents, Run, Hit, Restored, OnlyUp, ClearedKeys, Dispatch;
    var sc, n := Dispatch(req.id), b.state.calls;
    DeactivationRestores(env, sc, req.targets, n, Reconnect);
    DeactivationRestores(env, sc, req.targets, n, ExitMaintenance);
    DeactivationRestores(env, sc, req.targets, n, PowerOn);
    UpWorld(b.state, DeactivationEvents(env, sc, req.targets, n));
    DeactivationRows(env, sc, req.targets, b.state, n);
  }

  /** ClearAll leaves host and VM state as Deactivate of one active scenario does, for any answers of
      vCenter, exactly when no task of the Deactivate is completed on an entity that awaits it. */
  lemma ClearAllVersusTasks(env: Env, b: Book, req: Request)
    requires Key(req.id, req.targets) in b.active
    ensures var es := DeactivationEvents(env, Dispatch(req.id), req.targets, b.state.calls);
            AllCleared(b).state.world == Deactivated(env, b, req).0.state.world
            <==> forall op :: Restoring(op) ==> Hit(es, op) !! Awaiting(b.state.world, op)
  {
    hide DeactivationEvents, Run, Hit, OnlyUp, Dispatch, UpBy;
    var es := DeactivationEvents(env, Dispatch(req.id), req.targets, b.state.calls);
    DeactivationUp(env, Dispatch(req.id), req.targets, b.state.calls);
    UpWorld(b.state, es);
    UpIdle(b.state.world, es);
  }

  /** Deactivating these targets would change no host or VM. */
  predicate NothingToRestore(env: Env, w: World, sc: Option<Scenario>, targets: seq<string>) {
    && Restored(env, sc, targets, Reconnect) !! w.disconnected
    && Restored(env, sc, targets, ExitMaintenance) !! w.maintenance
    && Restored(env, sc, targets, PowerOn) !! w.poweredOff
  }

  /** ClearAll leaves host and VM state as Deactivate of one active scenario does, with tasks completing,
      exactly when the host or VM that each target names is not in the state Deactivate ends: never
      disconnected for a partition or PSOD, not in maintenance, not powered off after a crash. For the
      other scenarios it always does. */
  lemma ClearAllVersusOne(env: Env, b: Book, req: Request)
    requires CompletesAll(env) && Key(req.id, req.targets) in b.active
    ensures AllCleared(b).state.world == Deactivated(env, b, req).0.state.world
            <==> NothingToRestore(env, b.state.world, Dispatch(req.id), req.targets)
  {
    hide Deactivated, Restored, Dispatch;
    var sc, ts, w := Dispatch(req.id), req.targets, b.state.world;
    DeactivatedState(env, b, req);
    MinusSame(w.disconnected, Restored(env, sc, ts, Reconnect));
    MinusSame(w.maintenance, Restored(env, sc, ts, ExitMaintenance));
    MinusSame(w.poweredOff, Restored(env, sc, ts, PowerOn));
  }

  // ---------- Every active scenario ----------

  function RequestOf(a: ActiveScenario): Request {
    Request(a.id, a.targets, a.params, 0)
  }

  /** Deactivate the entries under these keys, in this order. */
  function Deactivations(active: ActiveMap, order: seq<string>): (ops: seq<Operation>)
    requires forall k :: k in order ==> k in active
    ensures |ops| == |order|
  {
    seq(|order|, i requires 0 <= i < |order| => Deactivate(RequestOf(active[order[i]])))
  }

  ghost predicate NoRepeats(order: seq<string>) {
    forall i, j :: 0 <= i < j < |order| ==> order[i] != order[j]
  }

  /** What deactivating the entries under these keys restores, and which rows it removes. */
  function RestoredAll(env: Env, active: ActiveMap, order: seq<string>, op: Op): set<Ref>
    requires forall k :: k in order ==> k in active
  {
    if order == [] then {}
    else
      var a := active[order[0]];
      Restored(env, Dispatch(a.id), a.targets, op) + RestoredAll(env, active, order[1..], op)
  }

  function ClearedAll(env: Env, active: ActiveMap, order: seq<string>): set<string>
    requires forall k :: k in order ==> k in active
  {
    if order == [] then {}
    else
      var a := active[order[0]];
      ClearedKeys(env, Dispatch(a.id), a.targets) + ClearedAll(env, active, order[1..])
  }

  lemma RestoredIs(env: Env, active: ActiveMap, order: seq<string>, op: Op, r: Ref)
    requires forall k :: k in order ==> k in active
    ensures r in RestoredAll(env, active, order, op)
            <==> exists k :: k in order && r in Restored(env, Dispatch(active[k].id), active[k].targets, op)
    decreases order
  {
    hide Restored, Dispatch;
    if order != [] {
      RestoredIs(env, active, order[1..], op, r);
      assert order == [order[0]] + order[1..];
    }
  }

  lemma ClearedIs(env: Env, active: ActiveMap, order: seq<string>, key: string)
    requires forall k :: k in order ==> k in active
    ensures key in ClearedAll(env, active, order)
            <==> exists k :: k in order && key in ClearedKeys(env, Dispatch(active[k].id), active[k].targets)
    decreases order
  {
    hide ClearedKeys, Dispatch;
    if order != [] {
      ClearedIs(env, active, order[1..], key);
      assert order == [order[0]] + order[1..];
    }
  }

  lemma DeactivationsRest(active: ActiveMap, order: seq<string>)
    requires order != [] && NoRepeats(order) && forall k :: k in order ==> k in active
    ensures forall k :: k in order[1..] ==> k in active - {order[0]}
    ensures Deactivations(active, order)[1..] == Deactivations(active - {order[0]}, order[1..])
    ensures NoRepeats(order[1..])
  {
    var rest := order[1..];
    assert forall i :: 0 <= i < |rest| ==> rest[i] == order[i + 1] && rest[i] != order[0];
  }

  lemma {:induction false} OthersStay(env: Env, active: ActiveMap, order: seq<string>, gone: string, op: Op)
    requires gone !in order && forall k :: k in order ==> k in active
    ensures RestoredAll(env, active - {gone}, order, op) == RestoredAll(env, active, order, op)
    ensures ClearedAll(env, active - {gone}, order) == ClearedAll(env, active, order)
    decreases order
  {
    hide Restored, ClearedKeys, Dispatch;
    if order != [] {
      OthersStay(env, active, order[1..], gone, op);
    }
  }

  /** Deactivating the entries under these keys turns s into s', up to the number of tasks sent. */
  ghost predicate DeactivatedTo(env: Env, active: ActiveMap, order: seq<string>, s: State, s': State)
    requires forall k :: k in order ==> k in active
  {
    && s'.world == Up(s.world, RestoredAll(env, active, order, Reconnect),
                      RestoredAll(env, active, order, ExitMaintenance),
                      RestoredAll(env, active, order, PowerOn))
    && s'.metrics == s.metrics - ClearedAll(env, active, order)
    && s'.properties == s.properties - ClearedAll(env, active, order)
  }

  lemma OneMore(env: Env, b: Book, order: seq<string>, s': State)
    requires CompletesAll(env) && Consistent(b)
    requires order != [] && NoRepeats(order) && forall k :: k in order ==> k in b.active
    requires var b1 := Deactivated(env, b, RequestOf(b.active[order[0]])).0;
             (forall k :: k in order[1..] ==> k in b1.active) && DeactivatedTo(env, b1.active, order[1..], b1.state, s')
    ensures DeactivatedTo(env, b.active, order, b.state, s')
  {
    hide Deactivated, Restored, ClearedKeys, Dispatch, Up, CompletesAll;
    var k, rest, a := order[0], order[1..], b.active[order[0]];
    var sc := Dispatch(a.id);
    DeactivatedState(env, b, RequestOf(a));
    DeactivationsRest(b.active, order);
    assert k !in rest by {
      assert forall i :: 0 <= i < |rest| ==> rest[i] == order[i + 1];
    }
    OthersStay(env, b.active, rest, k, Reconnect);
    OthersStay(env, b.active, rest, k, ExitMaintenance);
    OthersStay(env, b.active, rest, k, PowerOn);
    MinusTwice(b.state.metrics, ClearedKeys(env, sc, a.targets), ClearedAll(env, b.active, rest));
    MinusTwice(b.state.properties, ClearedKeys(env, sc, a.targets), ClearedAll(env, b.active, rest));
    UpUp(b.state.world, Restored(env, sc, a.targets, Reconnect), Restored(env, sc, a.targets, ExitMaintenance),
         Restored(env, sc, a.targets, PowerOn), RestoredAll(env, b.active, rest, Reconnect),
         RestoredAll(env, b.active, rest, ExitMaintenance), RestoredAll(env, b.active, rest, PowerOn));
  }

  lemma {:induction false} DeactivateMany(env: Env, b: Book, order: seq<string>)
    requires CompletesAll(env) && Consistent(b) && NoRepeats(order) && forall k :: k in order ==> k in b.active
    ensures var b' := ApplyAll(env, b, Deactivations(b.active, order));
            b'.active == b.active - (set k | k in order) && DeactivatedTo(env, b.active, order, b.state, b'.state)
    decreases order
  {
    hide Deactivated, DeactivatedTo, CompletesAll, Consistent, NoRepeats, ApplyAll, Deactivations, Key;
    if order == [] {
      NoneLeft(env, b);
      NothingDone(env, b);
    } else {
      var req := RequestOf(b.active[order[0]]);
      var b1 := Deactivated(env, b, req).0;
      OwnKey(b, order[0]);
      DeactivatedKeeps(env, b, req);
      DeactivationsRest(b.active, order);
      FirstThenRest(env, b, order);
      DeactivateMany(env, b1, order[1..]);
      OneMore(env, b, order, ApplyAll(env, b1, Deactivations(b1.active, order[1..])).state);
      assert order == [order[0]] + order[1..];
    }
  }

  lemma NoneLeft(env: Env, b: Book)
    ensures ApplyAll(env, b, Deactivations(b.active, [])) == b
  {
  }

  lemma FirstThenRest(env: Env, b: Book, order: seq<string>)
    requires order != [] && NoRepeats(order) && forall k :: k in order ==> k in b.active
    requires forall k :: k in order[1..] ==> k in b.active - {order[0]}
    ensures ApplyAll(env, b, Deactivations(b.active, order))
            == ApplyAll(env, Deactivated(env, b, RequestOf(b.active[order[0]])).0,
                        Deactivations(b.active - {order[0]}, order[1..]))
  {
    hide Deactivated;
    DeactivationsRest(b.active, order);
  }

  lemma OwnKey(b: Book, k: string)
    requires Consistent(b) && k in b.active
    ensures Key(b.active[k].id, b.active[k].targets) == k
  {
  }

  lemma NothingDone(env: Env, b: Book)
    ensures b.active - (set k | k in []) == b.active && DeactivatedTo(env, b.active, [], b.state, b.state)
  {
    assert forall rs: set<Ref> :: rs - {} == rs;
    assert b.state.metrics - {} == b.state.metrics && b.state.properties - {} == b.state.properties;
  }

  lemma UpUp(w: World, a: set<Ref>, b: set<Ref>, c: set<Ref>, a': set<Ref>, b': set<Ref>, c': set<Ref>)
    ensures Up(Up(w, a, b, c), a', b', c') == Up(w, a + a', b + b', c + c')
  {
    assert w.disconnected - a - a' == w.disconnected - (a + a');
    assert w.maintenance - b - b' == w.maintenance - (b + b');
    assert w.poweredOff - c - c' == w.poweredOff - (c + c');
  }

  /** The registry row of this key belongs to an entity that deactivating some active scenario clears. */
  predicate Covered(env: Env, active: ActiveMap, key: string) {
    exists k :: k in active && key in ClearedKeys(env, Dispatch(active[k].id), active[k].targets)
  }

  /** No target of an active scenario awaits being restored. */
  ghost predicate AllQuiet(env: Env, w: World, active: ActiveMap) {
    forall k :: k in active ==> NothingToRestore(env, w, Dispatch(active[k].id), active[k].targets)
  }

  ghost predicate AllCovered(env: Env, s: State, active: ActiveMap) {
    forall key :: key in s.metrics.Keys + s.properties.Keys ==> Covered(env, active, key)
  }

  /** Does ClearAll deactivate all active scenarios? Against deactivating each of them, in any order,
      when tasks complete: the active map is empty either way; host and VM state is the same exactly
      when no active scenario's target awaits being restored; and the registry is the same exactly when
      no row stands off the targets those deactivations clear. */
  lemma ClearAllVersusAll(env: Env, b: Book, order: seq<string>)
    requires CompletesAll(env) && Consistent(b)
    requires NoRepeats(order) && forall k :: k in order <==> k in b.active
    ensures var each, cleared := ApplyAll(env, b, Deactivations(b.active, order)), AllCleared(b);
            && each.active == cleared.active == map[]
            && (each.state.world == cleared.state.world <==> AllQuiet(env, b.state.world, b.active))
            && (each.state.metrics == cleared.state.metrics && each.state.properties == cleared.state.properties
                <==> AllCovered(env, b.state, b.active))
  {
    hide ApplyAll, Deactivations, AllQuiet, RestoredAll, ClearedAll, Covered, CompletesAll, Consistent, Up;
    DeactivateMany(env, b, order);
    AllRestored(env, b, order);
    forall key ensures key in ClearedAll(env, b.active, order) <==> Covered(env, b.active, key) {
      CoveredIs(env, b.active, order, key);
    }
    EmptyRest(b.state.metrics, ClearedAll(env, b.active, order));
    EmptyRest(b.state.properties, ClearedAll(env, b.active, order));
  }

  lemma CoveredIs(env: Env, active: ActiveMap, order: seq<string>, key: string)
    requires forall k :: k in order <==> k in active
    ensures key in ClearedAll(env, active, order) <==> Covered(env, active, key)
  {
    hide ClearedKeys, Dispatch, ClearedAll;
    ClearedIs(env, active, order, key);
  }

  lemma EmptyRest<V>(m: map<string, V>, keys: set<string>)
    ensures m - keys == map[] <==> forall key :: key in m ==> key in keys
  {
    if forall key :: key in m ==> key in keys {
      assert (m - keys).Keys == {};
    }
    if m - keys == map[] {
      forall key | key in m ensures key in keys {
        assert key !in m - keys;
      }
    }
  }

  lemma AllRestored(env: Env, b: Book, order: seq<string>)
    requires forall k :: k in order <==> k in b.active
    ensures Up(b.state.world, RestoredAll(env, b.active, order, Reconnect),
               RestoredAll(env, b.active, order, ExitMaintenance),
               RestoredAll(env, b.active, order, PowerOn)) == b.state.world
            <==> AllQuiet(env, b.state.world, b.active)
  {
    hide Restored, Dispatch, RestoredAll;
    var w := b.state.world;
    MinusSame(w.disconnected, RestoredAll(env, b.active, order, Reconnect));
    MinusSame(w.maintenance, RestoredAll(env, b.active, order, ExitMaintenance));
    MinusSame(w.poweredOff, RestoredAll(env, b.active, order, PowerOn));
    RestoredApart(env, b.active, order, Reconnect, w.disconnected);
    RestoredApart(env, b.active, order, ExitMaintenance, w.maintenance);
    RestoredApart(env, b.active, order, PowerOn, w.poweredOff);
  }

  lemma RestoredApart(env: Env, active: ActiveMap, order: seq<string>, op: Op, rs: set<Ref>)
    requires forall k :: k in order <==> k in active
    ensures RestoredAll(env, active, order, op) !! rs
            <==> forall k :: k in active ==> Restored(env, Dispatch(active[k].id), active[k].targets, op) !! rs
  {
    hide Restored, Dispatch, RestoredAll;
    forall r
      ensures r in RestoredAll(env, active, order, op)
              <==> exists k :: k in active && r in Restored(env, Dispatch(active[k].id), active[k].targets, op)
    {
      RestoredIs(env, active, order, op, r);
    }
  }

  /** So ClearAll leaves down what a scenario took down: after any successful partition, maintenance or
      crash of at least one target it never leaves the same hosts and VMs as Deactivate does. */
  lemma ClearAllLeavesDown(env: Env, b: Book, req: Request, now: int, end: int)
    requires CompletesAll(env) && Dispatch(req.id).Some? && Reversible(Dispatch(req.id).value)
    requires req.targets != [] && Activated(env, b, req, now, end).1 == Ok
    ensures var sc, b1 := Dispatch(req.id).value, Activated(env, b, req, now, end).0;
            var named := NamedAll(env, sc, req.targets);
            && named != {} && named <= Affected(sc, AllCleared(b1).state.world)
            && named !! Affected(sc, Deactivated(env, b1, req).0.state.world)
  {
    hide Activated, Deactivated, Affected, WithAffected, Dispatch, CompletesAll;
    var sc, t, w := Dispatch(req.id).value, req.targets[0], b.state.world;
    StateRoundTrip(env, b, req, now, end);
    assert t in req.targets && Names(env, sc, t);
    assert Named(env, sc, t) in NamedAll(env, sc, req.targets);
    AffectedLaws(sc, w, Affected(sc, w) + NamedAll(env, sc, req.targets));
    AffectedLaws(sc, w, Affected(sc, w) - NamedAll(env, sc, req.targets));
  }

  /** A network partition of one host, from any state: ClearAll leaves it disconnected, Deactivate does not. */
  lemma ClearAllKeepsPartition(env: Env, b: Book, target: string, params: Params, now: int, end: int)
    requires CompletesAll(env) && target in env.hosts
    ensures var req := Request("net_mgmt_partition", [target], params, 0);
            var (b1, r) := Activated(env, b, req, now, end);
            && r == Ok
            && env.hosts[target] in AllCleared(b1).state.world.disconnected
            && env.hosts[target] !in Deactivated(env, b1, req).0.state.world.disconnected
  {
    hide Activated, Deactivated, CompletesAll;
    var req := Request("net_mgmt_partition", [target], params, 0);
    assert Dispatch(req.id) == Some(NetMgmtPartition);
    StateRoundTrip(env, b, req, now, end);
    assert req.targets == [target];
    ClearAllLeavesDown(env, b, req, now, end);
    assert target in req.targets && env.hosts[target] in NamedAll(env, NetMgmtPartition, req.targets);
  }
}
