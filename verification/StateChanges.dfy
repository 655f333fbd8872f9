/** Host and VM state through Activate and Deactivate of the state-changing scenarios, for any answers
    of vCenter, and in particular when it completes every task. */
module StateChanges {
  import opened Wrappers
  import opened Overrides
  import opened Engine
  import opened Plans
  import opened ActiveKeys
  import opened Lifecycle
  import Footprints
  import opened Cascades
  import opened Quotas

  ghost predicate CompletesAll(env: Env) {
    forall n: nat, op, ref :: env.oracle(n, op, ref) == Done
  }

  /** The scenarios that one task per target brings about and one task undoes. */
  predicate Reversible(sc: Scenario) {
    sc.NetMgmtPartition? || sc.HostMaintenance? || sc.VmCrash?
  }

  function Forward(sc: Scenario): Op
    requires Reversible(sc)
  {
    match sc
    case NetMgmtPartition => Disconnect
    case HostMaintenance => EnterMaintenance
    case VmCrash => PowerOff
  }

  function Backward(sc: Scenario): Op
    requires Reversible(sc)
  {
    match sc
    case NetMgmtPartition => Reconnect
    case HostMaintenance => ExitMaintenance
    case VmCrash => PowerOn
  }

  /** Which hosts or VMs are in the state the scenario puts its targets in. */
  function Affected(sc: Scenario, w: World): set<Ref>
    requires Reversible(sc)
  {
    match sc
    case NetMgmtPartition => w.disconnected
    case HostMaintenance => w.maintenance
    case VmCrash => w.poweredOff
  }

  function WithAffected(sc: Scenario, w: World, rs: set<Ref>): World
    requires Reversible(sc)
  {
    match sc
    case NetMgmtPartition => w.(disconnected := rs)
    case HostMaintenance => w.(maintenance := rs)
    case VmCrash => w.(poweredOff := rs)
  }

  lemma AffectedLaws(sc: Scenario, w: World, rs: set<Ref>)
    requires Reversible(sc)
    ensures Affected(sc, WithAffected(sc, w, rs)) == rs && WithAffected(sc, w, Affected(sc, w)) == w
  {
  }

  predicate Names(env: Env, sc: Scenario, target: string)
    requires Reversible(sc)
  {
    if sc.VmCrash? then target in env.vms else target in env.hosts
  }

  function Named(env: Env, sc: Scenario, target: string): Ref
    requires Reversible(sc) && Names(env, sc, target)
  {
    if sc.VmCrash? then env.vms[target] else env.hosts[target]
  }

  function NamedAll(env: Env, sc: Scenario, targets: seq<string>): set<Ref>
    requires Reversible(sc)
  {
    set t | t in targets && Names(env, sc, t) :: Named(env, sc, t)
  }

  // ---------- One kind of task ----------

  predicate OnlyOp(es: seq<Event>, op: Op) {
    forall e :: e in es && e.Call? ==> e.op == op
  }

  lemma OnlyOpConcat(a: seq<Event>, b: seq<Event>, op: Op)
    ensures OnlyOp(a + b, op) <==> OnlyOp(a, op) && OnlyOp(b, op)
  {
    assert forall e :: e in a + b <==> e in a || e in b;
  }

  lemma HitHead(es: seq<Event>, op: Op)
    requires es != [] && OnlyOp(es, op)
    ensures OnlyOp(es[1..], op) && (es[0].Call? ==> es[0].op == op)
    ensures Hit(es, op) == (if es[0].Call? && es[0].outcome == Done then {es[0].ref} else {}) + Hit(es[1..], op)
  {
    var e, rest := es[0], es[1..];
    assert es == [e] + rest && e in es;
    HitConcat([e], rest, op);
    assert e in [e];
  }

  /** Tasks of the scenario's own kind put exactly the entities they complete on in its state. */
  lemma {:induction false} ForwardWorld(s: State, es: seq<Event>, sc: Scenario)
    requires Reversible(sc) && OnlyOp(es, Forward(sc))
    ensures Run(s, es).world == WithAffected(sc, s.world, Affected(sc, s.world) + Hit(es, Forward(sc)))
    decreases es
  {
    hide Hit, OnlyOp;
    if es == [] {
      HitNone(es, Forward(sc));
      assert Affected(sc, s.world) + {} == Affected(sc, s.world);
    } else {
      HitHead(es, Forward(sc));
      StepForward(s, es[0], sc, Hit(es[1..], Forward(sc)));
      ForwardWorld(Step(s, es[0]), es[1..], sc);
    }
  }

  lemma StepForward(s: State, e: Event, sc: Scenario, more: set<Ref>)
    requires Reversible(sc) && (e.Call? ==> e.op == Forward(sc))
    ensures var w := Step(s, e).world;
            var hit := if e.Call? && e.outcome == Done then {e.ref} else {};
            WithAffected(sc, w, Affected(sc, w) + more)
            == WithAffected(sc, s.world, Affected(sc, s.world) + (hit + more))
  {
    var was := Affected(sc, s.world);
    assert {} + more == more;
    if e.Call? {
      assert was + {e.ref} + more == was + ({e.ref} + more);
    }
  }

  /** And the scenario's undoing tasks take them out of it. */
  lemma {:induction false} BackwardWorld(s: State, es: seq<Event>, sc: Scenario)
    requires Reversible(sc) && OnlyOp(es, Backward(sc))
    ensures Run(s, es).world == WithAffected(sc, s.world, Affected(sc, s.world) - Hit(es, Backward(sc)))
    decreases es
  {
    hide Hit, OnlyOp;
    if es == [] {
      HitNone(es, Backward(sc));
      assert Affected(sc, s.world) - {} == Affected(sc, s.world);
    } else {
      HitHead(es, Backward(sc));
      StepBackward(s, es[0], sc, Hit(es[1..], Backward(sc)));
      BackwardWorld(Step(s, es[0]), es[1..], sc);
    }
  }

  lemma StepBackward(s: State, e: Event, sc: Scenario, more: set<Ref>)
    requires Reversible(sc) && (e.Call? ==> e.op == Backward(sc))
    ensures var w := Step(s, e).world;
            var hit := if e.Call? && e.outcome == Done then {e.ref} else {};
            WithAffected(sc, w, Affected(sc, w) - more)
            == WithAffected(sc, s.world, Affected(sc, s.world) - (hit + more))
  {
    var was := Affected(sc, s.world);
    assert {} + more == more;
    if e.Call? {
      assert was - {e.ref} - more == was - ({e.ref} + more);
    }
  }

  // ---------- Which tasks a request sends ----------

  /** The round for this target, its task being number n, ends well: a crash ignores a failed task. */
  predicate Goes(env: Env, sc: Scenario, target: string, n: nat)
    requires Reversible(sc)
  {
    && Names(env, sc, target)
    && var outcome := env.oracle(n, Forward(sc), Named(env, sc, target));
       if sc.VmCrash? then outcome != Rejected else outcome == Done
  }

  /** How many targets the activation gets through: the first that fails ends it. */
  function Gone(env: Env, sc: Scenario, targets: seq<string>, n: nat): (m: nat)
    requires Reversible(sc)
    ensures m <= |targets|
  {
    if targets == [] || !Goes(env, sc, targets[0], n) then 0 else 1 + Gone(env, sc, targets[1..], n + 1)
  }

  lemma {:induction false} GoneAll(env: Env, sc: Scenario, targets: seq<string>, n: nat)
    requires Reversible(sc)
    ensures Gone(env, sc, targets, n) == |targets|
            <==> forall k :: 0 <= k < |targets| ==> Goes(env, sc, targets[k], n + k)
  {
    hide Goes;
    if targets != [] {
      GoneAll(env, sc, targets[1..], n + 1);
      if forall k :: 0 <= k < |targets| ==> Goes(env, sc, targets[k], n + k) {
        forall k | 0 <= k < |targets[1..]| ensures Goes(env, sc, targets[1..][k], n + 1 + k) {
          assert Goes(env, sc, targets[k + 1], n + (k + 1));
        }
      }
      if forall k :: 0 <= k < |targets[1..]| ==> Goes(env, sc, targets[1..][k], n + 1 + k) {
        forall k | 0 < k < |targets| ensures Goes(env, sc, targets[k], n + k) {
          assert Goes(env, sc, targets[1..][k - 1], n + 1 + (k - 1));
        }
      }
    }
  }

  /** With one task for each of the first m targets from number n on: those it completes on. */
  function CompletedOn(env: Env, sc: Scenario, op: Op, targets: seq<string>, m: nat, n: nat): set<Ref>
    requires Reversible(sc) && m <= |targets|
    decreases m
  {
    if m == 0 then {}
    else
      (if CompletedAt(env, sc, op, targets[0], n) then {Named(env, sc, targets[0])} else {})
      + CompletedOn(env, sc, op, targets[1..], m - 1, n + 1)
  }

  predicate CompletedAt(env: Env, sc: Scenario, op: Op, target: string, n: nat)
    requires Reversible(sc)
    ensures CompletedAt(env, sc, op, target, n) ==> Names(env, sc, target)
  {
    Names(env, sc, target) && env.oracle(n, op, Named(env, sc, target)) == Done
  }

  /** Registry events of the scenario on one target, before its task. */
  function Before(sc: Scenario, ref: Ref, x: Expiry): seq<Event> {
    if sc.VmCrash? then On(ref, [P("guestHeartbeatStatus", Text("gray"), x)]) else []
  }

  function Undo(sc: Scenario, ref: Ref): seq<Event> {
    if sc.HostMaintenance? then [] else ClearBoth(ref)
  }

  lemma OneTask(env: Env, es: seq<Event>, op: Op, ref: Ref, n: nat)
    requires forall e :: e in es ==> !e.Call?
    ensures var all := es + [Ask(env, n, op, ref)];
            && OnlyOp(all, op) && Calls(all) == 1
            && Hit(all, op) == if env.oracle(n, op, ref) == Done then {ref} else {}
  {
    var e := Ask(env, n, op, ref);
    assert [e][1..] == [] && e in [e];
    CallsConcat(es, [e]);
    Footprints.NoCalls(es);
    HitConcat(es, [e], op);
    HitNone(es, op);
  }

  lemma ForwardShape(env: Env, sc: Scenario, target: string, params: Params, x: Expiry, n: nat)
    requires Reversible(sc)
    ensures TargetPlan(env, sc, target, params, x, n)
            == if Names(env, sc, target) then
                 Plan(Before(sc, Named(env, sc, target), x) + [Ask(env, n, Forward(sc), Named(env, sc, target))],
                      EndIf(Goes(env, sc, target, n)))
               else Plan([], Errored)
  {
    hide On, TargetPlan;
    ReversiblePlan(env, sc, target, params, x, n);
    if Names(env, sc, target) {
      var e := Ask(env, n, Forward(sc), Named(env, sc, target));
      assert [] + [e] == [e];
    }
  }

  lemma ReversiblePlan(env: Env, sc: Scenario, target: string, params: Params, x: Expiry, n: nat)
    requires Reversible(sc)
    ensures TargetPlan(env, sc, target, params, x, n)
            == if sc.VmCrash? then VmTaskPlan(env, sc, target, params, x, n) else HostTaskPlan(env, sc, target, x, n)
  {
    hide TargetOnly, HostAndVms, VmTaskPlan, HostTaskPlan, Uniform;
    KindsApart(sc);
  }

  lemma BackwardShape(env: Env, sc: Scenario, target: string, n: nat)
    requires Reversible(sc) && Names(env, sc, target)
    ensures DeactivateTarget(env, Some(sc), target, n)
            == Undo(sc, Named(env, sc, target)) + [Ask(env, n, Backward(sc), Named(env, sc, target))]
  {
    var e := Ask(env, n, Backward(sc), Named(env, sc, target));
    assert [] + [e] == [e];
  }

  lemma TargetForward(env: Env, sc: Scenario, target: string, params: Params, x: Expiry, n: nat)
    requires Reversible(sc)
    ensures var p := TargetPlan(env, sc, target, params, x, n);
            && (p.Ok() <==> Goes(env, sc, target, n)) && OnlyOp(p.events, Forward(sc))
            && (p.Ok() ==> Calls(p.events) == 1)
            && Hit(p.events, Forward(sc))
               == if CompletedAt(env, sc, Forward(sc), target, n) then {Named(env, sc, target)} else {}
  {
    hide TargetPlan, Hit;
    ForwardShape(env, sc, target, params, x, n);
    HitNone([], Forward(sc));
    if Names(env, sc, target) {
      OneTask(env, Before(sc, Named(env, sc, target), x), Forward(sc), Named(env, sc, target), n);
    }
  }

  lemma {:induction false} AllForward(env: Env, sc: Scenario, targets: seq<string>, params: Params, x: Expiry, n: nat)
    requires Reversible(sc)
    ensures var p, m := ActivationPlan(env, sc, targets, params, x, n), Gone(env, sc, targets, n);
            && (p.Ok() <==> m == |targets|) && OnlyOp(p.events, Forward(sc))
            && (p.Ok() ==> Calls(p.events) == |targets|)
            && Hit(p.events, Forward(sc)) == CompletedOn(env, sc, Forward(sc), targets, m, n)
    decreases targets
  {
    hide ActivationPlan, TargetPlan, Goes, Hit, OnlyOp, CompletedAt, Uniform, Names;
    if targets == [] {
      ActivationOfNone(env, sc, params, x, n);
      NoneCompleted(env, sc, Forward(sc), targets, n);
    } else {
      ActivationCons(env, sc, targets, params, x, n);
      var p, rest := TargetPlan(env, sc, targets[0], params, x, n), targets[1..];
      TargetForward(env, sc, targets[0], params, x, n);
      GoesIfCompleted(env, sc, targets[0], n);
      if p.Ok() {
        AllForward(env, sc, rest, params, x, n + 1);
        ForwardConcat(p.events, ActivationPlan(env, sc, rest, params, x, n + 1).events, Forward(sc));
      }
    }
  }

  lemma ForwardConcat(a: seq<Event>, b: seq<Event>, op: Op)
    ensures OnlyOp(a + b, op) <==> OnlyOp(a, op) && OnlyOp(b, op)
    ensures Calls(a + b) == Calls(a) + Calls(b)
    ensures Hit(a + b, op) == Hit(a, op) + Hit(b, op)
  {
    OnlyOpConcat(a, b, op);
    CallsConcat(a, b);
    HitConcat(a, b, op);
  }

  lemma NoneCompleted(env: Env, sc: Scenario, op: Op, targets: seq<string>, n: nat)
    requires Reversible(sc)
    ensures CompletedOn(env, sc, op, targets, 0, n) == {}
    ensures OnlyOp([], op) && Hit([], op) == {}
  {
  }

  lemma GoesIfCompleted(env: Env, sc: Scenario, target: string, n: nat)
    requires Reversible(sc)
    ensures CompletedAt(env, sc, Forward(sc), target, n) ==> Goes(env, sc, target, n)
  {
  }

  lemma {:induction false} AllBackward(env: Env, sc: Scenario, targets: seq<string>, n: nat)
    requires Reversible(sc) && forall t :: t in targets ==> Names(env, sc, t)
    ensures var es := DeactivationEvents(env, Some(sc), targets, n);
            && OnlyOp(es, Backward(sc))
            && Hit(es, Backward(sc)) == CompletedOn(env, sc, Backward(sc), targets, |targets|, n)
    decreases targets
  {
    hide DeactivateTarget, Hit, OnlyOp, Names;
    NoneCompleted(env, sc, Backward(sc), targets, n);
    if targets != [] {
      var es, rest := DeactivateTarget(env, Some(sc), targets[0], n), targets[1..];
      BackwardShape(env, sc, targets[0], n);
      NoTaskInUndo(sc, Named(env, sc, targets[0]));
      OneTask(env, Undo(sc, Named(env, sc, targets[0])), Backward(sc), Named(env, sc, targets[0]), n);
      AllBackward(env, sc, rest, n + 1);
      var more := DeactivationEvents(env, Some(sc), rest, n + 1);
      OnlyOpConcat(es, more, Backward(sc));
      HitConcat(es, more, Backward(sc));
    }
  }

  lemma NoTaskInUndo(sc: Scenario, ref: Ref)
    ensures forall e :: e in Undo(sc, ref) ==> !e.Call?
  {
  }

  /** The ids of these three scenarios. */
  predicate ChangesState(id: string) {
    id == "net_mgmt_partition" || id == "host_maintenance" || id == "vm_crash"
  }

  function StateScenario(id: string): (sc: Scenario)
    requires ChangesState(id)
    ensures Reversible(sc)
  {
    if id == "net_mgmt_partition" then NetMgmtPartition
    else if id == "host_maintenance" then HostMaintenance
    else VmCrash
  }

  lemma StateIds(id: string)
    ensures ChangesState(id) <==> Dispatch(id).Some? && Reversible(Dispatch(id).value)
    ensures ChangesState(id) ==> Dispatch(id) == Some(StateScenario(id))
  {
  }

  /** Partition, maintenance and crash, for any answers: Activate succeeds exactly when the round of every
      target ends well, and puts exactly those targets it got through in the state whose task completed;
      Deactivate, with one task per target after those, takes out exactly those whose task completes. So
      host and VM state is as before exactly when every newly affected target comes back and none that
      was in the state before is taken out. */
  lemma StateOutcome(env: Env, b: Book, req: Request, now: int, end: int)
    requires ChangesState(req.id)
    ensures var sc, w, n, ts := StateScenario(req.id), b.state.world, b.state.calls, req.targets;
            var (b1, r) := Activated(env, b, req, now, end);
            var b2 := Deactivated(env, b1, req).0;
            var was := Affected(sc, w);
            var struck := CompletedOn(env, sc, Forward(sc), ts, Gone(env, sc, ts, n), n);
            var back := CompletedOn(env, sc, Backward(sc), ts, |ts|, n + |ts|);
            && (r == Ok <==> forall k :: 0 <= k < |ts| ==> Goes(env, sc, ts[k], n + k))
            && b1.state.world == WithAffected(sc, w, was + struck)
            && (r == Ok ==>
                  && b2.state.world == WithAffected(sc, w, was + struck - back)
                  && (b2.state.world == w <==> back !! was && struck - was <= back))
  {
    hide Goes, CompletedOn, Activated, Deactivated, WithAffected, Affected;
    StateIds(req.id);
    var sc, w, n, ts := StateScenario(req.id), b.state.world, b.state.calls, req.targets;
    var b1 := Activated(env, b, req, now, end).0;
    GoneAll(env, sc, ts, n);
    OutcomeForward(env, b, req, now, end);
    if Activated(env, b, req, now, end).1 == Ok {
      GoesNames(env, sc, ts, n);
      OutcomeBackward(env, b1, req);
      var was, struck := Affected(sc, w), CompletedOn(env, sc, Forward(sc), ts, |ts|, n);
      var back := CompletedOn(env, sc, Backward(sc), ts, |ts|, n + |ts|);
      AffectedLaws(sc, w, was);
      AffectedLaws(sc, w, was + struck);
      AffectedLaws(sc, w, was + struck - back);
      WithTwice(sc, w, was + struck, was + struck - back);
      BackToBefore(was, struck, back);
    }
  }

  lemma WithTwice(sc: Scenario, w: World, rs: set<Ref>, ss: set<Ref>)
    requires Reversible(sc)
    ensures WithAffected(sc, WithAffected(sc, w, rs), ss) == WithAffected(sc, w, ss)
  {
  }

  lemma OutcomeForward(env: Env, b: Book, req: Request, now: int, end: int)
    requires Dispatch(req.id).Some? && Reversible(Dispatch(req.id).value)
    ensures var sc, w, n, ts := Dispatch(req.id).value, b.state.world, b.state.calls, req.targets;
            var (b1, r) := Activated(env, b, req, now, end);
            && (r == Ok <==> Gone(env, sc, ts, n) == |ts|) && (r == Ok ==> b1.state.calls == n + |ts|)
            && (r == Ok ==> Key(req.id, ts) in b1.active)
            && b1.state.world
               == WithAffected(sc, w, Affected(sc, w) + CompletedOn(env, sc, Forward(sc), ts, Gone(env, sc, ts, n), n))
  {
    hide Goes, CompletedOn, ActivationPlan, WithAffected, Affected, Run, Hit, OnlyOp, Uniform;
    var sc, n, x := Dispatch(req.id).value, b.state.calls, ExpiryFor(req, now);
    var p := ActivationPlan(env, sc, req.targets, req.params, x, n);
    RegisteredDispatch(req.id);
    AllForward(env, sc, req.targets, req.params, x, n);
    ForwardWorld(b.state, p.events, sc);
    CallsCounted(b.state, p.events);
  }

  lemma OutcomeBackward(env: Env, b: Book, req: Request)
    requires Dispatch(req.id).Some? && Reversible(Dispatch(req.id).value) && Key(req.id, req.targets) in b.active
    requires forall t :: t in req.targets ==> Names(env, Dispatch(req.id).value, t)
    ensures var sc, w, ts := Dispatch(req.id).value, b.state.world, req.targets;
            Deactivated(env, b, req).0.state.world
            == WithAffected(sc, w, Affected(sc, w) - CompletedOn(env, sc, Backward(sc), ts, |ts|, b.state.calls))
  {
    hide CompletedOn, DeactivationEvents, WithAffected, Affected, Run, Hit, OnlyOp, Names;
    var sc, n := Dispatch(req.id).value, b.state.calls;
    AllBackward(env, sc, req.targets, n);
    BackwardWorld(b.state, DeactivationEvents(env, Some(sc), req.targets, n), sc);
  }

  lemma GoesNames(env: Env, sc: Scenario, targets: seq<string>, n: nat)
    requires Reversible(sc) && forall k :: 0 <= k < |targets| ==> Goes(env, sc, targets[k], n + k)
    ensures forall t :: t in targets ==> Names(env, sc, t)
  {
    forall t | t in targets ensures Names(env, sc, t) {
      var k :| 0 <= k < |targets| && targets[k] == t;
      assert Goes(env, sc, targets[k], n + k);
    }
  }

  lemma BackToBefore(was: set<Ref>, struck: set<Ref>, back: set<Ref>)
    ensures was + struck - back == was <==> back !! was && struck - was <= back
  {
    var end := was + struck - back;
    assert forall r :: r in end <==> (r in was || r in struck) && r !in back;
    if end == was {
      assert forall r :: r in was ==> r in end;
      assert forall r :: r in struck - was ==> r !in end;
    }
  }

  // ---------- When every task completes ----------

  lemma AllComplete(env: Env, sc: Scenario, targets: seq<string>, n: nat)
    requires CompletesAll(env) && Reversible(sc)
    ensures (forall k :: 0 <= k < |targets| ==> Goes(env, sc, targets[k], n + k))
            <==> forall t :: t in targets ==> Names(env, sc, t)
    ensures forall op, m: nat :: CompletedOn(env, sc, op, targets, |targets|, m) == NamedAll(env, sc, targets)
  {
    if forall k :: 0 <= k < |targets| ==> Goes(env, sc, targets[k], n + k) {
      GoesNames(env, sc, targets, n);
    }
    forall op, m: nat ensures CompletedOn(env, sc, op, targets, |targets|, m) == NamedAll(env, sc, targets) {
      CompletedIsNamed(env, sc, op, targets, m);
    }
  }

  lemma {:induction false} CompletedIsNamed(env: Env, sc: Scenario, op: Op, targets: seq<string>, n: nat)
    requires CompletesAll(env) && Reversible(sc)
    ensures CompletedOn(env, sc, op, targets, |targets|, n) == NamedAll(env, sc, targets)
    decreases targets
  {
    if targets != [] {
      CompletedIsNamed(env, sc, op, targets[1..], n + 1);
      assert targets == [targets[0]] + targets[1..];
    }
  }

  /** When every task completes, Activate of one of the three scenarios succeeds exactly when all
      targets are found, and Deactivate then changes no host or VM but the targets, which end out
      of the scenario's state; so everything is as before exactly when no target was in that state
      to begin with. */
  lemma StateRoundTrip(env: Env, b: Book, req: Request, now: int, end: int)
    requires CompletesAll(env) && Dispatch(req.id).Some? && Reversible(Dispatch(req.id).value)
    ensures var sc := Dispatch(req.id).value;
            var named := NamedAll(env, sc, req.targets);
            var (b1, r) := Activated(env, b, req, now, end);
            var b2 := Deactivated(env, b1, req).0;
            && (r == Ok <==> forall t :: t in req.targets ==> Names(env, sc, t))
            && (r == Ok ==>
                  && b1.state.world == WithAffected(sc, b.state.world, Affected(sc, b.state.world) + named)
                  && b2.state.world == WithAffected(sc, b.state.world, Affected(sc, b.state.world) - named)
                  && (b2.state.world == b.state.world <==> named !! Affected(sc, b.state.world)))
  {
    hide Goes, CompletedOn, Activated, Deactivated, NamedAll, Names, CompletesAll;
    var sc, n := Dispatch(req.id).value, b.state.calls;
    var named, was := NamedAll(env, sc, req.targets), Affected(sc, b.state.world);
    StateIds(req.id);
    StateOutcome(env, b, req, now, end);
    AllComplete(env, sc, req.targets, n);
    GoneAll(env, sc, req.targets, n);
    assert was + named - named == was - named;
    assert named - was <= named;
  }

  // ---------- Host PSOD ----------

  /** The hosts of the targets, as far as the finder finds them. */
  function Found(env: Env, targets: seq<string>): (hosts: seq<Host>)
    ensures |hosts| <= |targets|
    ensures |hosts| == |targets| <==> forall t :: t in targets ==> t in env.hosts
  {
    if targets == [] || targets[0] !in env.hosts then []
    else
      assert targets == [targets[0]] + targets[1..];
      [Host(env.hosts[targets[0]], targets[0])] + Found(env, targets[1..])
  }

  /** How many hosts a PSOD begins with: it stops after the first whose disconnection does not complete. */
  function Begun(env: Env, hosts: seq<Host>, n: nat): (m: nat)
    ensures m <= |hosts|
    decreases hosts
  {
    if hosts == [] then 0
    else if OutHost(env, hosts[0], n) == {} then 1
    else 1 + Begun(env, hosts[1..], n + |VmsOf(env, hosts[0].path)| + 1)
  }

  predicate AllOut(env: Env, hosts: seq<Host>, n: nat)
    decreases hosts
  {
    hosts == [] || (OutHost(env, hosts[0], n) != {} && AllOut(env, hosts[1..], n + |VmsOf(env, hosts[0].path)| + 1))
  }

  lemma {:induction false} AllOutIs(env: Env, hosts: seq<Host>, n: nat)
    ensures AllOut(env, hosts, n)
            <==> forall k :: 0 <= k < |hosts| ==> OutHost(env, hosts[k], RackTick(env, hosts, k, n)) != {}
    ensures AllOut(env, hosts, n) ==> Begun(env, hosts, n) == |hosts|
    decreases hosts
  {
    hide OutHost;
    if hosts != [] {
      var rest, later := hosts[1..], n + |VmsOf(env, hosts[0].path)| + 1;
      AllOutIs(env, rest, later);
      forall k | 0 < k < |hosts|
        ensures hosts[k] == rest[k - 1] && RackTick(env, hosts, k, n) == RackTick(env, rest, k - 1, later)
      {
      }
      if forall k :: 0 <= k < |hosts| ==> OutHost(env, hosts[k], RackTick(env, hosts, k, n)) != {} {
        forall k | 0 <= k < |rest| ensures OutHost(env, rest[k], RackTick(env, rest, k, later)) != {} {
          assert hosts[k + 1] == rest[k];
        }
      }
    }
  }

  lemma PsodShape(env: Env, target: string, params: Params, x: Expiry, n: nat)
    requires target in env.hosts
    ensures var host := Host(env.hosts[target], target);
            var out := OutHost(env, host, n) != {};
            TargetPlan(env, HostPsod, target, params, x, n)
            == Plan(HostFails(env, host, n) + PsodMarks(host, out, x), EndIf(out))
  {
    hide PowerOffs, On;
    PowerOffsAre(env, VmsOf(env, target), n);
    var fails := HostFails(env, Host(env.hosts[target], target), n);
    assert fails + [] == fails;
  }

  /** What a PSOD writes on a host that went down. */
  function PsodMarks(host: Host, out: bool, x: Expiry): seq<Event> {
    if out then On(host.ref, [NotResponding(x), M(2, [0], x), M(24, [0], x)]) else []
  }

  lemma PsodTarget(env: Env, target: string, params: Params, x: Expiry, n: nat)
    requires target in env.hosts
    ensures var host := Host(env.hosts[target], target);
            var p := TargetPlan(env, HostPsod, target, params, x, n);
            && OnlyDown(p.events) && Calls(p.events) == |VmsOf(env, target)| + 1
            && Hit(p.events, Disconnect) == OutHost(env, host, n) && Hit(p.events, PowerOff) == OffVms(env, host, n)
            && (p.Ok() <==> OutHost(env, host, n) != {})
  {
    hide Hit, OffVms, OutHost, HostFails, TargetPlan, OnlyDown;
    var host := Host(env.hosts[target], target);
    var fails, after := HostFails(env, host, n), PsodMarks(host, OutHost(env, host, n) != {}, x);
    PsodShape(env, target, params, x, n);
    HostFailsHits(env, host, n);
    assert forall e :: e in after ==> e.Set?;
    Footprints.NoCalls(after);
    CallsConcat(fails, after);
    DownConcat(fails, after);
    WritesDown(after);
    forall op ensures Hit(fails + after, op) == Hit(fails, op) {
      HitConcat(fails, after, op);
      HitNone(after, op);
    }
  }

  lemma WritesDown(es: seq<Event>)
    requires forall e :: e in es ==> e.Set?
    ensures OnlyDown(es)
  {
  }

  lemma {:induction false} PsodEnds(env: Env, targets: seq<string>, params: Params, x: Expiry, n: nat)
    ensures var p, hosts := ActivationPlan(env, HostPsod, targets, params, x, n), Found(env, targets);
            (p.Ok() <==> |hosts| == |targets| && AllOut(env, hosts, n)) && OnlyDown(p.events)
    decreases targets
  {
    hide ActivationPlan, TargetPlan, Hit, OutHost, OffVms, OnlyDown, Uniform, Calls, VmsOf;
    WritesDown([]);
    ActivationOfNone(env, HostPsod, params, x, n);
    if targets != [] {
      ActivationCons(env, HostPsod, targets, params, x, n);
      if targets[0] !in env.hosts {
        NoPsod(env, targets[0], params, x, n);
      } else {
        var p, rest := TargetPlan(env, HostPsod, targets[0], params, x, n), targets[1..];
        assert Found(env, targets)[1..] == Found(env, rest);
        PsodTarget(env, targets[0], params, x, n);
        PsodEnds(env, rest, params, x, n + Calls(p.events));
        DownConcat(p.events, ActivationPlan(env, HostPsod, rest, params, x, n + Calls(p.events)).events);
      }
    }
  }

  /** A PSOD takes down exactly what the hosts it begins with take down. */
  lemma {:induction false} PsodHits(env: Env, targets: seq<string>, params: Params, x: Expiry, n: nat, op: Op, r: Ref)
    requires op == Disconnect || op == PowerOff
    ensures var p, hosts := ActivationPlan(env, HostPsod, targets, params, x, n), Found(env, targets);
            r in Hit(p.events, op) <==> FelledBy(env, hosts, Begun(env, hosts, n), n, op, r)
    decreases targets
  {
    hide ActivationPlan, TargetPlan, Hit, OutHost, OffVms, FelledBy, OnlyDown, Uniform, Fells, Calls;
    NothingFelled(env, [], n, op, r);
    ActivationOfNone(env, HostPsod, params, x, n);
    if targets != [] {
      ActivationCons(env, HostPsod, targets, params, x, n);
      var p, rest := TargetPlan(env, HostPsod, targets[0], params, x, n), targets[1..];
      if targets[0] !in env.hosts {
        NoPsod(env, targets[0], params, x, n);
      } else {
        var hosts, later := Found(env, targets), n + |VmsOf(env, targets[0])| + 1;
        assert hosts[1..] == Found(env, rest);
        PsodTarget(env, targets[0], params, x, n);
        FelledCons(env, hosts, Begun(env, hosts, n), n, op, r);
        FirstFells(env, hosts, n, op, r);
        NothingFelled(env, hosts[1..], later, op, r);
        if p.Ok() {
          PsodHits(env, rest, params, x, later, op, r);
          HitConcat(p.events, ActivationPlan(env, HostPsod, rest, params, x, later).events, op);
        }
      }
    }
  }

  lemma NoPsod(env: Env, target: string, params: Params, x: Expiry, n: nat)
    requires target !in env.hosts
    ensures TargetPlan(env, HostPsod, target, params, x, n) == Plan([], Errored)
  {
  }

  lemma NothingFelled(env: Env, hosts: seq<Host>, n: nat, op: Op, r: Ref)
    ensures !FelledBy(env, hosts, 0, n, op, r) && r !in Hit([], op) && OnlyDown([])
  {
  }

  lemma FirstFells(env: Env, hosts: seq<Host>, n: nat, op: Op, r: Ref)
    requires hosts != [] && (op == Disconnect || op == PowerOff)
    ensures Fells(env, hosts, 0, n, op, r)
            <==> r in (if op == Disconnect then OutHost(env, hosts[0], n) else OffVms(env, hosts[0], n))
  {
    hide OutHost, OffVms;
  }

  lemma DownConcat(a: seq<Event>, b: seq<Event>)
    ensures OnlyDown(a + b) <==> OnlyDown(a) && OnlyDown(b)
  {
    assert forall e :: e in a + b <==> e in a || e in b;
  }

  function NamedHosts(env: Env, targets: seq<string>): set<Ref> {
    set t | t in targets && t in env.hosts :: env.hosts[t]
  }

  function VmsOn(env: Env, targets: seq<string>): set<Ref> {
    set t, v | t in targets && t in env.hosts && v in VmsOf(env, t) :: v
  }

  lemma PsodLikePartition(env: Env, target: string, n: nat)
    ensures DeactivateTarget(env, Some(HostPsod), target, n) == DeactivateTarget(env, Some(NetMgmtPartition), target, n)
  {
  }

  /** Deactivate treats a PSOD like a partition: it clears the hosts' overrides and reconnects them. */
  lemma {:induction false} PsodBackward(env: Env, targets: seq<string>, n: nat)
    ensures DeactivationEvents(env, Some(HostPsod), targets, n)
            == DeactivationEvents(env, Some(NetMgmtPartition), targets, n)
    decreases targets
  {
    hide DeactivateTarget, Calls;
    if targets != [] {
      var es := DeactivateTarget(env, Some(HostPsod), targets[0], n);
      PsodLikePartition(env, targets[0], n);
      PsodBackward(env, targets[1..], n + Calls(es));
    }
  }

  /** A PSOD for any answers: Activate succeeds exactly when every host is found and its disconnection
      completes; of the hosts it begins with, the last of which may fail, and of their VMs exactly those
      go down whose task completes. Deactivate reconnects exactly the hosts whose task completes, and
      every VM stays as Activate left it. */
  lemma PsodOutcome(env: Env, b: Book, req: Request, now: int, end: int, r: Ref)
    requires req.id == "host_psod"
    ensures var ts, n, w, hosts := req.targets, b.state.calls, b.state.world, Found(env, req.targets);
            var (b1, res) := Activated(env, b, req, now, end);
            var b2, w1 := Deactivated(env, b1, req).0, b1.state.world;
            var m := Begun(env, hosts, n);
            && (res == Ok <==> |hosts| == |ts|
                               && forall k :: 0 <= k < |hosts| ==>
                                    OutHost(env, hosts[k], RackTick(env, hosts, k, n)) != {})
            && (r in w1.disconnected <==> r in w.disconnected || FelledBy(env, hosts, m, n, Disconnect, r))
            && (r in w1.poweredOff <==> r in w.poweredOff || FelledBy(env, hosts, m, n, PowerOff, r))
            && w1.maintenance == w.maintenance && w1.snapshots == w.snapshots
            && (res == Ok ==>
                  b2.state.world == w1.(disconnected := w1.disconnected
                    - CompletedOn(env, NetMgmtPartition, Reconnect, ts, |ts|, b1.state.calls)))
  {
    hide OutHost, RackTick, FelledBy, CompletedOn;
    assert Dispatch(req.id) == Some(HostPsod);
    PsodForward(env, b, req, now, end, r);
    AllOutIs(env, Found(env, req.targets), b.state.calls);
    var (b1, res) := Activated(env, b, req, now, end);
    if res == Ok {
      PsodUndone(env, b1, req);
    }
  }

  lemma PsodForward(env: Env, b: Book, req: Request, now: int, end: int, r: Ref)
    requires req.id == "host_psod"
    ensures var n, w, hosts := b.state.calls, b.state.world, Found(env, req.targets);
            var (b1, res) := Activated(env, b, req, now, end);
            var m, w1 := Begun(env, hosts, n), b1.state.world;
            && (res == Ok <==> |hosts| == |req.targets| && AllOut(env, hosts, n))
            && (res == Ok ==> Key(req.id, req.targets) in b1.active)
            && (r in w1.disconnected <==> r in w.disconnected || FelledBy(env, hosts, m, n, Disconnect, r))
            && (r in w1.poweredOff <==> r in w.poweredOff || FelledBy(env, hosts, m, n, PowerOff, r))
            && w1.maintenance == w.maintenance && w1.snapshots == w.snapshots
  {
    hide ActivationPlan, Run, Hit, FelledBy, OnlyDown, Found, Begun, AllOut, Uniform;
    assert Dispatch(req.id) == Some(HostPsod);
    PsodEnds(env, req.targets, req.params, ExpiryFor(req, now), b.state.calls);
    RegisteredDispatch(req.id);
    var x := ExpiryFor(req, now);
    PsodHits(env, req.targets, req.params, x, b.state.calls, Disconnect, r);
    PsodHits(env, req.targets, req.params, x, b.state.calls, PowerOff, r);
    DownWorld(b.state, ActivationPlan(env, HostPsod, req.targets, req.params, x, b.state.calls).events);
  }

  lemma PsodUndone(env: Env, b: Book, req: Request)
    requires req.id == "host_psod" && Key(req.id, req.targets) in b.active
    requires forall t :: t in req.targets ==> t in env.hosts
    ensures var w, ts := b.state.world, req.targets;
            Deactivated(env, b, req).0.state.world
            == w.(disconnected :=
                    w.disconnected - CompletedOn(env, NetMgmtPartition, Reconnect, ts, |ts|, b.state.calls))
  {
    hide DeactivationEvents, Run, Hit, OnlyOp, CompletedOn;
    assert Dispatch(req.id) == Some(HostPsod);
    var es := DeactivationEvents(env, Some(NetMgmtPartition), req.targets, b.state.calls);
    PsodBackward(env, req.targets, b.state.calls);
    AllBackward(env, NetMgmtPartition, req.targets, b.state.calls);
    BackwardWorld(b.state, es, NetMgmtPartition);
  }

  /** A PSOD when every task completes: Activate succeeds exactly when all hosts are found, and
      disconnects them and powers off their VMs; Deactivate reconnects the hosts and leaves the VMs
      off, so host and VM state is as before exactly when none of these hosts was disconnected and all
      of these VMs were off already. */
  lemma PsodRequest(env: Env, b: Book, req: Request, now: int, end: int)
    requires CompletesAll(env)
    requires req.id == "host_psod"
    ensures var hosts, vms, w := NamedHosts(env, req.targets), VmsOn(env, req.targets), b.state.world;
            var (b1, r) := Activated(env, b, req, now, end);
            var b2 := Deactivated(env, b1, req).0;
            && (r == Ok <==> forall t :: t in req.targets ==> t in env.hosts)
            && (r == Ok ==>
                  && b1.state.world == Down(w, hosts, vms)
                  && b2.state.world == w.(disconnected := w.disconnected - hosts, poweredOff := w.poweredOff + vms)
                  && (b2.state.world == w <==> hosts !! w.disconnected && vms <= w.poweredOff))
  {
    hide Activated, Deactivated, CompletedOn, FelledBy, Found, Begun, AllOut, NamedHosts, VmsOn, OutHost, RackTick,
         CompletesAll;
    assert Dispatch(req.id) == Some(HostPsod);
    var ts, n, w, hosts := req.targets, b.state.calls, b.state.world, Found(env, req.targets);
    var named, vms := NamedHosts(env, ts), VmsOn(env, ts);
    var (b1, r) := Activated(env, b, req, now, end);
    var w1 := b1.state.world;
    EveryHostOut(env, hosts, n);
    PsodOutcome(env, b, req, now, end, Ref("", "", ""));
    if r == Ok {
      forall q
        ensures q in w1.disconnected <==> q in w.disconnected || q in named
        ensures q in w1.poweredOff <==> q in w.poweredOff || q in vms
      {
        PsodOutcome(env, b, req, now, end, q);
        FelledWhenComplete(env, ts, n, q);
      }
      assert w1.disconnected == w.disconnected + named && w1.poweredOff == w.poweredOff + vms;
      AllComplete(env, NetMgmtPartition, ts, 0);
      NamedHostsAre(env, ts);
      assert w.disconnected + named - named == w.disconnected - named;
      assert w.disconnected - named == w.disconnected <==> named !! w.disconnected;
      assert w.poweredOff + vms == w.poweredOff <==> vms <= w.poweredOff;
    }
  }

  lemma NamedHostsAre(env: Env, targets: seq<string>)
    ensures NamedAll(env, NetMgmtPartition, targets) == NamedHosts(env, targets)
  {
  }

  lemma EveryHostOut(env: Env, hosts: seq<Host>, n: nat)
    requires CompletesAll(env)
    ensures Begun(env, hosts, n) == |hosts|
    ensures forall k :: 0 <= k < |hosts| ==> OutHost(env, hosts[k], RackTick(env, hosts, k, n)) != {}
  {
    hide RackTick;
    AllOutIs(env, hosts, n);
  }

  lemma {:induction false} FoundAre(env: Env, targets: seq<string>)
    requires forall t :: t in targets ==> t in env.hosts
    ensures var hosts := Found(env, targets);
            |hosts| == |targets| && forall k :: 0 <= k < |hosts| ==> hosts[k] == Host(env.hosts[targets[k]], targets[k])
  {
    if targets != [] {
      FoundAre(env, targets[1..]);
    }
  }

  lemma FelledWhenComplete(env: Env, targets: seq<string>, n: nat, r: Ref)
    requires CompletesAll(env) && forall t :: t in targets ==> t in env.hosts
    ensures var hosts := Found(env, targets);
            && (FelledBy(env, hosts, |hosts|, n, Disconnect, r) <==> r in NamedHosts(env, targets))
            && (FelledBy(env, hosts, |hosts|, n, PowerOff, r) <==> r in VmsOn(env, targets))
  {
    hide RackTick, Found, OutHost, OffVms, CompletesAll;
    var hosts := Found(env, targets);
    FoundAre(env, targets);
    forall k: nat | k < |hosts|
      ensures Fells(env, hosts, k, n, Disconnect, r) <==> r == hosts[k].ref
      ensures Fells(env, hosts, k, n, PowerOff, r) <==> r in VmsOf(env, hosts[k].path)
    {
      CompleteFailure(env, hosts[k], RackTick(env, hosts, k, n));
    }
    if r in NamedHosts(env, targets) {
      var t :| t in targets && t in env.hosts && env.hosts[t] == r;
      var k :| 0 <= k < |targets| && targets[k] == t;
      assert Fells(env, hosts, k, n, Disconnect, r);
    }
    if r in VmsOn(env, targets) {
      var t :| t in targets && t in env.hosts && r in VmsOf(env, t);
      var k :| 0 <= k < |targets| && targets[k] == t;
      assert Fells(env, hosts, k, n, PowerOff, r);
    }
  }

  lemma CompleteFailure(env: Env, host: Host, n: nat)
    requires CompletesAll(env)
    ensures OutHost(env, host, n) == {host.ref}
    ensures forall r :: r in OffVms(env, host, n) <==> r in VmsOf(env, host.path)
  {
    var vms := VmsOf(env, host.path);
    forall r | r in vms ensures r in OffVms(env, host, n) {
      var j :| 0 <= j < |vms| && vms[j] == r;
      assert env.oracle(n + j, PowerOff, vms[j]) == Done;
    }
  }
}
