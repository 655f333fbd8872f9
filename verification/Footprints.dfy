/** What operations leave behind: expiry undoes an activation, deactivation clears its targets and
    nothing else, and operations on disjoint targets commute. */
module Footprints {
  import opened Wrappers
  import opened Overrides
  import opened Engine
  import opened Plans
  import opened ActiveKeys
  import opened Lifecycle
  import Samples

  // ---------- Expiry ----------

  lemma UniformLast(es: seq<Event>, x: Expiry, slot: Slot)
    requires Uniform(es, x)
    ensures Last(es, slot).Keep? || (Last(es, slot).Wrote? && ExpiryOf(Last(es, slot).o) == x)
  {
    LastMeans(es, slot);
    if Last(es, slot) != Keep {
      var i :| 0 <= i < |es| && Touch(es[i], slot) == Last(es, slot);
      assert es[i] in es;
    }
  }

  lemma EventsExpire(es: seq<Event>, x: Expiry, s: State, slot: Slot, t: int)
    requires Uniform(es, x)
    ensures var written := Last(es, slot);
            if written == Keep then Seen(Run(s, es), slot, t) == Seen(s, slot, t)
            else if Expired(x, t) then Seen(Run(s, es), slot, t) == None
            else written.Wrote? && Seen(Run(s, es), slot, t) == Some(written.o)
  {
    hide Run, Last, Lookup, Uniform;
    UniformLast(es, x, slot);
    RunLookup(s, es, slot);
  }

  /** The events of one activation, read at time t with no write in between. */
  lemma PlanExpires(
    env: Env, sc: Scenario, targets: seq<string>, params: Params, x: Expiry, s: State, slot: Slot, t: int)
    ensures var es := ActivationPlan(env, sc, targets, params, x, s.calls).events;
            var written := Last(es, slot);
            if written == Keep then Seen(Run(s, es), slot, t) == Seen(s, slot, t)
            else if Expired(x, t) then Seen(Run(s, es), slot, t) == None
            else written.Wrote? && Seen(Run(s, es), slot, t) == Some(written.o)
  {
    hide ActivationPlan, Run, Last, Uniform;
    EventsExpire(ActivationPlan(env, sc, targets, params, x, s.calls).events, x, s, slot, t);
  }

  /** All overrides of one activation, failed or not, share its expiry. Read at any later time `t`
      with no write in between, the registry shows every slot the activation wrote until the expiry
      passes, and from then on what it would show without the activation, less those slots. With
      no positive duration they stay. */
  lemma ActivationExpires(env: Env, b: Book, req: Request, now: int, end: int, slot: Slot, t: int)
    ensures var s' := Activated(env, b, req, now, end).0.state;
            var written := Last(RequestPlan(env, req, now, b.state.calls).events, slot);
            if req.id !in REGISTERED || written == Keep then Seen(s', slot, t) == Seen(b.state, slot, t)
            else if req.duration > 0 && t > now + req.duration * 1_000_000_000 then Seen(s', slot, t) == None
            else written.Wrote? && Seen(s', slot, t) == Some(written.o)
  {
    hide ActivationPlan;
    RegisteredDispatch(req.id);
    if req.id in REGISTERED {
      PlanExpires(env, Dispatch(req.id).value, req.targets, req.params, ExpiryFor(req, now), b.state, slot, t);
    }
  }

  // ---------- Deactivation ----------

  /** The reference whose overrides deactivation clears for one target, if any. */
  function Resolved(env: Env, sc: Option<Scenario>, target: string): Option<Ref> {
    if sc == Some(HostMaintenance) then None
    else if sc == Some(HostPsod) || sc == Some(NetMgmtPartition) then
      if target in env.hosts then Some(env.hosts[target]) else None
    else if sc == Some(VmCrash) then
      if target in env.vms then Some(env.vms[target]) else None
    else
      if target in env.objects then Some(env.objects[target]) else None
  }

  function ClearedKeys(env: Env, sc: Option<Scenario>, targets: seq<string>): set<string> {
    set t | t in targets && Resolved(env, sc, t).Some? :: MorKey(Resolved(env, sc, t).value)
  }

  lemma ClearedKeysSplit(env: Env, sc: Option<Scenario>, targets: seq<string>)
    requires targets != []
    ensures ClearedKeys(env, sc, targets) == ClearedKeys(env, sc, [targets[0]]) + ClearedKeys(env, sc, targets[1..])
  {
    assert targets == [targets[0]] + targets[1..];
  }

  lemma LastOfClear(ref: Ref, slot: Slot)
    ensures Last(ClearBoth(ref), slot) == if slot.key == MorKey(ref) then Cleared else Keep
  {
    var es := ClearBoth(ref);
    assert es[1..] == [ClearProperties(ref)];
    assert [ClearProperties(ref)][1..] == [];
    assert Last([ClearProperties(ref)], slot) == Touch(ClearProperties(ref), slot);
  }

  lemma LastOfAsk(env: Env, n: nat, op: Op, ref: Ref, slot: Slot)
    ensures Last([Ask(env, n, op, ref)], slot) == Keep
  {
    assert [Ask(env, n, op, ref)][1..] == [];
  }

  lemma DeactivateTargetEffect(env: Env, sc: Option<Scenario>, target: string, n: nat, slot: Slot)
    ensures Last(DeactivateTarget(env, sc, target, n), slot)
            == if slot.key in ClearedKeys(env, sc, [target]) then Cleared else Keep
  {
    var r := Resolved(env, sc, target);
    assert target in [target];
    if r.Some? {
      LastOfClear(r.value, slot);
      LastConcat(ClearBoth(r.value), [Ask(env, n, Reconnect, r.value)], slot);
      LastConcat(ClearBoth(r.value), [Ask(env, n, PowerOn, r.value)], slot);
      LastOfAsk(env, n, Reconnect, r.value, slot);
      LastOfAsk(env, n, PowerOn, r.value, slot);
    } else if target in env.hosts {
      LastOfAsk(env, n, ExitMaintenance, env.hosts[target], slot);
    }
  }

  /** Deactivation drops every override on each target it resolves, whichever scenario wrote it,
      and none anywhere else; leaving maintenance mode drops none at all. */
  lemma {:induction false} DeactivationEffect(env: Env, sc: Option<Scenario>, targets: seq<string>, n: nat, slot: Slot)
    ensures Last(DeactivationEvents(env, sc, targets, n), slot)
            == if slot.key in ClearedKeys(env, sc, targets) then Cleared else Keep
    decreases targets
  {
    hide DeactivateTarget, Resolved;
    if targets != [] {
      var es := DeactivateTarget(env, sc, targets[0], n);
      ClearedKeysSplit(env, sc, targets);
      DeactivateTargetEffect(env, sc, targets[0], n, slot);
      DeactivationEffect(env, sc, targets[1..], n + Calls(es), slot);
      LastConcat(es, DeactivationEvents(env, sc, targets[1..], n + Calls(es)), slot);
    }
  }

  /** Activate followed by Deactivate, for every scenario: a slot on a cleared target ends empty,
      and any other slot keeps what the activation left in it. */
  lemma ActivateThenDeactivate(env: Env, b: Book, req: Request, now: int, end: int, slot: Slot)
    requires Activated(env, b, req, now, end).1 == Ok
    ensures var b1 := Activated(env, b, req, now, end).0;
            var (b2, r) := Deactivated(env, b1, req);
            && r == Ok
            && Lookup(b2.state, slot)
               == (if slot.key in ClearedKeys(env, Dispatch(req.id), req.targets) then None else Lookup(b1.state, slot))
            && b2.active == b.active - {Key(req.id, req.targets)}
  {
    var b1 := Activated(env, b, req, now, end).0;
    DeactivationEffect(env, Dispatch(req.id), req.targets, b1.state.calls, slot);
    RunLookup(b1.state, DeactivationEvents(env, Dispatch(req.id), req.targets, b1.state.calls), slot);
  }

  // ---------- Target-only scenarios ----------

  predicate IsTargetOnly(req: Request) {
    Dispatch(req.id).Some? && TargetOnly(Dispatch(req.id).value)
  }

  /** Keys of the resolved targets of a target-only request. */
  function TargetKeys(env: Env, targets: seq<string>): set<string> {
    set t | t in targets && t in env.objects :: MorKey(env.objects[t])
  }

  lemma OnKeys(ref: Ref, ws: seq<Override>)
    ensures Local(On(ref, ws)) && KeysOf(On(ref, ws)) <= {MorKey(ref)} && Calls(On(ref, ws)) == 0
  {
    NoCalls(On(ref, ws));
  }

  lemma {:induction false} NoCalls(es: seq<Event>)
    requires forall e :: e in es ==> !e.Call?
    ensures Calls(es) == 0
  {
    if es != [] {
      NoCalls(es[1..]);
    }
  }

  lemma NoEvents()
    ensures Local([]) && KeysOf([]) == {} && Calls([]) == 0
  {
  }

  lemma KeysConcat(a: seq<Event>, b: seq<Event>)
    requires Local(a) && Local(b)
    ensures Local(a + b) && KeysOf(a + b) == KeysOf(a) + KeysOf(b)
  {
    assert forall e :: e in a + b <==> e in a || e in b;
  }

  lemma TargetKeysSplit(env: Env, targets: seq<string>)
    requires targets != []
    ensures TargetKeys(env, targets) == TargetKeys(env, [targets[0]]) + TargetKeys(env, targets[1..])
  {
    assert targets == [targets[0]] + targets[1..];
  }

  lemma TargetOnlyOne(env: Env, sc: Scenario, target: string, params: Params, x: Expiry, n: nat)
    requires TargetOnly(sc)
    ensures var p := TargetPlan(env, sc, target, params, x, n);
            && Local(p.events) && KeysOf(p.events) <= TargetKeys(env, [target]) && Calls(p.events) == 0
            && p == TargetPlan(env, sc, target, params, x, 0)
            && (p.Ok() <==> target in env.objects)
  {
    hide TargetWrites;
    assert target in [target];
    if target in env.objects {
      OnKeys(env.objects[target], TargetWrites(sc, params, x));
    }
  }

  /** A target-only plan writes on resolved targets only, sends no task, and does not depend on
      how many tasks came before. */
  lemma {:induction false} TargetOnlyPlan(
    env: Env, sc: Scenario, targets: seq<string>, params: Params, x: Expiry, n: nat)
    requires TargetOnly(sc)
    ensures var p := ActivationPlan(env, sc, targets, params, x, n);
            && Local(p.events) && KeysOf(p.events) <= TargetKeys(env, targets) && Calls(p.events) == 0
            && p == ActivationPlan(env, sc, targets, params, x, 0)
    decreases targets
  {
    hide TargetPlan, TargetKeys, KeysOf, Local, Uniform, TargetOnly, Calls;
    TargetOnlyNoTick(env, sc, targets, params, x, n);
    NoEvents();
    if targets != [] {
      TargetOnlyOne(env, sc, targets[0], params, x, n);
      TargetKeysSplit(env, targets);
      var rest := targets[1..];
      var p := TargetPlan(env, sc, targets[0], params, x, n);
      if p.Ok() {
        TargetOnlyPlan(env, sc, rest, params, x, n);
        var q := ActivationPlan(env, sc, rest, params, x, n);
        KeysConcat(p.events, q.events);
        CallsConcat(p.events, q.events);
      }
    }
  }

  lemma {:induction false} TargetOnlyNoTick(
    env: Env, sc: Scenario, targets: seq<string>, params: Params, x: Expiry, n: nat)
    requires TargetOnly(sc)
    ensures ActivationPlan(env, sc, targets, params, x, n) == ActivationPlan(env, sc, targets, params, x, 0)
    decreases targets
  {
    hide TargetPlan, TargetKeys, KeysOf, Local, Uniform, TargetOnly, Calls;
    if targets != [] {
      TargetOnlyOne(env, sc, targets[0], params, x, n);
      TargetOnlyOne(env, sc, targets[0], params, x, 0);
      TargetOnlyNoTick(env, sc, targets[1..], params, x, n);
      TargetOnlyNoTick(env, sc, targets[1..], params, x, 0);
    }
  }

  lemma {:induction false} TargetOnlyOk(env: Env, sc: Scenario, targets: seq<string>, params: Params, x: Expiry, n: nat)
    requires TargetOnly(sc)
    ensures ActivationPlan(env, sc, targets, params, x, n).Ok() <==> forall t :: t in targets ==> t in env.objects
    decreases targets
  {
    hide TargetPlan, TargetKeys, KeysOf, Local, Uniform, TargetOnly, Calls;
    if targets != [] {
      TargetOnlyOne(env, sc, targets[0], params, x, n);
      TargetOnlyOk(env, sc, targets[1..], params, x, n + Calls(TargetPlan(env, sc, targets[0], params, x, n).events));
      assert targets == [targets[0]] + targets[1..];
    }
  }

  lemma {:induction false} LocalKeepsWorld(s: State, es: seq<Event>)
    requires Local(es)
    ensures Run(s, es).world == s.world && Run(s, es).calls == s.calls
    decreases es
  {
    if es != [] {
      assert es[0] in es;
      LocalKeepsWorld(Step(s, es[0]), es[1..]);
    }
  }

  lemma TargetOnlyClearsOne(env: Env, sc: Scenario, target: string, n: nat)
    requires TargetOnly(sc)
    ensures var es := DeactivateTarget(env, Some(sc), target, n);
            && Local(es) && KeysOf(es) <= TargetKeys(env, [target]) && Calls(es) == 0
            && es == DeactivateTarget(env, Some(sc), target, 0)
  {
    assert target in [target];
    NoCalls(DeactivateTarget(env, Some(sc), target, n));
  }

  lemma {:induction false} TargetOnlyClears(env: Env, sc: Scenario, targets: seq<string>, n: nat)
    requires TargetOnly(sc)
    ensures var es := DeactivationEvents(env, Some(sc), targets, n);
            && Local(es) && KeysOf(es) <= TargetKeys(env, targets) && Calls(es) == 0
            && es == DeactivationEvents(env, Some(sc), targets, 0)
    decreases targets
  {
    hide DeactivateTarget;
    if targets != [] {
      TargetOnlyClearsOne(env, sc, targets[0], n);
      TargetKeysSplit(env, targets);
      var es, rest := DeactivateTarget(env, Some(sc), targets[0], n), targets[1..];
      TargetOnlyClears(env, sc, rest, n);
      var more := DeactivationEvents(env, Some(sc), rest, n);
      KeysConcat(es, more);
      CallsConcat(es, more);
    }
  }

  lemma TargetOnlyCleared(env: Env, sc: Scenario, targets: seq<string>)
    requires TargetOnly(sc)
    ensures ClearedKeys(env, Some(sc), targets) == TargetKeys(env, targets)
  {
  }

  /** Nothing on these entities is visible at `t`. */
  ghost predicate NothingSeenOn(s: State, keys: set<string>, t: int) {
    forall slot: Slot :: slot.key in keys ==> Seen(s, slot, t) == None
  }

  /** From `t` on, every reader gets the same answers from both. */
  ghost predicate SameSeenFrom(s: State, s': State, t: int) {
    forall slot: Slot, u: int :: t <= u ==> Seen(s', slot, u) == Seen(s, slot, u)
  }

  /** Round trip: after a successful Activate of a target-only scenario, Deactivate with the same
      id and targets succeeds, and brings back every metric and property reading from `now` on
      exactly when no override was visible on the resolved targets at `now`. No task is sent, and
      the active map comes back if the key was not active. */
  lemma RoundTrip(env: Env, b: Book, req: Request, now: int, end: int)
    requires IsTargetOnly(req) && Activated(env, b, req, now, end).1 == Ok
    ensures var (b2, r) := Deactivated(env, Activated(env, b, req, now, end).0, req);
            && r == Ok
            && (SameSeenFrom(b.state, b2.state, now) <==> NothingSeenOn(b.state, TargetKeys(env, req.targets), now))
            && b2.state.world == b.state.world && b2.state.calls == b.state.calls
            && (Key(req.id, req.targets) !in b.active ==> b2.active == b.active)
  {
    hide TargetKeys, KeysOf, Calls, Uniform, TargetOnly;
    var sc, x := Dispatch(req.id).value, ExpiryFor(req, now);
    var b1 := Activated(env, b, req, now, end).0;
    var b2 := Deactivated(env, b1, req).0;
    var es := ActivationPlan(env, sc, req.targets, req.params, x, b.state.calls).events;
    var keys := TargetKeys(env, req.targets);
    TargetOnlyPlan(env, sc, req.targets, req.params, x, b.state.calls);
    TargetOnlyClears(env, sc, req.targets, b1.state.calls);
    LocalKeepsWorld(b.state, es);
    LocalKeepsWorld(b1.state, DeactivationEvents(env, Some(sc), req.targets, b1.state.calls));
    forall slot: Slot
      ensures Lookup(b2.state, slot) == if slot.key in keys then None else Lookup(b.state, slot)
    {
      RoundTripSlot(env, sc, req.targets, req.params, x, b.state, b1.state.calls, slot);
    }
    ClearedVersusBefore(b.state, b2.state, keys, now);
  }

  /** Slot by slot: the resolved targets end empty, and everything else is as before. */
  lemma RoundTripSlot(
    env: Env, sc: Scenario, targets: seq<string>, params: Params, x: Expiry, s: State, n: nat, slot: Slot)
    requires TargetOnly(sc)
    ensures var s1 := Run(s, ActivationPlan(env, sc, targets, params, x, s.calls).events);
            Lookup(Run(s1, DeactivationEvents(env, Some(sc), targets, n)), slot)
            == if slot.key in TargetKeys(env, targets) then None else Lookup(s, slot)
  {
    hide ActivationPlan, DeactivationEvents, TargetOnly, KeysOf;
    var es := ActivationPlan(env, sc, targets, params, x, s.calls).events;
    DeactivationEffect(env, Some(sc), targets, n, slot);
    RunLookup(Run(s, es), DeactivationEvents(env, Some(sc), targets, n), slot);
    TargetOnlyCleared(env, sc, targets);
    if slot.key !in TargetKeys(env, targets) {
      TargetOnlyPlan(env, sc, targets, params, x, s.calls);
      OutsideKeys(es, slot);
      RunLookup(s, es, slot);
    }
  }

  lemma ClearedVersusBefore(s: State, s': State, keys: set<string>, now: int)
    requires forall slot: Slot :: Lookup(s', slot) == if slot.key in keys then None else Lookup(s, slot)
    ensures SameSeenFrom(s, s', now) <==> NothingSeenOn(s, keys, now)
  {
    if SameSeenFrom(s, s', now) {
      forall slot: Slot | slot.key in keys ensures Seen(s, slot, now) == None {
        assert Seen(s', slot, now) == Seen(s, slot, now);
      }
    }
    if NothingSeenOn(s, keys, now) {
      forall slot: Slot, u: int | now <= u ensures Seen(s', slot, u) == Seen(s, slot, u) {
        if slot.key in keys {
          assert Seen(s, slot, now) == None;
        }
      }
    }
  }

  // ---------- What a target-only scenario shows ----------

  /** The overrides go to different slots. */
  ghost predicate OnceEach(ws: seq<Override>) {
    forall i, j :: 0 <= i < j < |ws| ==> SlotAt("", ws[i]) != SlotAt("", ws[j])
  }

  lemma OneWritesOnce(sc: Scenario, params: Params, x: Expiry)
    requires TargetOnly(sc)
    ensures OnceEach(TargetWrites(sc, params, x))
  {
    hide OnceEach, TargetWrites;
    if sc.CpuVmCostop? || sc.CpuRpLimit? || sc.MemVmLeak? || sc.MemTpsFailure? || sc.MemNumaImbalance? {
      PressureWritesOnce(sc, params, x);
    } else if sc.DiskDsFull? || sc.DiskLatencySpike? || sc.DiskIoSaturation? || sc.DiskApd? || sc.DiskDsInaccessible? {
      DiskWritesOnce(sc, params, x);
    } else {
      OtherWritesOnce(sc, params, x);
    }
  }

  lemma PressureWritesOnce(sc: Scenario, params: Params, x: Expiry)
    requires sc.CpuVmCostop? || sc.CpuRpLimit? || sc.MemVmLeak? || sc.MemTpsFailure? || sc.MemNumaImbalance?
    ensures OnceEach(TargetWrites(sc, params, x))
  {
    hide Samples.HighValues, Samples.IncrementingValues, Samples.Quot;
  }

  lemma DiskWritesOnce(sc: Scenario, params: Params, x: Expiry)
    requires sc.DiskDsFull? || sc.DiskLatencySpike? || sc.DiskIoSaturation? || sc.DiskApd? || sc.DiskDsInaccessible?
    ensures OnceEach(TargetWrites(sc, params, x))
  {
    hide Samples.HighValues, Samples.IncrementingValues, Samples.Quot;
  }

  lemma OtherWritesOnce(sc: Scenario, params: Params, x: Expiry)
    requires sc.NetVmIsolation? || sc.NetUplinkFailover? || sc.HostVmotionFail? || sc.HostTimeDrift?
             || sc.VmToolsDown? || sc.VmInvalidState? || sc.CascadeSanFailure?
    ensures OnceEach(TargetWrites(sc, params, x))
  {
    hide Samples.HighValues, Samples.IncrementingValues, Samples.Quot;
  }

  /** Exactly this override, or nothing, lands in the slot of the given entity. */
  ghost predicate Lands(ws: seq<Override>, slot: Slot, e: Effect) {
    && (forall o :: o in ws && SlotAt(slot.key, o) == slot ==> e == Wrote(o))
    && ((forall o :: o in ws ==> SlotAt(slot.key, o) != slot) ==> e == Keep)
  }

  lemma {:induction false} OnLands(ref: Ref, ws: seq<Override>, slot: Slot)
    requires OnceEach(ws) && slot.key == MorKey(ref)
    ensures Lands(ws, slot, Last(On(ref, ws), slot))
  {
    if ws != [] {
      var rest := ws[1..];
      assert ws == [ws[0]] + rest && On(ref, ws) == [Set(ref, ws[0])] + On(ref, rest);
      assert OnceEach(rest) by {
        assert forall i :: 0 <= i < |rest| ==> rest[i] == ws[i + 1];
      }
      OnLands(ref, rest, slot);
      OneMoreLands(ws[0], rest, slot, Last(On(ref, rest), slot));
      LastOfSet(ref, ws[0], On(ref, rest), slot);
    }
  }

  lemma LastOfSet(ref: Ref, o: Override, es: seq<Event>, slot: Slot)
    ensures Last([Set(ref, o)] + es, slot) == Over(Touch(Set(ref, o), slot), Last(es, slot))
  {
    assert ([Set(ref, o)] + es)[1..] == es;
  }

  lemma OneMoreLands(o: Override, rest: seq<Override>, slot: Slot, e: Effect)
    requires OnceEach([o] + rest) && Lands(rest, slot, e)
    ensures Lands([o] + rest, slot, Over(if SlotAt(slot.key, o) == slot then Wrote(o) else Keep, e))
  {
    var ws := [o] + rest;
    if SlotAt(slot.key, o) == slot {
      forall w | w in rest ensures SlotAt(slot.key, w) != slot {
        var i :| 0 <= i < |rest| && rest[i] == w;
        assert ws[0] == o && ws[i + 1] == w;
        assert SlotAt("", ws[0]) != SlotAt("", ws[i + 1]);
      }
    }
  }

  /** From s to s' the entity takes exactly these overrides, one to a slot, and keeps its others. */
  ghost predicate TakesWrites(s: State, s': State, ref: Ref, ws: seq<Override>) {
    && OnceEach(ws)
    && (forall o :: o in ws ==> Lookup(s', SlotOf(ref, o)) == Some(o))
    && (forall slot: Slot :: slot.key == MorKey(ref) && (forall o :: o in ws ==> SlotAt(slot.key, o) != slot) ==>
          Lookup(s', slot) == Lookup(s, slot))
  }

  /** The events act on the entity as its own writes alone would. */
  ghost predicate OwnWrites(es: seq<Event>, ref: Ref, ws: seq<Override>) {
    forall slot: Slot :: slot.key == MorKey(ref) ==> Last(es, slot) == Last(On(ref, ws), slot)
  }

  lemma OwnWritesTaken(s: State, es: seq<Event>, ref: Ref, ws: seq<Override>)
    requires OnceEach(ws) && OwnWrites(es, ref, ws)
    ensures TakesWrites(s, Run(s, es), ref, ws)
  {
    hide Run, Last, Lookup, OnceEach;
    forall slot: Slot | slot.key == MorKey(ref)
      ensures Lands(ws, slot, Last(es, slot)) && Lookup(Run(s, es), slot) == After(Lookup(s, slot), Last(es, slot))
    {
      OnLands(ref, ws, slot);
      RunLookup(s, es, slot);
    }
    forall o | o in ws ensures Lookup(Run(s, es), SlotOf(ref, o)) == Some(o) {
      assert SlotOf(ref, o).key == MorKey(ref);
    }
  }

  /** The same overrides show in two states that agree on the entity. */
  lemma TakenAgrees(s: State, s': State, s'': State, ref: Ref, ws: seq<Override>)
    requires TakesWrites(s, s', ref, ws)
    requires forall slot: Slot :: slot.key == MorKey(ref) ==> Lookup(s'', slot) == Lookup(s', slot)
    ensures TakesWrites(s, s'', ref, ws)
  {
    hide Lookup, OnceEach;
    forall o | o in ws ensures Lookup(s'', SlotOf(ref, o)) == Some(o) {
      assert SlotOf(ref, o).key == MorKey(ref);
    }
  }

  lemma {:induction false} PlanLands(
    env: Env, sc: Scenario, targets: seq<string>, params: Params, x: Expiry, n: nat, slot: Slot)
    requires TargetOnly(sc) && slot.key in TargetKeys(env, targets)
    requires ActivationPlan(env, sc, targets, params, x, n).Ok()
    ensures Lands(TargetWrites(sc, params, x), slot, Last(ActivationPlan(env, sc, targets, params, x, n).events, slot))
    decreases targets
  {
    hide TargetWrites, TargetPlan, Lands, TargetOnly, Last, TargetKeys, KeysOf, Local, Uniform;
    NoTargetKeys(env);
    var ws, rest := TargetWrites(sc, params, x), targets[1..];
    var p := TargetPlan(env, sc, targets[0], params, x, n);
    var q := ActivationPlan(env, sc, rest, params, x, n + Calls(p.events));
    TargetOnlyOne(env, sc, targets[0], params, x, n);
    TargetKeysSplit(env, targets);
    LastConcat(p.events, q.events, slot);
    OneTargetKey(env, targets[0]);
    FirstLands(env, sc, targets[0], params, x, n, slot);
    if slot.key in TargetKeys(env, rest) {
      PlanLands(env, sc, rest, params, x, n + Calls(p.events), slot);
      LandsTwice(ws, slot, Last(p.events, slot), Last(q.events, slot));
    } else {
      TargetOnlyPlan(env, sc, rest, params, x, n + Calls(p.events));
      OutsideKeys(q.events, slot);
    }
  }

  /** One target: its own writes on its own entity, nothing elsewhere. */
  lemma FirstLands(env: Env, sc: Scenario, target: string, params: Params, x: Expiry, n: nat, slot: Slot)
    requires TargetOnly(sc) && target in env.objects
    ensures var e := Last(TargetPlan(env, sc, target, params, x, n).events, slot);
            if slot.key == MorKey(env.objects[target]) then Lands(TargetWrites(sc, params, x), slot, e) else e == Keep
  {
    hide TargetWrites, Lands, Last;
    var ref, ws := env.objects[target], TargetWrites(sc, params, x);
    OneWritesOnce(sc, params, x);
    if slot.key == MorKey(ref) {
      OnLands(ref, ws, slot);
    } else {
      OnKeys(ref, ws);
      OutsideKeys(On(ref, ws), slot);
    }
  }

  lemma LandsTwice(ws: seq<Override>, slot: Slot, a: Effect, b: Effect)
    requires Lands(ws, slot, b) && (a == Keep || Lands(ws, slot, a))
    ensures Lands(ws, slot, Over(a, b))
  {
    if o :| o in ws && SlotAt(slot.key, o) == slot {
      assert b == Wrote(o);
    }
  }

  lemma PlanShows(
    env: Env, sc: Scenario, targets: seq<string>, params: Params, x: Expiry, s: State, target: string, o: Override)
    requires TargetOnly(sc) && target in targets && target in env.objects
    requires ActivationPlan(env, sc, targets, params, x, s.calls).Ok()
    ensures var s' := Run(s, ActivationPlan(env, sc, targets, params, x, s.calls).events);
            var ws := TargetWrites(sc, params, x);
            var slot := SlotOf(env.objects[target], o);
            if o in ws then Lookup(s', slot) == Some(o)
            else (forall w :: w in ws ==> SlotAt(slot.key, w) != slot) ==> Lookup(s', slot) == Lookup(s, slot)
  {
    hide TargetWrites, Last, TargetOnly, ActivationPlan;
    var slot := SlotOf(env.objects[target], o);
    assert slot.key in TargetKeys(env, targets);
    PlanLands(env, sc, targets, params, x, s.calls, slot);
    RunLookup(s, ActivationPlan(env, sc, targets, params, x, s.calls).events, slot);
  }

  /** After a successful Activate of a target-only scenario, every override it lists stands on
      every resolved target, and the targets' other slots are as before: no write of an activation
      is lost to a later one, even when two targets name the same entity. */
  lemma ActivationShows(env: Env, b: Book, req: Request, now: int, end: int, target: string, o: Override)
    requires IsTargetOnly(req) && Activated(env, b, req, now, end).1 == Ok && target in req.targets
    ensures target in env.objects
    ensures var s' := Activated(env, b, req, now, end).0.state;
            var ws := TargetWrites(Dispatch(req.id).value, req.params, ExpiryFor(req, now));
            var slot := SlotOf(env.objects[target], o);
            if o in ws then Lookup(s', slot) == Some(o)
            else (forall w :: w in ws ==> SlotAt(slot.key, w) != slot) ==> Lookup(s', slot) == Lookup(b.state, slot)
  {
    hide TargetWrites, Last, TargetOnly;
    var sc, x := Dispatch(req.id).value, ExpiryFor(req, now);
    TargetOnlyOk(env, sc, req.targets, req.params, x, b.state.calls);
    PlanShows(env, sc, req.targets, req.params, x, b.state, target, o);
  }

  // ---------- Commuting operations ----------

  datatype Operation =
    | Activate(req: Request, now: int, end: int)
    | Deactivate(req: Request)
    | ClearEverything

  function Apply(env: Env, b: Book, op: Operation): Book {
    match op
    case Activate(req, now, end) => Activated(env, b, req, now, end).0
    case Deactivate(req) => Deactivated(env, b, req).0
    case ClearEverything => AllCleared(b)
  }

  function ApplyAll(env: Env, b: Book, ops: seq<Operation>): Book
    decreases ops
  {
    if ops == [] then b else ApplyAll(env, Apply(env, b, ops[0]), ops[1..])
  }

  lemma {:induction false} ApplyConcat(env: Env, b: Book, xs: seq<Operation>, ys: seq<Operation>)
    ensures ApplyAll(env, b, xs + ys) == ApplyAll(env, ApplyAll(env, b, xs), ys)
    decreases xs
  {
    if xs == [] {
      assert xs + ys == ys;
    } else {
      assert (xs + ys)[1..] == xs[1..] + ys;
      ApplyConcat(env, Apply(env, b, xs[0]), xs[1..], ys);
    }
  }

  /** Operations on target-only scenarios; with `now` and `end` given, expiries are fixed. */
  predicate TargetOnlyOp(op: Operation) {
    !op.ClearEverything? && IsTargetOnly(op.req)
  }

  /** The registry events of a target-only operation when it runs, and whether it does: Deactivate
      runs only on an active key. */
  function OpEvents(env: Env, op: Operation): seq<Event>
    requires TargetOnlyOp(op)
  {
    var sc := Dispatch(op.req.id).value;
    match op
    case Activate(req, now, _) => ActivationPlan(env, sc, req.targets, req.params, ExpiryFor(req, now), 0).events
    case Deactivate(req) => DeactivationEvents(env, Some(sc), req.targets, 0)
  }

  function OpKey(op: Operation): string
    requires TargetOnlyOp(op)
  {
    Key(op.req.id, op.req.targets)
  }

  function OpActive(env: Env, active: ActiveMap, op: Operation): ActiveMap
    requires TargetOnlyOp(op)
  {
    match op
    case Activate(req, now, end) =>
      if forall t :: t in req.targets ==> t in env.objects then Commit(active, req, end) else active
    case Deactivate(req) => active - {OpKey(op)}
  }

  predicate Runs(active: ActiveMap, op: Operation)
    requires TargetOnlyOp(op)
  {
    op.Activate? || OpKey(op) in active
  }

  lemma ApplyTargetOnly(env: Env, b: Book, op: Operation)
    requires TargetOnlyOp(op)
    ensures Apply(env, b, op)
            == Book(RunIf(Runs(b.active, op), b.state, OpEvents(env, op)), OpActive(env, b.active, op))
    ensures Local(OpEvents(env, op)) && KeysOf(OpEvents(env, op)) <= TargetKeys(env, op.req.targets)
  {
    var sc := Dispatch(op.req.id).value;
    RegisteredDispatch(op.req.id);
    match op {
      case Activate(req, now, end) =>
        TargetOnlyPlan(env, sc, req.targets, req.params, ExpiryFor(req, now), b.state.calls);
        TargetOnlyOk(env, sc, req.targets, req.params, ExpiryFor(req, now), b.state.calls);
      case Deactivate(req) =>
        TargetOnlyClears(env, sc, req.targets, b.state.calls);
        if OpKey(op) !in b.active {
          assert b.active - {OpKey(op)} == b.active;
        }
    }
  }

  /** A target-only operation changes no lookup outside its own resolved targets. */
  lemma TargetOnlyFrame(env: Env, b: Book, op: Operation, slot: Slot)
    requires TargetOnlyOp(op) && slot.key !in TargetKeys(env, op.req.targets)
    ensures Lookup(Apply(env, b, op).state, slot) == Lookup(b.state, slot)
  {
    ApplyTargetOnly(env, b, op);
    RunLookup(b.state, OpEvents(env, op), slot);
    OutsideKeys(OpEvents(env, op), slot);
  }

  // ---------- When the order does not matter ----------

  /** Events on other entities leave an entity's rows alone. */
  lemma {:induction false} OtherRows(s: State, es: seq<Event>, key: string)
    requires Local(es) && key !in KeysOf(es)
    ensures key in Run(s, es).metrics <==> key in s.metrics
    ensures key in Run(s, es).properties <==> key in s.properties
    decreases es
  {
    if es != [] {
      assert es[0] in es && MorKey(es[0].ref) in KeysOf(es);
      OtherRows(Step(s, es[0]), es[1..], key);
    }
  }

  lemma ClearsOne(env: Env, sc: Scenario, target: string, s: State, n: nat)
    requires TargetOnly(sc)
    ensures var keys := TargetKeys(env, [target]);
            Run(s, DeactivateTarget(env, Some(sc), target, n))
            == s.(metrics := s.metrics - keys, properties := s.properties - keys)
  {
    hide Run, MorKey, DeactivateTarget, ClearBoth, TargetOnly;
    ClearsShape(env, sc, target, n);
    if target in env.objects {
      OneTargetKey(env, target);
      ClearsRef(s, env.objects[target]);
    } else {
      assert TargetKeys(env, [target]) == {};
      ClearsNone(s);
    }
  }

  lemma ClearsShape(env: Env, sc: Scenario, target: string, n: nat)
    requires TargetOnly(sc)
    ensures DeactivateTarget(env, Some(sc), target, n)
            == if target in env.objects then ClearBoth(env.objects[target]) else []
  {
  }

  lemma ClearsRef(s: State, ref: Ref)
    ensures Run(s, ClearBoth(ref))
            == s.(metrics := s.metrics - {MorKey(ref)}, properties := s.properties - {MorKey(ref)})
  {
    hide MorKey;
    assert ClearBoth(ref)[1..] == [ClearProperties(ref)];
    RunOne(Step(s, ClearMetrics(ref)), ClearProperties(ref));
  }

  lemma ClearsNone(s: State)
    ensures Run(s, []) == s && s.metrics - {} == s.metrics && s.properties - {} == s.properties
  {
  }

  /** Deactivating a target-only scenario removes the rows of its resolved targets. */
  lemma {:induction false} ClearsRows(env: Env, sc: Scenario, targets: seq<string>, s: State, n: nat)
    requires TargetOnly(sc)
    ensures var keys := TargetKeys(env, targets);
            Run(s, DeactivationEvents(env, Some(sc), targets, n))
            == s.(metrics := s.metrics - keys, properties := s.properties - keys)
    decreases targets
  {
    hide DeactivateTarget, TargetKeys, TargetOnly, Run;
    if targets == [] {
      NoTargetKeys(env);
      RunNone(s);
      assert s.metrics - {} == s.metrics && s.properties - {} == s.properties;
    } else {
      var es, rest := DeactivateTarget(env, Some(sc), targets[0], n), targets[1..];
      var first, more := TargetKeys(env, [targets[0]]), TargetKeys(env, rest);
      ClearsOne(env, sc, targets[0], s, n);
      ClearsRows(env, sc, rest, Run(s, es), n + Calls(es));
      RunConcat(s, es, DeactivationEvents(env, Some(sc), rest, n + Calls(es)));
      TargetKeysSplit(env, targets);
      assert s.metrics - first - more == s.metrics - (first + more);
      assert s.properties - first - more == s.properties - (first + more);
    }
  }

  lemma NoTargetKeys(env: Env)
    ensures TargetKeys(env, []) == {}
  {
  }

  /** The registry has no row for the operation's targets, so a Deactivate would change nothing. */
  predicate Idle(env: Env, s: State, op: Operation)
    requires TargetOnlyOp(op)
  {
    TargetKeys(env, op.req.targets) !! s.metrics.Keys + s.properties.Keys
  }

  /** Every target is found, which is when a target-only Activate succeeds. */
  predicate Resolves(env: Env, op: Operation)
    requires TargetOnlyOp(op)
  {
    forall t :: t in op.req.targets ==> t in env.objects
  }

  lemma ClearsNothing(env: Env, s: State, d: Operation)
    requires TargetOnlyOp(d) && d.Deactivate?
    ensures Run(s, OpEvents(env, d)) == s <==> Idle(env, s, d)
  {
    hide Run, DeactivationEvents, TargetKeys;
    var keys := TargetKeys(env, d.req.targets);
    ClearsRows(env, Dispatch(d.req.id).value, d.req.targets, s, 0);
    assert s.metrics - keys == s.metrics <==> keys !! s.metrics.Keys;
    assert s.properties - keys == s.properties <==> keys !! s.properties.Keys;
  }

  /** Two Deactivates on disjoint targets do the same only when neither does anything. */
  lemma ClearSame(env: Env, s: State, p: Operation, q: Operation)
    requires TargetOnlyOp(p) && TargetOnlyOp(q) && p.Deactivate? && q.Deactivate?
    requires TargetKeys(env, p.req.targets) !! TargetKeys(env, q.req.targets)
    ensures Run(s, OpEvents(env, p)) == Run(s, OpEvents(env, q)) <==> Idle(env, s, p) && Idle(env, s, q)
  {
    hide Run, DeactivationEvents, TargetKeys;
    var kp, kq := TargetKeys(env, p.req.targets), TargetKeys(env, q.req.targets);
    ClearsRows(env, Dispatch(p.req.id).value, p.req.targets, s, 0);
    ClearsRows(env, Dispatch(q.req.id).value, q.req.targets, s, 0);
    ClearsNothing(env, s, p);
    ClearsNothing(env, s, q);
    SubtractSame(s.metrics, kp, kq);
    SubtractSame(s.properties, kp, kq);
  }

  lemma SubtractSame<V>(m: map<string, V>, a: set<string>, b: set<string>)
    requires a !! b
    ensures m - a == m - b ==> a !! m.Keys && b !! m.Keys
  {
    if m - a == m - b {
      forall k | k in m ensures k !in a && k !in b {
        assert k in m - a <==> k in m - b;
      }
    }
  }

  /** When two operations on disjoint targets leave the same registry, hosts and VMs in either order:
      always when their keys differ or both activate; two Deactivates of one key, of which only the
      first runs, when the key is not active or neither has anything to clear; Activate and Deactivate
      of one key when the key is active already, or the activation fails, or there is nothing to clear. */
  predicate StatesCommute(env: Env, b: Book, p: Operation, q: Operation)
    requires TargetOnlyOp(p) && TargetOnlyOp(q)
  {
    || OpKey(p) != OpKey(q)
    || (p.Activate? && q.Activate?)
    || (p.Deactivate? && q.Deactivate? && (OpKey(p) !in b.active || (Idle(env, b.state, p) && Idle(env, b.state, q))))
    || (p.Activate? && q.Deactivate? && (OpKey(p) in b.active || !Resolves(env, p) || Idle(env, b.state, q)))
    || (p.Deactivate? && q.Activate? && (OpKey(p) in b.active || !Resolves(env, q) || Idle(env, b.state, p)))
  }

  /** And when the active map comes out the same as well. */
  predicate BooksCommute(env: Env, b: Book, p: Operation, q: Operation)
    requires TargetOnlyOp(p) && TargetOnlyOp(q)
  {
    || OpKey(p) != OpKey(q)
    || (p.Activate? && q.Activate?
        && (!Resolves(env, p) || !Resolves(env, q) || EntryOf(p) == EntryOf(q)))
    || (p.Deactivate? && q.Deactivate? && (OpKey(p) !in b.active || (Idle(env, b.state, p) && Idle(env, b.state, q))))
    || (p.Activate? && q.Deactivate? && !Resolves(env, p))
    || (p.Deactivate? && q.Activate? && !Resolves(env, q))
  }

  function EntryOf(op: Operation): ActiveScenario
    requires op.Activate?
  {
    ActiveScenario(op.req.id, op.req.targets, op.req.params, op.end)
  }

  function RunIf(runs: bool, s: State, es: seq<Event>): State {
    if runs then Run(s, es) else s
  }

  lemma ApplyTwo(env: Env, b: Book, p: Operation, q: Operation)
    requires TargetOnlyOp(p) && TargetOnlyOp(q)
    ensures Apply(env, Apply(env, b, p), q)
            == Book(RunIf(Runs(OpActive(env, b.active, p), q), RunIf(Runs(b.active, p), b.state, OpEvents(env, p)),
                          OpEvents(env, q)),
                    OpActive(env, OpActive(env, b.active, p), q))
  {
    hide OpEvents, Apply, Run, OpActive, Runs;
    ApplyTargetOnly(env, b, p);
    ApplyTargetOnly(env, Apply(env, b, p), q);
  }

  lemma BothOrders(env: Env, s: State, p: Operation, q: Operation)
    requires TargetOnlyOp(p) && TargetOnlyOp(q)
    requires TargetKeys(env, p.req.targets) !! TargetKeys(env, q.req.targets)
    ensures Run(Run(s, OpEvents(env, p)), OpEvents(env, q)) == Run(Run(s, OpEvents(env, q)), OpEvents(env, p))
  {
    hide OpEvents, Run, TargetKeys, KeysOf, Local;
    var es, fs := OpEvents(env, p), OpEvents(env, q);
    OpLocal(env, p);
    OpLocal(env, q);
    DisjointCommute(s, es, fs);
    RunConcat(s, es, fs);
    RunConcat(s, fs, es);
  }

  lemma OpLocal(env: Env, op: Operation)
    requires TargetOnlyOp(op)
    ensures Local(OpEvents(env, op)) && KeysOf(OpEvents(env, op)) <= TargetKeys(env, op.req.targets)
  {
    hide KeysOf, Local, TargetKeys, ActivationPlan, DeactivationEvents;
    var sc := Dispatch(op.req.id).value;
    match op {
      case Activate(req, now, _) => TargetOnlyPlan(env, sc, req.targets, req.params, ExpiryFor(req, now), 0);
      case Deactivate(req) => TargetOnlyClears(env, sc, req.targets, 0);
    }
  }

  lemma DifferentKeys(env: Env, b: Book, p: Operation, q: Operation)
    requires TargetOnlyOp(p) && TargetOnlyOp(q) && OpKey(p) != OpKey(q)
    requires TargetKeys(env, p.req.targets) !! TargetKeys(env, q.req.targets)
    ensures Apply(env, Apply(env, b, p), q) == Apply(env, Apply(env, b, q), p)
  {
    hide OpEvents, Run, TargetKeys, Apply;
    ApplyTwo(env, b, p, q);
    ApplyTwo(env, b, q, p);
    BothOrders(env, b.state, p, q);
    ActiveOtherKey(env, b.active, p, q);
    ActiveOtherKey(env, b.active, q, p);
  }

  lemma ActiveOtherKey(env: Env, active: ActiveMap, p: Operation, q: Operation)
    requires TargetOnlyOp(p) && TargetOnlyOp(q) && OpKey(p) != OpKey(q)
    ensures OpActive(env, OpActive(env, active, p), q) == OpActive(env, OpActive(env, active, q), p)
    ensures Runs(OpActive(env, active, p), q) == Runs(active, q)
  {
    hide Key, TargetOnlyOp;
  }

  lemma TwoActivates(env: Env, b: Book, p: Operation, q: Operation)
    requires TargetOnlyOp(p) && TargetOnlyOp(q) && p.Activate? && q.Activate? && OpKey(p) == OpKey(q)
    requires TargetKeys(env, p.req.targets) !! TargetKeys(env, q.req.targets)
    ensures Apply(env, Apply(env, b, p), q).state == Apply(env, Apply(env, b, q), p).state
    ensures Apply(env, Apply(env, b, p), q).active == Apply(env, Apply(env, b, q), p).active
            <==> !Resolves(env, p) || !Resolves(env, q) || EntryOf(p) == EntryOf(q)
  {
    hide OpEvents, Run, TargetKeys, Apply, Key;
    ApplyTwo(env, b, p, q);
    ApplyTwo(env, b, q, p);
    BothOrders(env, b.state, p, q);
    if Resolves(env, p) && Resolves(env, q) {
      assert OpActive(env, OpActive(env, b.active, p), q)[OpKey(p)] == EntryOf(q);
      assert OpActive(env, OpActive(env, b.active, q), p)[OpKey(p)] == EntryOf(p);
    }
  }

  lemma TwoDeactivates(env: Env, b: Book, p: Operation, q: Operation)
    requires TargetOnlyOp(p) && TargetOnlyOp(q) && p.Deactivate? && q.Deactivate? && OpKey(p) == OpKey(q)
    requires TargetKeys(env, p.req.targets) !! TargetKeys(env, q.req.targets)
    ensures Apply(env, Apply(env, b, p), q).state == Apply(env, Apply(env, b, q), p).state
            <==> OpKey(p) !in b.active || (Idle(env, b.state, p) && Idle(env, b.state, q))
    ensures Apply(env, Apply(env, b, p), q).active == Apply(env, Apply(env, b, q), p).active
  {
    hide OpEvents, Run, TargetKeys, Apply, Key, Idle;
    ApplyTwo(env, b, p, q);
    ApplyTwo(env, b, q, p);
    ClearSame(env, b.state, p, q);
  }

  lemma MixedKeys(env: Env, b: Book, a: Operation, d: Operation)
    requires TargetOnlyOp(a) && TargetOnlyOp(d) && a.Activate? && d.Deactivate? && OpKey(a) == OpKey(d)
    requires TargetKeys(env, a.req.targets) !! TargetKeys(env, d.req.targets)
    ensures Apply(env, Apply(env, b, a), d).state == Apply(env, Apply(env, b, d), a).state
            <==> OpKey(a) in b.active || !Resolves(env, a) || Idle(env, b.state, d)
    ensures Apply(env, Apply(env, b, a), d).active == Apply(env, Apply(env, b, d), a).active <==> !Resolves(env, a)
  {
    hide OpEvents, Run, TargetKeys, Apply, Key, Idle;
    ApplyTwo(env, b, a, d);
    ApplyTwo(env, b, d, a);
    BothOrders(env, b.state, a, d);
    var es := OpEvents(env, a);
    OpLocal(env, a);
    ClearsNothing(env, Run(b.state, es), d);
    IdleStays(env, b.state, es, d);
    if Resolves(env, a) {
      assert OpKey(a) !in Apply(env, Apply(env, b, a), d).active && OpKey(a) in Apply(env, Apply(env, b, d), a).active;
    }
  }

  lemma IdleStays(env: Env, s: State, es: seq<Event>, d: Operation)
    requires TargetOnlyOp(d) && Local(es) && KeysOf(es) !! TargetKeys(env, d.req.targets)
    ensures Idle(env, Run(s, es), d) <==> Idle(env, s, d)
  {
    hide TargetKeys, KeysOf, Run;
    forall key | key in TargetKeys(env, d.req.targets)
      ensures key in Run(s, es).metrics <==> key in s.metrics
      ensures key in Run(s, es).properties <==> key in s.properties
    {
      OtherRows(s, es, key);
    }
  }

  /** Exactly when two target-only operations on disjoint targets commute: on registry and vCenter
      state, and with the active map. */
  lemma Commute(env: Env, b: Book, p: Operation, q: Operation)
    requires TargetOnlyOp(p) && TargetOnlyOp(q)
    requires TargetKeys(env, p.req.targets) !! TargetKeys(env, q.req.targets)
    ensures Apply(env, Apply(env, b, p), q).state == Apply(env, Apply(env, b, q), p).state
            <==> StatesCommute(env, b, p, q)
    ensures Apply(env, Apply(env, b, p), q) == Apply(env, Apply(env, b, q), p) <==> BooksCommute(env, b, p, q)
  {
    hide Apply, OpKey, TargetKeys, Idle, Resolves;
    if OpKey(p) != OpKey(q) {
      DifferentKeys(env, b, p, q);
    } else if p.Activate? && q.Activate? {
      TwoActivates(env, b, p, q);
    } else if p.Deactivate? && q.Deactivate? {
      TwoDeactivates(env, b, p, q);
    } else if p.Activate? {
      MixedKeys(env, b, p, q);
    } else {
      MixedKeys(env, b, q, p);
    }
  }

  /** So swapping two adjacent operations on disjoint targets in a run of manager operations makes no
      difference, whatever follows, exactly when the books commute at that point. */
  lemma CommuteInRun(env: Env, b: Book, before: seq<Operation>, p: Operation, q: Operation)
    requires TargetOnlyOp(p) && TargetOnlyOp(q)
    requires TargetKeys(env, p.req.targets) !! TargetKeys(env, q.req.targets)
    ensures (forall after :: ApplyAll(env, b, before + [p, q] + after) == ApplyAll(env, b, before + [q, p] + after))
            <==> BooksCommute(env, ApplyAll(env, b, before), p, q)
  {
    hide Apply, ApplyAll, TargetKeys, OpKey, BooksCommute;
    var c := ApplyAll(env, b, before);
    Commute(env, c, p, q);
    forall after
      ensures ApplyAll(env, b, before + [p, q] + after) == ApplyAll(env, Apply(env, Apply(env, c, p), q), after)
      ensures ApplyAll(env, b, before + [q, p] + after) == ApplyAll(env, Apply(env, Apply(env, c, q), p), after)
    {
      PairInRun(env, b, before, p, q, after);
      PairInRun(env, b, before, q, p, after);
    }
    NothingMore(env, Apply(env, Apply(env, c, p), q));
    NothingMore(env, Apply(env, Apply(env, c, q), p));
    if forall after :: ApplyAll(env, b, before + [p, q] + after) == ApplyAll(env, b, before + [q, p] + after) {
      assert ApplyAll(env, b, before + [p, q] + []) == ApplyAll(env, b, before + [q, p] + []);
    }
  }

  lemma NothingMore(env: Env, b: Book)
    ensures ApplyAll(env, b, []) == b
  {
  }

  lemma PairInRun(env: Env, b: Book, before: seq<Operation>, p: Operation, q: Operation, after: seq<Operation>)
    ensures ApplyAll(env, b, before + [p, q] + after)
            == ApplyAll(env, Apply(env, Apply(env, ApplyAll(env, b, before), p), q), after)
  {
    hide Apply;
    ApplyConcat(env, b, before, [p, q]);
    ApplyConcat(env, b, before + [p, q], after);
    ApplyPair(env, ApplyAll(env, b, before), p, q);
  }

  predicate Plain(targets: seq<string>) {
    targets != [] && forall t :: t in targets ==> ' ' !in t
  }

  /** For non-empty target lists without spaces, operations on disjoint targets always commute: with
      one key they name the same targets, of which none is found. */
  lemma PlainCommute(env: Env, b: Book, p: Operation, q: Operation)
    requires TargetOnlyOp(p) && TargetOnlyOp(q) && Plain(p.req.targets) && Plain(q.req.targets)
    requires TargetKeys(env, p.req.targets) !! TargetKeys(env, q.req.targets)
    ensures Apply(env, Apply(env, b, p), q) == Apply(env, Apply(env, b, q), p)
  {
    hide Apply;
    Commute(env, b, p, q);
    if OpKey(p) == OpKey(q) {
      RegisteredDispatch(p.req.id);
      RegisteredDispatch(q.req.id);
      var i :| 0 <= i < |REGISTERED| && REGISTERED[i] == p.req.id;
      var j :| 0 <= j < |REGISTERED| && REGISTERED[j] == q.req.id;
      RegisteredColonFree(i);
      RegisteredColonFree(j);
      KeyInjective(p.req.id, p.req.targets, q.req.id, q.req.targets);
      assert TargetKeys(env, p.req.targets) == {};
      var t := p.req.targets[0];
      assert t in env.objects ==> MorKey(env.objects[t]) in TargetKeys(env, p.req.targets);
    }
  }

  /** With a space in a target it can fail: two Deactivates of disjoint targets share a key, so only the
      first of them runs, and it matters which. */
  lemma SameKeyOrderMatters(env: Env, b: Book, id: string, params: Params)
    requires Dispatch(id) == Some(CpuRpLimit) && Key(id, ["a b"]) in b.active
    requires "a b" in env.objects && "a" in env.objects && "b" in env.objects
    requires MorKey(env.objects["a b"]) in b.state.metrics
    requires MorKey(env.objects["a b"]) != MorKey(env.objects["a"])
    requires MorKey(env.objects["a b"]) != MorKey(env.objects["b"])
    ensures var p, q := Deactivate(Request(id, ["a b"], params, 0)), Deactivate(Request(id, ["a", "b"], params, 0));
            && OpKey(p) == OpKey(q) && TargetKeys(env, p.req.targets) !! TargetKeys(env, q.req.targets)
            && Apply(env, Apply(env, b, p), q).state != Apply(env, Apply(env, b, q), p).state
  {
    hide Apply, Key, MorKey, Dispatch;
    var p, q := Deactivate(Request(id, ["a b"], params, 0)), Deactivate(Request(id, ["a", "b"], params, 0));
    SpaceCollision(id);
    OneTargetKey(env, "a b");
    TwoTargetKeys(env, "a", "b");
    Commute(env, b, p, q);
  }

  lemma OneTargetKey(env: Env, t: string)
    requires t in env.objects
    ensures TargetKeys(env, [t]) == {MorKey(env.objects[t])}
  {
    assert t in [t];
  }

  lemma TwoTargetKeys(env: Env, t: string, u: string)
    requires t in env.objects && u in env.objects
    ensures TargetKeys(env, [t, u]) == {MorKey(env.objects[t]), MorKey(env.objects[u])}
  {
    assert t in [t, u] && u in [t, u];
  }

  lemma ApplyPair(env: Env, b: Book, p: Operation, q: Operation)
    ensures ApplyAll(env, b, [p, q]) == Apply(env, Apply(env, b, p), q)
  {
    hide Apply;
    assert [p, q][1..] == [q] && [q][1..] == [];
    assert ApplyAll(env, Apply(env, b, p), [q]) == Apply(env, Apply(env, b, p), q);
  }

  /** Every run of manager operations from a consistent book stays consistent. */
  lemma {:induction false} RunConsistent(env: Env, b: Book, ops: seq<Operation>)
    requires Consistent(b)
    ensures Consistent(ApplyAll(env, b, ops))
    decreases ops
  {
    if ops != [] {
      match ops[0] {
        case Activate(req, now, end) => ActivatedKeeps(env, b, req, now, end);
        case Deactivate(req) => DeactivatedKeeps(env, b, req);
        case ClearEverything => AllClearedKeeps(b);
      }
      RunConsistent(env, Apply(env, b, ops[0]), ops[1..]);
    }
  }
}
