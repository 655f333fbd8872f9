/** What the multi-phase cascades leave behind, whatever vCenter answers to their tasks. */
module Cascades {
  import opened Wrappers
  import opened Overrides
  import opened Engine
  import opened Samples
  import opened Plans
  import opened Footprints

  ghost predicate DistinctHosts(hosts: seq<Host>) {
    forall i, j :: 0 <= i < j < |hosts| ==> MorKey(hosts[i].ref) != MorKey(hosts[j].ref)
  }

  // ---------- Which host a phase writes on ----------

  lemma OnElsewhere(ref: Ref, ws: seq<Override>, slot: Slot)
    requires slot.key != MorKey(ref)
    ensures Last(On(ref, ws), slot) == Keep
  {
    OnKeys(ref, ws);
    OutsideKeys(On(ref, ws), slot);
  }

  /** Phases over other hosts leave a slot alone. */
  lemma {:induction false} PhaseElsewhere(hosts: seq<Host>, ph: Phase, i: nat, x: Expiry, slot: Slot)
    requires forall k :: i <= k < |hosts| ==> slot.key != MorKey(hosts[k].ref)
    ensures Last(OnHosts(hosts, ph, i, x), slot) == Keep
    decreases |hosts| - i
  {
    hide PhaseWrites;
    if i < |hosts| {
      OnElsewhere(hosts[i].ref, PhaseWrites(ph, i, x), slot);
      PhaseElsewhere(hosts, ph, i + 1, x, slot);
      LastConcat(On(hosts[i].ref, PhaseWrites(ph, i, x)), OnHosts(hosts, ph, i + 1, x), slot);
    }
  }

  /** On host k a phase does exactly what it writes for k. */
  lemma {:induction false} PhaseOnHost(hosts: seq<Host>, ph: Phase, i: nat, x: Expiry, k: nat, slot: Slot)
    requires DistinctHosts(hosts) && i <= k < |hosts| && slot.key == MorKey(hosts[k].ref)
    ensures Last(OnHosts(hosts, ph, i, x), slot) == Last(On(hosts[k].ref, PhaseWrites(ph, k, x)), slot)
    decreases |hosts| - i
  {
    hide PhaseWrites;
    var here := On(hosts[i].ref, PhaseWrites(ph, i, x));
    LastConcat(here, OnHosts(hosts, ph, i + 1, x), slot);
    if i == k {
      PhaseElsewhere(hosts, ph, i + 1, x, slot);
    } else {
      OnElsewhere(hosts[i].ref, PhaseWrites(ph, i, x), slot);
      PhaseOnHost(hosts, ph, i + 1, x, k, slot);
    }
  }

  lemma {:induction false} CallsKeep(es: seq<Event>, slot: Slot)
    requires forall e :: e in es ==> e.Call?
    ensures Last(es, slot) == Keep
  {
    if es != [] {
      assert es[0] in es;
      CallsKeep(es[1..], slot);
    }
  }

  // ---------- Hosts and VMs that go down ----------

  /** Every task disconnects a host or powers off a VM. */
  predicate OnlyDown(es: seq<Event>) {
    forall e :: e in es && e.Call? ==> e.op == Disconnect || e.op == PowerOff
  }

  /** What tasks of this kind were completed on. */
  function Hit(es: seq<Event>, op: Op): set<Ref> {
    set e | e in es && e.Call? && e.op == op && e.outcome == Done :: e.ref
  }

  lemma HitConcat(a: seq<Event>, b: seq<Event>, op: Op)
    ensures Hit(a + b, op) == Hit(a, op) + Hit(b, op)
  {
  }

  lemma HitNone(es: seq<Event>, op: Op)
    requires forall e :: e in es ==> !e.Call?
    ensures Hit(es, op) == {}
  {
  }

  function Down(w: World, hosts: set<Ref>, vms: set<Ref>): World {
    w.(disconnected := w.disconnected + hosts, poweredOff := w.poweredOff + vms)
  }

  lemma DownTwice(w: World, hosts: set<Ref>, vms: set<Ref>, hosts': set<Ref>, vms': set<Ref>)
    ensures Down(Down(w, hosts, vms), hosts', vms') == Down(w, hosts + hosts', vms + vms')
  {
    assert w.disconnected + hosts + hosts' == w.disconnected + (hosts + hosts');
    assert w.poweredOff + vms + vms' == w.poweredOff + (vms + vms');
  }

  lemma DownStep(s: State, e: Event)
    requires OnlyDown([e])
    ensures Step(s, e).world == Down(s.world, Hit([e], Disconnect), Hit([e], PowerOff))
  {
    assert e in [e];
    if e.Call? && e.outcome == Done {
      assert Hit([e], e.op) == {e.ref};
      assert e.op == Disconnect ==> Hit([e], PowerOff) == {};
      assert e.op == PowerOff ==> Hit([e], Disconnect) == {};
    } else {
      assert Hit([e], Disconnect) == {} && Hit([e], PowerOff) == {};
    }
  }

  /** Such events take down exactly the hosts and VMs whose tasks completed. */
  lemma {:induction false} DownWorld(s: State, es: seq<Event>)
    requires OnlyDown(es)
    ensures Run(s, es).world == Down(s.world, Hit(es, Disconnect), Hit(es, PowerOff))
    decreases es
  {
    hide Step, Hit, Down;
    if es == [] {
      HitNone(es, Disconnect);
      HitNone(es, PowerOff);
      DownNone(s.world);
    } else {
      var rest := es[1..];
      assert es == [es[0]] + rest && es[0] in es;
      DownStep(s, es[0]);
      DownWorld(Step(s, es[0]), rest);
      HitConcat([es[0]], rest, Disconnect);
      HitConcat([es[0]], rest, PowerOff);
      DownTwice(s.world, Hit([es[0]], Disconnect), Hit([es[0]], PowerOff), Hit(rest, Disconnect), Hit(rest, PowerOff));
    }
  }

  lemma DownNone(w: World)
    ensures Down(w, {}, {}) == w
  {
    assert w.disconnected + {} == w.disconnected && w.poweredOff + {} == w.poweredOff;
  }

  lemma {:induction false} PowerOffsAre(env: Env, vms: seq<VmRef>, n: nat)
    ensures var es := PowerOffs(env, vms, n);
            && |es| == |vms| && Calls(es) == |vms|
            && forall j :: 0 <= j < |vms| ==> es[j] == Ask(env, n + j, PowerOff, vms[j])
    decreases vms
  {
    if vms != [] {
      PowerOffsAre(env, vms[1..], n + 1);
      var es := PowerOffs(env, vms, n);
      assert es[1..] == PowerOffs(env, vms[1..], n + 1);
      forall j | 0 <= j < |vms| ensures es[j] == Ask(env, n + j, PowerOff, vms[j]) {
        if j > 0 {
          assert es[j] == es[1..][j - 1] && vms[j] == vms[1..][j - 1];
        }
      }
    }
  }

  /** When a host fails at task number n: its VMs whose power-off completes, one task each. */
  function OffVms(env: Env, host: Host, n: nat): set<Ref> {
    var vms := VmsOf(env, host.path);
    set j | 0 <= j < |vms| && env.oracle(n + j, PowerOff, vms[j]) == Done :: vms[j]
  }

  /** And the host itself, if its disconnection, sent after them, completes. */
  function OutHost(env: Env, host: Host, n: nat): set<Ref> {
    if env.oracle(n + |VmsOf(env, host.path)|, Disconnect, host.ref) == Done then {host.ref} else {}
  }

  lemma HostFailsHits(env: Env, host: Host, n: nat)
    ensures var es := HostFails(env, host, n);
            && OnlyDown(es) && Calls(es) == |VmsOf(env, host.path)| + 1
            && Hit(es, Disconnect) == OutHost(env, host, n) && Hit(es, PowerOff) == OffVms(env, host, n)
  {
    var vms, es := VmsOf(env, host.path), HostFails(env, host, n);
    var offs := PowerOffs(env, vms, n);
    PowerOffsAre(env, vms, n);
    var last := Ask(env, n + |vms|, Disconnect, host.ref);
    assert es == offs + [last];
    CallsConcat(offs, [last]);
    assert [last][1..] == [];
    forall r ensures r in Hit(es, PowerOff) <==> r in OffVms(env, host, n) {
      if r in OffVms(env, host, n) {
        var j :| 0 <= j < |vms| && env.oracle(n + j, PowerOff, vms[j]) == Done && r == vms[j];
        assert es[j] == offs[j] && es[j] in es;
      }
      if r in Hit(es, PowerOff) {
        var e :| e in es && e.Call? && e.op == PowerOff && e.outcome == Done && r == e.ref;
        assert e in offs;
        var j :| 0 <= j < |offs| && offs[j] == e;
      }
    }
    assert last in es;
  }

  // ---------- The load a host shows ----------

  /** The five counters of CPU and memory pressure. */
  datatype Load = Load(cpuPercent: int, memPercent: int, balloonMB: int, swapRate: int)

  function LoadWrites(l: Load, x: Expiry): seq<Override> {
    HighCpu(l.cpuPercent, x) + HighMem(l.memPercent, l.balloonMB, l.swapRate, x)
  }

  const PRESSURE: set<int> := {2, 24, 90, 85, 86}

  function LoadSamples(l: Load, counterID: int): seq<int>
    requires counterID in PRESSURE
  {
    if counterID == 2 then HighValues(l.cpuPercent * 100, 5)
    else if counterID == 24 then HighValues(l.memPercent * 100, 3)
    else if counterID == 90 then HighValues(l.balloonMB * 1024, 10)
    else if counterID == 85 then HighValues(l.swapRate, 30)
    else HighValues(Quot(l.swapRate, 2), 30)
  }

  predicate Pressure(slot: Slot) {
    slot.MetricSlot? && slot.counter.inst == "" && slot.counter.id in PRESSURE
  }

  function WriteEffect(ref: Ref, o: Override, slot: Slot): Effect {
    if SlotOf(ref, o) == slot then Wrote(o) else Keep
  }

  lemma LastOfWrites(ref: Ref, o: Override, ws: seq<Override>, slot: Slot)
    ensures Last(On(ref, [o] + ws), slot) == Over(WriteEffect(ref, o, slot), Last(On(ref, ws), slot))
  {
    assert On(ref, [o] + ws)[1..] == On(ref, ws);
  }

  lemma LastOfFive(ref: Ref, a: Override, b: Override, c: Override, d: Override, e: Override, slot: Slot)
    ensures Last(On(ref, [a, b, c, d, e]), slot)
            == Over(WriteEffect(ref, a, slot), Over(WriteEffect(ref, b, slot), Over(WriteEffect(ref, c, slot),
                 Over(WriteEffect(ref, d, slot), WriteEffect(ref, e, slot)))))
  {
    hide Last, WriteEffect;
    LastOfWrites(ref, a, [b, c, d, e], slot);
    LastOfWrites(ref, b, [c, d, e], slot);
    LastOfWrites(ref, c, [d, e], slot);
    LastOfWrites(ref, d, [e], slot);
    LastOfWrites(ref, e, [], slot);
    NoWrites(ref, slot);
    assert [a] + [b, c, d, e] == [a, b, c, d, e];
    assert [b] + [c, d, e] == [b, c, d, e];
    assert [c] + [d, e] == [c, d, e];
    assert [d] + [e] == [d, e];
    assert [e] + [] == [e];
  }

  lemma NoWrites(ref: Ref, slot: Slot)
    ensures Last(On(ref, []), slot) == Keep
  {
  }

  lemma LoadEffect(ref: Ref, l: Load, x: Expiry, slot: Slot)
    requires l.balloonMB > 0 && l.swapRate > 0 && slot.key == MorKey(ref)
    ensures Last(On(ref, LoadWrites(l, x)), slot)
            == if Pressure(slot) then Wrote(M(slot.counter.id, LoadSamples(l, slot.counter.id), x)) else Keep
  {
    hide HighValues, Quot, Last;
    var a, b, c, d, e := M(2, LoadSamples(l, 2), x), M(24, LoadSamples(l, 24), x), M(90, LoadSamples(l, 90), x),
                         M(85, LoadSamples(l, 85), x), M(86, LoadSamples(l, 86), x);
    assert LoadWrites(l, x) == [a, b, c, d, e];
    LastOfFive(ref, a, b, c, d, e, slot);
  }

  /** The host shows this load, and its other slots are as before (`marked`: except that it is
      reported as not responding). */
  ghost predicate Shows(before: State, after: State, ref: Ref, l: Load, marked: bool, x: Expiry) {
    forall slot: Slot :: slot.key == MorKey(ref) ==>
      Lookup(after, slot) ==
        if Pressure(slot) then Some(M(slot.counter.id, LoadSamples(l, slot.counter.id), x))
        else if marked && slot == PropertySlot(MorKey(ref), "runtime.connectionState") then Some(NotResponding(x))
        else Lookup(before, slot)
  }

  // ---------- HA exhaustion ----------

  function CriticalLoad(i: nat): Load { Load(96 + i % 4, 97, 4096, 3000) }

  const SECOND_HOST: Load := Load(90, 87, 2048, 500)

  lemma HaLast(env: Env, hosts: seq<Host>, x: Expiry, n: nat, slot: Slot)
    requires |hosts| >= 3
    ensures Last(HaEvents(env, hosts, x, n), slot)
            == Over(Over(Last(OnHosts(hosts, HaOverload, 1, x), slot),
                         Last(On(hosts[1].ref, [NotResponding(x)]), slot)),
                    Last(OnHosts(hosts, HaCritical, 2, x), slot))
  {
    hide HostFails, OnHosts;
    var fail1 := HostFails(env, hosts[0], n);
    var fail2 := HostFails(env, hosts[1], n + Calls(fail1));
    var over, crit := OnHosts(hosts, HaOverload, 1, x), OnHosts(hosts, HaCritical, 2, x);
    var mark := On(hosts[1].ref, [NotResponding(x)]);
    LastConcat(fail1 + over + fail2 + mark, crit, slot);
    LastConcat(fail1 + over + fail2, mark, slot);
    LastConcat(fail1 + over, fail2, slot);
    LastConcat(fail1, over, slot);
    CallsKeep(fail1, slot);
    CallsKeep(fail2, slot);
  }

  lemma MarkEffect(ref: Ref, x: Expiry, slot: Slot)
    ensures Last(On(ref, [NotResponding(x)]), slot)
            == if slot == PropertySlot(MorKey(ref), "runtime.connectionState") then Wrote(NotResponding(x)) else Keep
  {
    assert On(ref, [NotResponding(x)]) == [Set(ref, NotResponding(x))];
    assert [Set(ref, NotResponding(x))][1..] == [];
  }

  lemma HaOnSurvivor(env: Env, hosts: seq<Host>, x: Expiry, n: nat, i: nat, slot: Slot)
    requires |hosts| >= 3 && DistinctHosts(hosts) && 2 <= i < |hosts| && slot.key == MorKey(hosts[i].ref)
    ensures Last(HaEvents(env, hosts, x, n), slot)
            == if Pressure(slot) then Wrote(M(slot.counter.id, LoadSamples(CriticalLoad(i), slot.counter.id), x))
               else Keep
  {
    hide HaEvents, OnHosts, LoadSamples, Last;
    HaLast(env, hosts, x, n, slot);
    PhaseOnHost(hosts, HaOverload, 1, x, i, slot);
    PhaseOnHost(hosts, HaCritical, 2, x, i, slot);
    MarkEffect(hosts[1].ref, x, slot);
    LoadEffect(hosts[i].ref, Load(88 + i * 2, 85 + i * 2, 2048, 500), x, slot);
    LoadEffect(hosts[i].ref, CriticalLoad(i), x, slot);
  }

  lemma HaOnSecond(env: Env, hosts: seq<Host>, x: Expiry, n: nat, slot: Slot)
    requires |hosts| >= 3 && DistinctHosts(hosts) && slot.key == MorKey(hosts[1].ref)
    ensures Last(HaEvents(env, hosts, x, n), slot)
            == if Pressure(slot) then Wrote(M(slot.counter.id, LoadSamples(SECOND_HOST, slot.counter.id), x))
               else if slot == PropertySlot(MorKey(hosts[1].ref), "runtime.connectionState") then
                 Wrote(NotResponding(x))
               else Keep
  {
    hide HaEvents, OnHosts, LoadSamples, Last;
    HaLast(env, hosts, x, n, slot);
    PhaseOnHost(hosts, HaOverload, 1, x, 1, slot);
    PhaseElsewhere(hosts, HaCritical, 2, x, slot);
    MarkEffect(hosts[1].ref, x, slot);
    LoadEffect(hosts[1].ref, SECOND_HOST, x, slot);
  }

  lemma HaElsewhere(env: Env, hosts: seq<Host>, x: Expiry, n: nat, slot: Slot)
    requires |hosts| >= 3 && forall k :: 1 <= k < |hosts| ==> slot.key != MorKey(hosts[k].ref)
    ensures Last(HaEvents(env, hosts, x, n), slot) == Keep
  {
    hide HaEvents, OnHosts;
    HaLast(env, hosts, x, n, slot);
    PhaseElsewhere(hosts, HaOverload, 1, x, slot);
    PhaseElsewhere(hosts, HaCritical, 2, x, slot);
    MarkEffect(hosts[1].ref, x, slot);
  }

  /** In between, after the first host failed and before the second does, every other host shows the step-2
      load, two percent more from host to host. */
  lemma HaStepTwo(env: Env, s: State, hosts: seq<Host>, x: Expiry, n: nat, i: nat)
    requires |hosts| >= 3 && DistinctHosts(hosts) && 1 <= i < |hosts|
    ensures var es := HostFails(env, hosts[0], n) + OnHosts(hosts, HaOverload, 1, x);
            && es <= HaEvents(env, hosts, x, n)
            && Shows(s, Run(s, es), hosts[i].ref, Load(88 + 2 * i, 85 + 2 * i, 2048, 500), false, x)
  {
    hide Run, Lookup, OnHosts, HostFails, HaEvents, LoadSamples, Pressure;
    HaStartsWith(env, hosts, x, n);
    forall slot: Slot | slot.key == MorKey(hosts[i].ref) {
      StepTwoSlot(env, s, hosts, x, n, i, slot);
    }
  }

  lemma StepTwoSlot(env: Env, s: State, hosts: seq<Host>, x: Expiry, n: nat, i: nat, slot: Slot)
    requires |hosts| >= 3 && DistinctHosts(hosts) && 1 <= i < |hosts| && slot.key == MorKey(hosts[i].ref)
    ensures var es := HostFails(env, hosts[0], n) + OnHosts(hosts, HaOverload, 1, x);
            Lookup(Run(s, es), slot)
            == if Pressure(slot) then
                 Some(M(slot.counter.id, LoadSamples(Load(88 + 2 * i, 85 + 2 * i, 2048, 500), slot.counter.id), x))
               else Lookup(s, slot)
  {
    hide Run, Lookup, Last, OnHosts, HostFails, LoadSamples;
    var fail1, over := HostFails(env, hosts[0], n), OnHosts(hosts, HaOverload, 1, x);
    LastConcat(fail1, over, slot);
    CallsKeep(fail1, slot);
    PhaseOnHost(hosts, HaOverload, 1, x, i, slot);
    LoadEffect(hosts[i].ref, Load(88 + 2 * i, 85 + 2 * i, 2048, 500), x, slot);
    RunLookup(s, fail1 + over, slot);
  }

  lemma HaStartsWith(env: Env, hosts: seq<Host>, x: Expiry, n: nat)
    requires |hosts| >= 3
    ensures HostFails(env, hosts[0], n) + OnHosts(hosts, HaOverload, 1, x) <= HaEvents(env, hosts, x, n)
  {
    hide HostFails, OnHosts;
  }

  /** The state of hosts and VMs after the cascade: exactly the first two hosts' tasks count. */
  lemma HaWorld(env: Env, s: State, hosts: seq<Host>, x: Expiry, n: nat)
    requires |hosts| >= 3
    ensures var later := n + |VmsOf(env, hosts[0].path)| + 1;
            Run(s, HaEvents(env, hosts, x, n)).world
            == Down(s.world, OutHost(env, hosts[0], n) + OutHost(env, hosts[1], later),
                    OffVms(env, hosts[0], n) + OffVms(env, hosts[1], later))
  {
    hide HostFails, OnHosts, Run, Hit, Down;
    var fail1 := HostFails(env, hosts[0], n);
    var fail2 := HostFails(env, hosts[1], n + Calls(fail1));
    var over, crit := OnHosts(hosts, HaOverload, 1, x), OnHosts(hosts, HaCritical, 2, x);
    var mark := On(hosts[1].ref, [NotResponding(x)]);
    HostFailsHits(env, hosts[0], n);
    HostFailsHits(env, hosts[1], n + Calls(fail1));
    PhaseIsWrites(hosts, HaOverload, 1, x);
    PhaseIsWrites(hosts, HaCritical, 2, x);
    forall op ensures Hit(fail1 + over + fail2 + mark + crit, op) == Hit(fail1, op) + Hit(fail2, op) {
      HitConcat(fail1 + over + fail2 + mark, crit, op);
      HitConcat(fail1 + over + fail2, mark, op);
      HitConcat(fail1 + over, fail2, op);
      HitConcat(fail1, over, op);
      HitNone(over, op);
      HitNone(mark, op);
      HitNone(crit, op);
    }
    DownWorld(s, HaEvents(env, hosts, x, n));
  }

  lemma {:induction false} PhaseIsWrites(hosts: seq<Host>, ph: Phase, i: nat, x: Expiry)
    ensures forall e :: e in OnHosts(hosts, ph, i, x) ==> e.Set?
    decreases |hosts| - i
  {
    hide PhaseWrites;
    if i < |hosts| {
      PhaseIsWrites(hosts, ph, i + 1, x);
    }
  }

  /** After the HA cascade on a cluster of n >= 3 distinct hosts, whatever vCenter answered: every
      host from the third on shows exactly the step-4 load, with nothing of step 2 left; the
      second keeps its step-2 load and is marked not responding; the overrides of the first host
      and of every other entity are untouched. Of hosts and VMs exactly those of the first two hosts
      go down, as far as their tasks complete. */
  lemma HaCascade(env: Env, s: State, hosts: seq<Host>, x: Expiry, n: nat)
    requires |hosts| >= 3 && DistinctHosts(hosts)
    ensures var after := Run(s, HaEvents(env, hosts, x, n));
            && (forall i :: 2 <= i < |hosts| ==> Shows(s, after, hosts[i].ref, CriticalLoad(i), false, x))
            && Shows(s, after, hosts[1].ref, SECOND_HOST, true, x)
            && (forall slot: Slot :: (forall k :: 1 <= k < |hosts| ==> slot.key != MorKey(hosts[k].ref)) ==>
                  Lookup(after, slot) == Lookup(s, slot))
            && var later := n + |VmsOf(env, hosts[0].path)| + 1;
               after.world == Down(s.world, OutHost(env, hosts[0], n) + OutHost(env, hosts[1], later),
                                   OffVms(env, hosts[0], n) + OffVms(env, hosts[1], later))
  {
    hide HaEvents, LoadSamples, Last, Run, Lookup, Down, OutHost, OffVms;
    HaWorld(env, s, hosts, x, n);
    var es := HaEvents(env, hosts, x, n);
    forall i, slot: Slot | 2 <= i < |hosts| && slot.key == MorKey(hosts[i].ref)
      ensures Lookup(Run(s, es), slot) ==
              if Pressure(slot) then Some(M(slot.counter.id, LoadSamples(CriticalLoad(i), slot.counter.id), x))
              else Lookup(s, slot)
    {
      HaOnSurvivor(env, hosts, x, n, i, slot);
      RunLookup(s, es, slot);
    }
    forall slot: Slot | slot.key == MorKey(hosts[1].ref)
      ensures Lookup(Run(s, es), slot) ==
              if Pressure(slot) then Some(M(slot.counter.id, LoadSamples(SECOND_HOST, slot.counter.id), x))
              else if slot == PropertySlot(MorKey(hosts[1].ref), "runtime.connectionState") then Some(NotResponding(x))
              else Lookup(s, slot)
    {
      HaOnSecond(env, hosts, x, n, slot);
      RunLookup(s, es, slot);
    }
    forall slot: Slot | forall k :: 1 <= k < |hosts| ==> slot.key != MorKey(hosts[k].ref)
      ensures Lookup(Run(s, es), slot) == Lookup(s, slot)
    {
      HaElsewhere(env, hosts, x, n, slot);
      RunLookup(s, es, slot);
    }
  }

  /** More load means larger samples, on every counter and at every interval. */
  lemma LoadMonotone(a: Load, b: Load, counterID: int, t: nat)
    requires 0 <= a.cpuPercent <= b.cpuPercent && 0 <= a.memPercent <= b.memPercent
    requires 0 <= a.balloonMB <= b.balloonMB && 0 <= a.swapRate <= b.swapRate
    requires counterID in PRESSURE && t < 12
    ensures LoadSamples(a, counterID)[t] <= LoadSamples(b, counterID)[t]
  {
    hide HighValues;
    HighValuesMonotone(a.cpuPercent * 100, b.cpuPercent * 100, 5, t);
    HighValuesMonotone(a.memPercent * 100, b.memPercent * 100, 3, t);
    HighValuesMonotone(a.balloonMB * 1024, b.balloonMB * 1024, 10, t);
    HighValuesMonotone(a.swapRate, b.swapRate, 30, t);
    HighValuesMonotone(Quot(a.swapRate, 2), Quot(b.swapRate, 2), 30, t);
  }

  /** Every survivor's samples dominate the second host's, on all five counters and at all twelve
      intervals. */
  lemma SurvivorsDominate(i: nat, counterID: int, t: nat)
    requires i >= 2 && counterID in PRESSURE && t < 12
    ensures LoadSamples(SECOND_HOST, counterID)[t] <= LoadSamples(CriticalLoad(i), counterID)[t]
  {
    LoadMonotone(SECOND_HOST, CriticalLoad(i), counterID, t);
  }
}
