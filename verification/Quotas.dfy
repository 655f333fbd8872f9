/** Which hosts and VMs a boot storm, a rack failure and a network split take down, and which hosts
    they load, for any pattern of rejected, failed and completed tasks. */
module Quotas {
  import opened Wrappers
  import opened Overrides
  import opened Engine
  import opened Plans
  import opened Cascades
  import Footprints
  import Samples

  // ---------- Taking from a list of answers until a quota is met ----------

  /** How many answers are looked at before `quota` of them were accepting. */
  function Taken(acc: seq<bool>, quota: int): (m: nat)
    ensures m <= |acc|
  {
    if acc == [] || quota <= 0 then 0 else 1 + Taken(acc[1..], if acc[0] then quota - 1 else quota)
  }

  function Count(acc: seq<bool>): nat {
    if acc == [] then 0 else (if acc[0] then 1 else 0) + Count(acc[1..])
  }

  function Min(a: int, b: int): int {
    if a < b then a else b
  }

  lemma CountCons(b: bool, acc: seq<bool>)
    ensures Count([b] + acc) == (if b then 1 else 0) + Count(acc)
  {
    assert ([b] + acc)[1..] == acc;
  }

  lemma CountTake(acc: seq<bool>, k: nat)
    requires 0 < k <= |acc|
    ensures Count(acc[..k]) == (if acc[0] then 1 else 0) + Count(acc[1..][..k - 1])
  {
    assert acc[..k] == [acc[0]] + acc[1..][..k - 1];
    CountCons(acc[0], acc[1..][..k - 1]);
  }

  /** The loop takes the shortest prefix holding min(quota, all accepting) accepting answers. */
  lemma {:induction false} TakenMeetsQuota(acc: seq<bool>, quota: nat)
    ensures var m := Taken(acc, quota);
            && Count(acc[..m]) == Min(quota, Count(acc))
            && (forall k :: 0 <= k < m ==> Count(acc[..k]) < quota)
  {
    if acc != [] && quota > 0 {
      var left := if acc[0] then quota - 1 else quota;
      var m := Taken(acc, quota);
      TakenMeetsQuota(acc[1..], left);
      CountTake(acc, m);
      forall k | 0 <= k < m ensures Count(acc[..k]) < quota {
        if k > 0 {
          CountTake(acc, k);
          assert Count(acc[1..][..k - 1]) < left;
        } else {
          assert acc[..0] == [];
        }
      }
    }
  }

  predicate FirstAllAccept(acc: seq<bool>, quota: nat) {
    forall k :: 0 <= k < Min(quota, |acc|) ==> acc[k]
  }

  lemma {:induction false} AllAccept(acc: seq<bool>, quota: nat)
    requires FirstAllAccept(acc, quota)
    ensures Taken(acc, quota) == Min(quota, |acc|)
  {
    if acc != [] && quota > 0 {
      AllAccept(acc[1..], quota - 1);
    }
  }

  // ---------- Boot storm ----------

  function BootAnswers(env: Env, hosts: seq<Host>, n: nat): seq<bool> {
    seq(|hosts|, k requires 0 <= k < |hosts| => env.oracle(n + k, Disconnect, hosts[k].ref) != Rejected)
  }

  /** The boot storm asks hosts in list order, one call each, and stops as soon as host_count calls
      were accepted. */
  lemma {:induction false} BootCallsAre(env: Env, hosts: seq<Host>, quota: int, n: nat)
    ensures |BootCalls(env, hosts, quota, n)| == Taken(BootAnswers(env, hosts, n), quota)
    ensures AsksInOrder(env, hosts, BootCalls(env, hosts, quota, n), n)
    decreases hosts
  {
    hide AsksInOrder, Ask;
    if hosts == [] || quota <= 0 {
      NoAsks(env, hosts, n);
    } else {
      var acc, rest := BootAnswers(env, hosts, n), hosts[1..];
      BootAnswersCons(env, hosts, n);
      var left := if acc[0] then quota - 1 else quota;
      BootCallsAre(env, rest, left, n + 1);
      BootCallsCons(env, hosts, quota, n);
      OneMoreAsk(env, hosts, BootCalls(env, rest, left, n + 1), n);
    }
  }

  /** The k-th of the events asks the k-th host to disconnect. */
  ghost predicate AsksInOrder(env: Env, hosts: seq<Host>, es: seq<Event>, n: nat) {
    |es| <= |hosts| && forall k :: 0 <= k < |es| ==> es[k] == Ask(env, n + k, Disconnect, hosts[k].ref)
  }

  lemma NoAsks(env: Env, hosts: seq<Host>, n: nat)
    ensures AsksInOrder(env, hosts, [], n)
  {
  }

  lemma OneMoreAsk(env: Env, hosts: seq<Host>, es: seq<Event>, n: nat)
    requires hosts != [] && AsksInOrder(env, hosts[1..], es, n + 1)
    ensures AsksInOrder(env, hosts, [Ask(env, n, Disconnect, hosts[0].ref)] + es, n)
  {
    hide Ask;
    var all := [Ask(env, n, Disconnect, hosts[0].ref)] + es;
    forall k | 0 < k < |all| ensures all[k] == Ask(env, n + k, Disconnect, hosts[k].ref) {
      assert all[k] == es[k - 1] && hosts[k] == hosts[1..][k - 1] && n + 1 + (k - 1) == n + k;
    }
  }

  lemma BootAnswersCons(env: Env, hosts: seq<Host>, n: nat)
    requires hosts != []
    ensures var acc := BootAnswers(env, hosts, n);
            && |acc| == |hosts| && acc[0] == (env.oracle(n, Disconnect, hosts[0].ref) != Rejected)
            && acc[1..] == BootAnswers(env, hosts[1..], n + 1)
  {
  }

  lemma BootCallsCons(env: Env, hosts: seq<Host>, quota: int, n: nat)
    requires hosts != [] && quota > 0
    ensures var left := if env.oracle(n, Disconnect, hosts[0].ref) != Rejected then quota - 1 else quota;
            BootCalls(env, hosts, quota, n)
            == [Ask(env, n, Disconnect, hosts[0].ref)] + BootCalls(env, hosts[1..], left, n + 1)
  {
  }

  /** How many hosts the first loop asks. */
  function BootAsked(env: Env, hosts: seq<Host>, hostCount: nat, n: nat): (m: nat)
    ensures m <= |hosts|
  {
    Taken(BootAnswers(env, hosts, n), hostCount)
  }

  /** Of the first m hosts, one disconnection each from task number n on: those where it completes. */
  function Struck(env: Env, hosts: seq<Host>, m: nat, n: nat): set<Ref>
    requires m <= |hosts|
  {
    set k | 0 <= k < m && env.oracle(n + k, Disconnect, hosts[k].ref) == Done :: hosts[k].ref
  }

  lemma StruckHost(env: Env, hosts: seq<Host>, m: nat, n: nat, i: nat)
    requires DistinctHosts(hosts) && m <= |hosts| && i < |hosts|
    ensures hosts[i].ref in Struck(env, hosts, m, n) <==> i < m && env.oracle(n + i, Disconnect, hosts[i].ref) == Done
  {
    if hosts[i].ref in Struck(env, hosts, m, n) {
      var k :| 0 <= k < m && env.oracle(n + k, Disconnect, hosts[k].ref) == Done && hosts[k].ref == hosts[i].ref;
      assert k == i;
    }
  }

  /** One disconnection per host, then writes only: exactly the struck hosts go down. */
  lemma DisconnectsWorld(env: Env, s: State, hosts: seq<Host>, calls: seq<Event>, writes: seq<Event>, n: nat)
    requires AsksInOrder(env, hosts, calls, n) && forall e :: e in writes ==> e.Set?
    ensures Run(s, calls + writes).world == Down(s.world, Struck(env, hosts, |calls|, n), {})
  {
    hide Run, Down;
    var es, m := calls + writes, |calls|;
    DownWorld(s, es);
    forall r ensures r in Hit(es, Disconnect) <==> r in Struck(env, hosts, m, n) {
      if r in Struck(env, hosts, m, n) {
        var k :| 0 <= k < m && env.oracle(n + k, Disconnect, hosts[k].ref) == Done && r == hosts[k].ref;
        assert es[k] == calls[k] && es[k] in es;
      }
      if r in Hit(es, Disconnect) {
        var e :| e in es && e.Call? && e.op == Disconnect && e.outcome == Done && r == e.ref;
        assert e in calls;
        var k :| 0 <= k < m && calls[k] == e;
      }
    }
    assert Hit(es, Disconnect) == Struck(env, hosts, m, n) && Hit(es, PowerOff) == {};
  }

  /** Exactly the first min(host_count, number accepting) accepting hosts are asked successfully, and
      of those asked exactly the ones whose task completes end up disconnected; no VM is powered off. */
  lemma BootQuota(env: Env, s: State, hosts: seq<Host>, hostCount: nat, x: Expiry, n: nat)
    ensures var acc := BootAnswers(env, hosts, n);
            var asked := BootAsked(env, hosts, hostCount, n);
            && asked == |BootCalls(env, hosts, hostCount, n)|
            && Count(acc[..asked]) == Min(hostCount, Count(acc))
            && (forall k :: 0 <= k < asked ==> Count(acc[..k]) < hostCount)
            && Run(s, BootEvents(env, hosts, hostCount, x, n)).world == Down(s.world, Struck(env, hosts, asked, n), {})
  {
    hide Run, Down, Struck, BootCalls, BootAnswers, AsksInOrder;
    BootCallsAre(env, hosts, hostCount, n);
    assert BootAsked(env, hosts, hostCount, n) == |BootCalls(env, hosts, hostCount, n)|;
    TakenMeetsQuota(BootAnswers(env, hosts, n), hostCount);
    PhaseIsWrites(hosts, BootOverload, hostCount, x);
    DisconnectsWorld(env, s, hosts, BootCalls(env, hosts, hostCount, n), OnHosts(hosts, BootOverload, hostCount, x), n);
  }

  function BootEvents(env: Env, hosts: seq<Host>, hostCount: nat, x: Expiry, n: nat): seq<Event> {
    BootCalls(env, hosts, hostCount, n) + OnHosts(hosts, BootOverload, hostCount, x)
  }

  /** Exact end state of the boot storm's overrides: hosts[host_count..] show the overload, whatever
      was accepted, and nothing else changes. */
  lemma BootStormLoads(env: Env, s: State, hosts: seq<Host>, hostCount: nat, x: Expiry, n: nat)
    requires DistinctHosts(hosts)
    ensures var after := Run(s, BootEvents(env, hosts, hostCount, x, n));
            && (forall k :: hostCount <= k < |hosts| ==> Shows(s, after, hosts[k].ref, OverloadOf(k), false, x))
            && (forall slot: Slot :: (forall k :: hostCount <= k < |hosts| ==> slot.key != MorKey(hosts[k].ref)) ==>
                  Lookup(after, slot) == Lookup(s, slot))
  {
    hide Run, Lookup, BootEvents, LoadSamples, Pressure;
    var after := Run(s, BootEvents(env, hosts, hostCount, x, n));
    forall k, slot: Slot | hostCount <= k < |hosts| && slot.key == MorKey(hosts[k].ref)
      ensures Lookup(after, slot) == Loading(s, slot, OverloadOf(k), x)
    {
      BootSlot(env, s, hosts, hostCount, x, n, slot);
      OverloadOnHost(hosts, hostCount, x, k, slot);
    }
    forall k | hostCount <= k < |hosts| ensures Shows(s, after, hosts[k].ref, OverloadOf(k), false, x) {
    }
    forall slot: Slot | forall k :: hostCount <= k < |hosts| ==> slot.key != MorKey(hosts[k].ref)
      ensures Lookup(after, slot) == Lookup(s, slot)
    {
      BootSlot(env, s, hosts, hostCount, x, n, slot);
      PhaseElsewhere(hosts, BootOverload, hostCount, x, slot);
    }
  }

  /** What a slot of a loaded host holds. */
  function Loading(s: State, slot: Slot, l: Load, x: Expiry): Option<Override> {
    if Pressure(slot) then Some(M(slot.counter.id, LoadSamples(l, slot.counter.id), x)) else Lookup(s, slot)
  }

  lemma BootSlot(env: Env, s: State, hosts: seq<Host>, hostCount: nat, x: Expiry, n: nat, slot: Slot)
    ensures Lookup(Run(s, BootEvents(env, hosts, hostCount, x, n)), slot)
            == After(Lookup(s, slot), Last(OnHosts(hosts, BootOverload, hostCount, x), slot))
  {
    hide Run, Lookup, Last, OnHosts, BootCalls;
    var calls, loads := BootCalls(env, hosts, hostCount, n), OnHosts(hosts, BootOverload, hostCount, x);
    RunLookup(s, calls + loads, slot);
    LastConcat(calls, loads, slot);
    CallsKeep(calls, slot);
  }

  lemma OverloadOnHost(hosts: seq<Host>, hostCount: nat, x: Expiry, k: nat, slot: Slot)
    requires DistinctHosts(hosts) && hostCount <= k < |hosts| && slot.key == MorKey(hosts[k].ref)
    ensures Last(OnHosts(hosts, BootOverload, hostCount, x), slot)
            == if Pressure(slot) then Wrote(M(slot.counter.id, LoadSamples(OverloadOf(k), slot.counter.id), x))
               else Keep
  {
    hide Last, OnHosts, LoadSamples;
    PhaseOnHost(hosts, BootOverload, hostCount, x, k, slot);
    LoadEffect(hosts[k].ref, OverloadOf(k), x, slot);
  }

  function OverloadOf(k: nat): Load {
    Load(85 + k % 3 * 5, 80 + k % 3 * 5, 2048, 1000)
  }

  // ---------- Down or loaded ----------

  function CpuSlot(host: Host): Slot {
    MetricSlot(MorKey(host.ref), Counter(2, ""))
  }

  function StateSlot(host: Host): Slot {
    PropertySlot(MorKey(host.ref), "runtime.connectionState")
  }

  predicate Out(s: State, host: Host) {
    host.ref in s.world.disconnected
  }

  /** The host shows a CPU load that a scenario put there. */
  predicate Loaded(s: State, host: Host) {
    Lookup(s, CpuSlot(host)).Some?
  }

  /** Every host is either disconnected or loaded, and none is both. */
  ghost predicate OutOrLoaded(s: State, hosts: seq<Host>) {
    forall k :: 0 <= k < |hosts| ==> (Out(s, hosts[k]) <==> !Loaded(s, hosts[k]))
  }

  /** Connected and not loaded. */
  ghost predicate Healthy(s: State, hosts: seq<Host>) {
    forall k :: 0 <= k < |hosts| ==> !Out(s, hosts[k]) && !Loaded(s, hosts[k])
  }

  /** How host k of a healthy cluster ends. */
  lemma BootHost(env: Env, s: State, hosts: seq<Host>, hostCount: nat, x: Expiry, n: nat, k: nat)
    requires DistinctHosts(hosts) && Healthy(s, hosts) && k < |hosts|
    ensures var after := Run(s, BootEvents(env, hosts, hostCount, x, n));
            && (Loaded(after, hosts[k]) <==> hostCount <= k)
            && (Out(after, hosts[k])
                <==> k < BootAsked(env, hosts, hostCount, n) && env.oracle(n + k, Disconnect, hosts[k].ref) == Done)
  {
    hide Run, BootEvents, Lookup, BootAsked, BootAnswers, LoadSamples;
    BootStormLoads(env, s, hosts, hostCount, x, n);
    BootQuota(env, s, hosts, hostCount, x, n);
    StruckHost(env, hosts, BootAsked(env, hosts, hostCount, n), n, k);
    var after := Run(s, BootEvents(env, hosts, hostCount, x, n));
    assert CpuSlot(hosts[k]).key == MorKey(hosts[k].ref);
    if k < hostCount {
      forall j | hostCount <= j < |hosts| ensures CpuSlot(hosts[k]).key != MorKey(hosts[j].ref) {}
      assert Lookup(after, CpuSlot(hosts[k])) == Lookup(s, CpuSlot(hosts[k]));
    } else {
      assert Shows(s, after, hosts[k].ref, OverloadOf(k), false, x);
    }
  }

  /** The second loop loads hosts[host_count..] whatever became of the tasks, so after a boot storm on
      a healthy cluster the disconnected and the loaded hosts split it exactly when the tasks of the
      first host_count hosts all complete: otherwise one of these is neither. */
  lemma BootPartition(env: Env, s: State, hosts: seq<Host>, hostCount: nat, x: Expiry, n: nat)
    requires DistinctHosts(hosts) && Healthy(s, hosts)
    ensures OutOrLoaded(Run(s, BootEvents(env, hosts, hostCount, x, n)), hosts)
            <==> forall k :: 0 <= k < Min(hostCount, |hosts|) ==> env.oracle(n + k, Disconnect, hosts[k].ref) == Done
  {
    hide Run, BootEvents, Out, Loaded;
    var after, acc := Run(s, BootEvents(env, hosts, hostCount, x, n)), BootAnswers(env, hosts, n);
    forall k | 0 <= k < |hosts|
      ensures (Out(after, hosts[k]) <==> !Loaded(after, hosts[k]))
              <==> (k < Taken(acc, hostCount) && env.oracle(n + k, Disconnect, hosts[k].ref) == Done <==> k < hostCount)
    {
      BootHost(env, s, hosts, hostCount, x, n, k);
    }
    if forall k :: 0 <= k < Min(hostCount, |hosts|) ==> env.oracle(n + k, Disconnect, hosts[k].ref) == Done {
      AllAccept(acc, hostCount);
    }
    if OutOrLoaded(after, hosts) {
      forall k | 0 <= k < Min(hostCount, |hosts|) ensures env.oracle(n + k, Disconnect, hosts[k].ref) == Done {
        assert Out(after, hosts[k]) <==> !Loaded(after, hosts[k]);
      }
    }
  }

  // ---------- Rack power ----------

  /** The task number at which the rack loop reaches host k: each host before it took one task per VM
      and one more. */
  function RackTick(env: Env, hosts: seq<Host>, k: nat, n: nat): nat
    requires k <= |hosts|
  {
    if k == 0 then n else RackTick(env, hosts[1..], k - 1, n + |VmsOf(env, hosts[0].path)| + 1)
  }

  function RackAnswers(env: Env, hosts: seq<Host>, n: nat): (acc: seq<bool>)
    ensures |acc| == |hosts|
    decreases hosts
  {
    if hosts == [] then []
    else [RackAccepts(env, hosts[0], n)] + RackAnswers(env, hosts[1..], n + |VmsOf(env, hosts[0].path)| + 1)
  }

  /** How many hosts the loop visits. */
  function RackAsked(env: Env, hosts: seq<Host>, hostCount: nat, n: nat): (m: nat)
    ensures m <= |hosts|
  {
    Taken(RackAnswers(env, hosts, n), hostCount)
  }

  /** The events of the first m hosts of the rack. */
  function RackPrefix(env: Env, hosts: seq<Host>, m: nat, x: Expiry, n: nat): seq<Event>
    requires m <= |hosts|
    decreases m
  {
    if m == 0 then []
    else RackHost(env, hosts[0], x, n) + RackPrefix(env, hosts[1..], m - 1, x, n + |VmsOf(env, hosts[0].path)| + 1)
  }

  lemma RackHostHits(env: Env, host: Host, x: Expiry, n: nat)
    ensures var es := RackHost(env, host, x, n);
            && OnlyDown(es) && Calls(es) == |VmsOf(env, host.path)| + 1
            && Hit(es, Disconnect) == OutHost(env, host, n) && Hit(es, PowerOff) == OffVms(env, host, n)
  {
    hide HostFails, RackAccepts, Hit, OutHost, OffVms;
    var fails, mark := HostFails(env, host, n), On(host.ref, [NotResponding(x)]);
    HostFailsHits(env, host, n);
    assert fails + [] == fails;
    Footprints.NoCalls(mark);
    CallsConcat(fails, mark);
    forall op ensures Hit(fails + mark, op) == Hit(fails, op) {
      HitConcat(fails, mark, op);
      HitNone(mark, op);
    }
  }

  lemma RackAcceptsAt(env: Env, host: Host, n: nat)
    ensures RackAccepts(env, host, n) <==> env.oracle(n + |VmsOf(env, host.path)|, Disconnect, host.ref) != Rejected
    ensures OutHost(env, host, n) != {} ==> RackAccepts(env, host, n)
  {
    PowerOffsAre(env, VmsOf(env, host.path), n);
  }

  lemma {:induction false} RackAnswersAre(env: Env, hosts: seq<Host>, n: nat, k: nat)
    requires k < |hosts|
    ensures RackAnswers(env, hosts, n)[k] == RackAccepts(env, hosts[k], RackTick(env, hosts, k, n))
    decreases k
  {
    hide RackAccepts;
    if k > 0 {
      RackAnswersAre(env, hosts[1..], n + |VmsOf(env, hosts[0].path)| + 1, k - 1);
    }
  }

  lemma {:induction false} RackCallsAre(env: Env, hosts: seq<Host>, quota: int, x: Expiry, n: nat)
    ensures RackCalls(env, hosts, quota, x, n)
            == RackPrefix(env, hosts, Taken(RackAnswers(env, hosts, n), quota), x, n)
    decreases hosts
  {
    hide RackAccepts, RackHost, RackAnswers, Uniform, OnlyDown, Hit, OutHost, OffVms, VmsOf;
    if hosts != [] && quota > 0 {
      var left := if RackAccepts(env, hosts[0], n) then quota - 1 else quota;
      var m := n + |VmsOf(env, hosts[0].path)| + 1;
      RackHostHits(env, hosts[0], x, n);
      RackCallsAre(env, hosts[1..], left, x, m);
      RackAnswersCons(env, hosts, n);
    }
  }

  lemma RackAnswersCons(env: Env, hosts: seq<Host>, n: nat)
    requires hosts != []
    ensures var acc := RackAnswers(env, hosts, n);
            && acc[0] == RackAccepts(env, hosts[0], n)
            && acc[1..] == RackAnswers(env, hosts[1..], n + |VmsOf(env, hosts[0].path)| + 1)
  {
    hide RackAccepts, VmsOf;
  }

  lemma RackHostMark(env: Env, host: Host, x: Expiry, n: nat, slot: Slot)
    ensures Last(RackHost(env, host, x, n), slot)
            == if slot == PropertySlot(MorKey(host.ref), "runtime.connectionState") && RackAccepts(env, host, n)
               then Wrote(NotResponding(x)) else Keep
  {
    hide HostFails, RackAccepts;
    var fails := HostFails(env, host, n);
    CallsKeep(fails, slot);
    MarkEffect(host.ref, x, slot);
    LastConcat(fails, On(host.ref, [NotResponding(x)]), slot);
    assert fails + [] == fails;
  }

  lemma {:induction false} RackPrefixElsewhere(env: Env, hosts: seq<Host>, m: nat, x: Expiry, n: nat, slot: Slot)
    requires m <= |hosts|
    requires forall k :: 0 <= k < m ==> slot != PropertySlot(MorKey(hosts[k].ref), "runtime.connectionState")
    ensures Last(RackPrefix(env, hosts, m, x, n), slot) == Keep
    decreases m
  {
    hide RackHost;
    if m > 0 {
      var here := RackHost(env, hosts[0], x, n);
      RackHostMark(env, hosts[0], x, n, slot);
      forall k | 0 <= k < m - 1
        ensures slot != PropertySlot(MorKey(hosts[1..][k].ref), "runtime.connectionState")
      {
        assert hosts[1..][k] == hosts[k + 1];
      }
      var later := n + |VmsOf(env, hosts[0].path)| + 1;
      RackPrefixElsewhere(env, hosts[1..], m - 1, x, later, slot);
      LastConcat(here, RackPrefix(env, hosts[1..], m - 1, x, later), slot);
    }
  }

  lemma {:induction false} RackPrefixMark(env: Env, hosts: seq<Host>, m: nat, x: Expiry, n: nat, k: nat)
    requires DistinctHosts(hosts) && m <= |hosts| && k < |hosts|
    ensures Last(RackPrefix(env, hosts, m, x, n), PropertySlot(MorKey(hosts[k].ref), "runtime.connectionState"))
            == if k < m && RackAnswers(env, hosts, n)[k] then Wrote(NotResponding(x)) else Keep
    decreases m
  {
    hide RackHost, RackAccepts, Last;
    LastOfNone(PropertySlot(MorKey(hosts[k].ref), "runtime.connectionState"));
    var slot := PropertySlot(MorKey(hosts[k].ref), "runtime.connectionState");
    if m > 0 {
      var here, rest := RackHost(env, hosts[0], x, n), hosts[1..];
      var later := n + |VmsOf(env, hosts[0].path)| + 1;
      assert DistinctHosts(rest) by {
        assert forall i :: 0 <= i < |rest| ==> rest[i] == hosts[i + 1];
      }
      RackHostMark(env, hosts[0], x, n, slot);
      LastConcat(here, RackPrefix(env, rest, m - 1, x, later), slot);
      if k > 0 {
        assert rest[k - 1] == hosts[k];
        RackPrefixMark(env, rest, m - 1, x, later, k - 1);
      } else {
        forall i | 0 <= i < m - 1 ensures slot != PropertySlot(MorKey(rest[i].ref), "runtime.connectionState") {
          assert rest[i] == hosts[i + 1];
        }
        RackPrefixElsewhere(env, rest, m - 1, x, later, slot);
      }
    }
  }

  /** The rack's host k goes down, or powers off r, when its turn comes. */
  predicate Fells(env: Env, hosts: seq<Host>, k: nat, n: nat, op: Op, r: Ref)
    requires k < |hosts|
  {
    if op == Disconnect then r in OutHost(env, hosts[k], RackTick(env, hosts, k, n))
    else r in OffVms(env, hosts[k], RackTick(env, hosts, k, n))
  }

  /** One of the first m hosts takes the entity down. */
  predicate FelledBy(env: Env, hosts: seq<Host>, m: nat, n: nat, op: Op, r: Ref)
    requires m <= |hosts|
  {
    exists k :: 0 <= k < m && Fells(env, hosts, k, n, op, r)
  }

  lemma FelledCons(env: Env, hosts: seq<Host>, m: nat, n: nat, op: Op, r: Ref)
    requires 0 < m <= |hosts|
    ensures var later := n + |VmsOf(env, hosts[0].path)| + 1;
            FelledBy(env, hosts, m, n, op, r)
            <==> Fells(env, hosts, 0, n, op, r) || FelledBy(env, hosts[1..], m - 1, later, op, r)
  {
    hide OutHost, OffVms;
    var rest, later := hosts[1..], n + |VmsOf(env, hosts[0].path)| + 1;
    forall k: nat | k < m - 1 ensures Fells(env, rest, k, later, op, r) <==> Fells(env, hosts, k + 1, n, op, r) {
    }
    if k :| 0 <= k < m && Fells(env, hosts, k, n, op, r) && k > 0 {
      assert Fells(env, rest, k - 1, later, op, r);
    }
  }

  lemma {:induction false} RackPrefixHits(env: Env, hosts: seq<Host>, m: nat, x: Expiry, n: nat, op: Op, r: Ref)
    requires m <= |hosts| && (op == Disconnect || op == PowerOff)
    ensures OnlyDown(RackPrefix(env, hosts, m, x, n))
    ensures r in Hit(RackPrefix(env, hosts, m, x, n), op) <==> FelledBy(env, hosts, m, n, op, r)
    decreases m
  {
    hide RackHost, OutHost, OffVms;
    if m > 0 {
      var rest, later := hosts[1..], n + |VmsOf(env, hosts[0].path)| + 1;
      var here, more := RackHost(env, hosts[0], x, n), RackPrefix(env, rest, m - 1, x, later);
      RackHostHits(env, hosts[0], x, n);
      RackPrefixHits(env, rest, m - 1, x, later, op, r);
      HitConcat(here, more, op);
      FelledCons(env, hosts, m, n, op, r);
    }
  }

  function RackEvents(env: Env, hosts: seq<Host>, hostCount: nat, x: Expiry, n: nat): seq<Event> {
    RackCalls(env, hosts, hostCount, x, n) + OnHosts(hosts, RackLoad, hostCount, x)
  }

  /** The loop visits hosts in list order until min(host_count, number accepting) have accepted, and
      marks exactly the accepting ones as not responding. */
  lemma RackQuota(env: Env, hosts: seq<Host>, hostCount: nat, x: Expiry, n: nat)
    ensures var acc := RackAnswers(env, hosts, n);
            var m := RackAsked(env, hosts, hostCount, n);
            && RackCalls(env, hosts, hostCount, x, n) == RackPrefix(env, hosts, m, x, n)
            && (forall k :: 0 <= k < |hosts| ==> acc[k] == RackAccepts(env, hosts[k], RackTick(env, hosts, k, n)))
            && Count(acc[..m]) == Min(hostCount, Count(acc))
            && (forall k :: 0 <= k < m ==> Count(acc[..k]) < hostCount)
            && (DistinctHosts(hosts) ==> forall k :: 0 <= k < |hosts| ==>
                  Last(RackCalls(env, hosts, hostCount, x, n), StateSlot(hosts[k]))
                  == if k < m && acc[k] then Wrote(NotResponding(x)) else Keep)
  {
    hide Last, RackAccepts, RackTick, RackPrefix, RackCalls, RackAnswers;
    var acc := RackAnswers(env, hosts, n);
    RackCallsAre(env, hosts, hostCount, x, n);
    TakenMeetsQuota(acc, hostCount);
    forall k | 0 <= k < |hosts|
      ensures acc[k] == RackAccepts(env, hosts[k], RackTick(env, hosts, k, n))
    {
      RackAnswersAre(env, hosts, n, k);
    }
    if DistinctHosts(hosts) {
      forall k | 0 <= k < |hosts|
        ensures Last(RackPrefix(env, hosts, Taken(acc, hostCount), x, n), StateSlot(hosts[k]))
                == if k < Taken(acc, hostCount) && acc[k] then Wrote(NotResponding(x)) else Keep
      {
        RackPrefixMark(env, hosts, Taken(acc, hostCount), x, n, k);
      }
    }
  }

  /** Host and VM state after the rack failure: of the hosts visited, exactly those whose disconnection
      completes are disconnected, and of the VMs on every host visited, accepting or not, exactly
      those whose power-off completes are off. Nothing else changes. */
  lemma RackWorld(env: Env, s: State, hosts: seq<Host>, hostCount: nat, x: Expiry, n: nat, r: Ref)
    ensures var m := RackAsked(env, hosts, hostCount, n);
            var w := Run(s, RackEvents(env, hosts, hostCount, x, n)).world;
            && (r in w.disconnected
                <==> r in s.world.disconnected || FelledBy(env, hosts, m, n, Disconnect, r))
            && (r in w.poweredOff
                <==> r in s.world.poweredOff || FelledBy(env, hosts, m, n, PowerOff, r))
            && w.maintenance == s.world.maintenance && w.snapshots == s.world.snapshots
  {
    hide Run, RackCalls, RackPrefix, OnHosts, FelledBy, Hit;
    var m, es := RackAsked(env, hosts, hostCount, n), RackEvents(env, hosts, hostCount, x, n);
    var calls, loads := RackCalls(env, hosts, hostCount, x, n), OnHosts(hosts, RackLoad, hostCount, x);
    RackCallsAre(env, hosts, hostCount, x, n);
    RackPrefixHits(env, hosts, m, x, n, Disconnect, r);
    RackPrefixHits(env, hosts, m, x, n, PowerOff, r);
    PhaseIsWrites(hosts, RackLoad, hostCount, x);
    HitConcat(calls, loads, Disconnect);
    HitConcat(calls, loads, PowerOff);
    HitNone(loads, Disconnect);
    HitNone(loads, PowerOff);
    DownWorld(s, es);
  }

  lemma FellsHost(env: Env, hosts: seq<Host>, m: nat, n: nat, k: nat)
    requires DistinctHosts(hosts) && m <= |hosts| && k < |hosts|
    ensures FelledBy(env, hosts, m, n, Disconnect, hosts[k].ref)
            <==> k < m && OutHost(env, hosts[k], RackTick(env, hosts, k, n)) != {}
  {
    if j :| 0 <= j < m && Fells(env, hosts, j, n, Disconnect, hosts[k].ref) {
      assert hosts[j].ref == hosts[k].ref;
      assert j == k;
    }
    if k < m && OutHost(env, hosts[k], RackTick(env, hosts, k, n)) != {} {
      assert Fells(env, hosts, k, n, Disconnect, hosts[k].ref);
    }
  }

  function RackLoadOf(k: nat): Load {
    Load(90 + k % 5, 88 + k % 5, 2048, 1500)
  }

  /** Exact effect of the whole rack failure on the overrides of the k-th host: the load if
      k >= host_count, the mark if its disconnection was asked for and accepted (possibly both), and
      nothing else. */
  lemma RackEndState(env: Env, s: State, hosts: seq<Host>, hostCount: nat, x: Expiry, n: nat, k: nat, slot: Slot)
    requires DistinctHosts(hosts) && k < |hosts| && slot.key == MorKey(hosts[k].ref)
    ensures var after := Run(s, RackEvents(env, hosts, hostCount, x, n));
            Lookup(after, slot) ==
              if k >= hostCount && Pressure(slot) then
                Some(M(slot.counter.id, LoadSamples(RackLoadOf(k), slot.counter.id), x))
              else if slot == StateSlot(hosts[k]) && k < RackAsked(env, hosts, hostCount, n)
                      && RackAccepts(env, hosts[k], RackTick(env, hosts, k, n)) then
                Some(NotResponding(x))
              else Lookup(s, slot)
  {
    hide Run, Lookup, Last, OnHosts, RackCalls, RackAnswers, RackPrefix, LoadSamples, RackAccepts;
    var acc := RackAnswers(env, hosts, n);
    var calls, loads := RackCalls(env, hosts, hostCount, x, n), OnHosts(hosts, RackLoad, hostCount, x);
    RunLookup(s, calls + loads, slot);
    LastConcat(calls, loads, slot);
    RackCallsAre(env, hosts, hostCount, x, n);
    RackAnswersAre(env, hosts, n, k);
    if slot == StateSlot(hosts[k]) {
      RackPrefixMark(env, hosts, Taken(acc, hostCount), x, n, k);
    } else {
      RackPrefixElsewhere(env, hosts, Taken(acc, hostCount), x, n, slot);
    }
    if k >= hostCount {
      PhaseOnHost(hosts, RackLoad, hostCount, x, k, slot);
      LoadEffect(hosts[k].ref, RackLoadOf(k), x, slot);
    } else {
      PhaseElsewhere(hosts, RackLoad, hostCount, x, slot);
    }
  }

  /** The host is reported as not responding by a scenario. */
  predicate Marked(s: State, host: Host) {
    Lookup(s, StateSlot(host)).Some?
  }

  /** How host k of a healthy, unmarked rack ends. */
  lemma RackHostEnd(env: Env, s: State, hosts: seq<Host>, hostCount: nat, x: Expiry, n: nat, k: nat)
    requires DistinctHosts(hosts) && Healthy(s, hosts) && k < |hosts| && !Marked(s, hosts[k])
    ensures var after := Run(s, RackEvents(env, hosts, hostCount, x, n));
            var tick, m := RackTick(env, hosts, k, n), RackAsked(env, hosts, hostCount, n);
            && (Loaded(after, hosts[k]) <==> hostCount <= k)
            && (Marked(after, hosts[k]) <==> k < m && RackAccepts(env, hosts[k], tick))
            && (Out(after, hosts[k]) <==> k < m && OutHost(env, hosts[k], tick) != {})
  {
    hide Run, RackEvents, Lookup, RackAsked, RackAccepts, LoadSamples, OutHost, FelledBy;
    RackEndState(env, s, hosts, hostCount, x, n, k, CpuSlot(hosts[k]));
    RackEndState(env, s, hosts, hostCount, x, n, k, StateSlot(hosts[k]));
    RackWorld(env, s, hosts, hostCount, x, n, hosts[k].ref);
    FellsHost(env, hosts, RackAsked(env, hosts, hostCount, n), n, k);
  }

  ghost predicate MarkedOrLoaded(s: State, hosts: seq<Host>) {
    forall k :: 0 <= k < |hosts| ==> (Marked(s, hosts[k]) <==> !Loaded(s, hosts[k]))
  }

  /** The first m hosts accept their disconnections. */
  predicate FirstAccept(env: Env, hosts: seq<Host>, m: nat, n: nat)
    requires m <= |hosts|
  {
    forall k :: 0 <= k < m ==> RackAccepts(env, hosts[k], RackTick(env, hosts, k, n))
  }

  /** And these disconnections are completed. */
  predicate FirstGoOut(env: Env, hosts: seq<Host>, m: nat, n: nat)
    requires m <= |hosts|
  {
    forall k :: 0 <= k < m ==> OutHost(env, hosts[k], RackTick(env, hosts, k, n)) != {}
  }

  /** After a rack failure on a healthy, unmarked cluster: marked and loaded hosts split it exactly
      when the first host_count hosts all accept, and disconnected and loaded hosts exactly when
      their disconnections all complete. */
  lemma RackPartition(env: Env, s: State, hosts: seq<Host>, hostCount: nat, x: Expiry, n: nat)
    requires DistinctHosts(hosts) && Healthy(s, hosts) && forall k :: 0 <= k < |hosts| ==> !Marked(s, hosts[k])
    ensures var after := Run(s, RackEvents(env, hosts, hostCount, x, n));
            var first := Min(hostCount, |hosts|);
            && (MarkedOrLoaded(after, hosts) <==> FirstAccept(env, hosts, first, n))
            && (OutOrLoaded(after, hosts) <==> FirstGoOut(env, hosts, first, n))
  {
    hide Run, RackEvents, Out, Loaded, Marked, RackAccepts, OutHost, RackTick;
    var after := Run(s, RackEvents(env, hosts, hostCount, x, n));
    var acc, first := RackAnswers(env, hosts, n), Min(hostCount, |hosts|);
    var m := RackAsked(env, hosts, hostCount, n);
    forall k | 0 <= k < |hosts|
      ensures acc[k] == RackAccepts(env, hosts[k], RackTick(env, hosts, k, n))
      ensures OutHost(env, hosts[k], RackTick(env, hosts, k, n)) != {} ==> acc[k]
      ensures Loaded(after, hosts[k]) <==> hostCount <= k
      ensures Marked(after, hosts[k]) <==> k < m && acc[k]
      ensures Out(after, hosts[k]) <==> k < m && OutHost(env, hosts[k], RackTick(env, hosts, k, n)) != {}
    {
      RackAnswersAre(env, hosts, n, k);
      RackAcceptsAt(env, hosts[k], RackTick(env, hosts, k, n));
      RackHostEnd(env, s, hosts, hostCount, x, n, k);
    }
    if FirstAllAccept(acc, hostCount) {
      AllAccept(acc, hostCount);
    }
  }

  // ---------- Network split ----------

  lemma {:induction false} SplitCallsAre(env: Env, hosts: seq<Host>, i: nat, half: nat, n: nat)
    requires i <= half <= |hosts|
    ensures var es := SplitCalls(env, hosts, i, half, n);
            && |es| == half - i
            && forall k :: 0 <= k < |es| ==> es[k] == Ask(env, n + k, Disconnect, hosts[i + k].ref)
    decreases half - i
  {
    if i < half {
      SplitCallsAre(env, hosts, i + 1, half, n + 1);
    }
  }

  function DropSamples(counterID: int): seq<int> {
    Samples.IncrementingValues(if counterID == 460 then 300 else 150, 10)
  }

  predicate DropSlot(slot: Slot) {
    slot.MetricSlot? && slot.counter.inst == "" && slot.counter.id in {460, 461}
  }

  lemma DropsEffect(ref: Ref, x: Expiry, slot: Slot)
    requires slot.key == MorKey(ref)
    ensures Last(On(ref, NetDrops(300, x)), slot)
            == if DropSlot(slot) then Wrote(M(slot.counter.id, DropSamples(slot.counter.id), x)) else Keep
  {
    hide Samples.IncrementingValues, Last;
    var a, b := M(460, DropSamples(460), x), M(461, DropSamples(461), x);
    assert NetDrops(300, x) == [a] + [b];
    assert [b] + [] == [b];
    LastOfWrites(ref, a, [b], slot);
    LastOfWrites(ref, b, [], slot);
    NoWrites(ref, slot);
  }

  function SplitEvents(env: Env, hosts: seq<Host>, x: Expiry, n: nat): seq<Event> {
    SplitCalls(env, hosts, 0, |hosts| / 2, n) + OnHosts(hosts, SplitDrops, |hosts| / 2, x)
  }

  /** The split asks exactly the first n/2 hosts to disconnect, once each and whatever they answer, so
      that exactly those whose task completes are disconnected, and writes drops on exactly the other
      n - n/2, changing no other slot. */
  lemma SplitBrain(env: Env, s: State, hosts: seq<Host>, x: Expiry, n: nat)
    requires DistinctHosts(hosts)
    ensures var half := |hosts| / 2;
            var calls := SplitCalls(env, hosts, 0, half, n);
            var after := Run(s, SplitEvents(env, hosts, x, n));
            && |calls| == half && (forall k :: 0 <= k < half ==> calls[k] == Ask(env, n + k, Disconnect, hosts[k].ref))
            && after.world == Down(s.world, Struck(env, hosts, half, n), {})
            && (forall k, slot: Slot :: half <= k < |hosts| && slot.key == MorKey(hosts[k].ref) ==>
                  Lookup(after, slot) == AfterDrops(s, slot, x))
            && (forall slot: Slot :: (forall k :: half <= k < |hosts| ==> slot.key != MorKey(hosts[k].ref)) ==>
                  Lookup(after, slot) == Lookup(s, slot))
  {
    hide Run, Lookup, SplitEvents, SplitCalls, DropSamples, Down, Struck, DropSlot;
    var half, after := |hosts| / 2, Run(s, SplitEvents(env, hosts, x, n));
    SplitWorld(env, s, hosts, x, n);
    forall k, slot: Slot | half <= k < |hosts| && slot.key == MorKey(hosts[k].ref)
      ensures Lookup(after, slot) == AfterDrops(s, slot, x)
    {
      SplitSlot(env, s, hosts, x, n, slot);
      DropsOnHost(hosts, x, half, k, slot);
    }
    forall slot: Slot | forall k :: half <= k < |hosts| ==> slot.key != MorKey(hosts[k].ref)
      ensures Lookup(after, slot) == Lookup(s, slot)
    {
      SplitSlot(env, s, hosts, x, n, slot);
      PhaseElsewhere(hosts, SplitDrops, half, x, slot);
    }
  }

  /** What a slot of a dropping host holds. */
  function AfterDrops(s: State, slot: Slot, x: Expiry): Option<Override> {
    if DropSlot(slot) then Some(M(slot.counter.id, DropSamples(slot.counter.id), x)) else Lookup(s, slot)
  }

  lemma SplitWorld(env: Env, s: State, hosts: seq<Host>, x: Expiry, n: nat)
    ensures var half := |hosts| / 2;
            var calls := SplitCalls(env, hosts, 0, half, n);
            && |calls| == half && (forall k :: 0 <= k < half ==> calls[k] == Ask(env, n + k, Disconnect, hosts[k].ref))
            && Run(s, SplitEvents(env, hosts, x, n)).world == Down(s.world, Struck(env, hosts, half, n), {})
  {
    hide Run, OnHosts, SplitCalls, Down, Struck, Ask;
    var half := |hosts| / 2;
    var calls, drops := SplitCalls(env, hosts, 0, half, n), OnHosts(hosts, SplitDrops, half, x);
    SplitCallsAre(env, hosts, 0, half, n);
    forall k | 0 <= k < half ensures calls[k] == Ask(env, n + k, Disconnect, hosts[k].ref) {
      assert hosts[0 + k] == hosts[k];
    }
    PhaseIsWrites(hosts, SplitDrops, half, x);
    DisconnectsWorld(env, s, hosts, calls, drops, n);
  }

  lemma SplitSlot(env: Env, s: State, hosts: seq<Host>, x: Expiry, n: nat, slot: Slot)
    ensures Lookup(Run(s, SplitEvents(env, hosts, x, n)), slot)
            == After(Lookup(s, slot), Last(OnHosts(hosts, SplitDrops, |hosts| / 2, x), slot))
  {
    hide Run, Lookup, Last, OnHosts, SplitCalls;
    var calls, drops := SplitCalls(env, hosts, 0, |hosts| / 2, n), OnHosts(hosts, SplitDrops, |hosts| / 2, x);
    RunLookup(s, calls + drops, slot);
    LastConcat(calls, drops, slot);
    CallsKeep(calls, slot);
  }

  lemma DropsOnHost(hosts: seq<Host>, x: Expiry, half: nat, k: nat, slot: Slot)
    requires DistinctHosts(hosts) && half <= k < |hosts| && slot.key == MorKey(hosts[k].ref)
    ensures Last(OnHosts(hosts, SplitDrops, half, x), slot)
            == if DropSlot(slot) then Wrote(M(slot.counter.id, DropSamples(slot.counter.id), x)) else Keep
  {
    hide Last, OnHosts, DropSamples;
    PhaseOnHost(hosts, SplitDrops, half, x, k, slot);
    DropsEffect(hosts[k].ref, x, slot);
  }

  /** The host shows dropped packets. */
  predicate Dropping(s: State, host: Host) {
    Lookup(s, MetricSlot(MorKey(host.ref), Counter(460, ""))).Some?
  }

  ghost predicate OutOrDropping(s: State, hosts: seq<Host>) {
    forall k :: 0 <= k < |hosts| ==> (Out(s, hosts[k]) <==> !Dropping(s, hosts[k]))
  }

  /** On a cluster with every host connected and none dropping, the split cuts it in two, disconnected
      and dropping, exactly when the tasks of the first half all complete. */
  lemma SplitPartition(env: Env, s: State, hosts: seq<Host>, x: Expiry, n: nat)
    requires DistinctHosts(hosts) && forall k :: 0 <= k < |hosts| ==> !Out(s, hosts[k]) && !Dropping(s, hosts[k])
    ensures OutOrDropping(Run(s, SplitEvents(env, hosts, x, n)), hosts)
            <==> forall k :: 0 <= k < |hosts| / 2 ==> env.oracle(n + k, Disconnect, hosts[k].ref) == Done
  {
    hide Run, SplitEvents, Dropping, Out;
    var half, after := |hosts| / 2, Run(s, SplitEvents(env, hosts, x, n));
    forall k | 0 <= k < |hosts|
      ensures Dropping(after, hosts[k]) <==> half <= k
      ensures Out(after, hosts[k]) <==> k < half && env.oracle(n + k, Disconnect, hosts[k].ref) == Done
    {
      SplitHost(env, s, hosts, x, n, k);
    }
  }

  lemma SplitHost(env: Env, s: State, hosts: seq<Host>, x: Expiry, n: nat, k: nat)
    requires DistinctHosts(hosts) && k < |hosts| && !Out(s, hosts[k]) && !Dropping(s, hosts[k])
    ensures var after := Run(s, SplitEvents(env, hosts, x, n));
            && (Dropping(after, hosts[k]) <==> |hosts| / 2 <= k)
            && (Out(after, hosts[k]) <==> k < |hosts| / 2 && env.oracle(n + k, Disconnect, hosts[k].ref) == Done)
  {
    hide Run, SplitEvents, Lookup, DropSamples;
    var slot := MetricSlot(MorKey(hosts[k].ref), Counter(460, ""));
    SplitBrain(env, s, hosts, x, n);
    StruckHost(env, hosts, |hosts| / 2, n, k);
    if k < |hosts| / 2 {
      forall j | |hosts| / 2 <= j < |hosts| ensures slot.key != MorKey(hosts[j].ref) {}
    }
  }
}
