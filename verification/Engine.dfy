/** The event machine under the scenario manager: every registry write or clear, and every task sent
    to vCenter, is one atomic event (each takes the registry lock or is a remote call of its own).
    `Run` executes a list of events; `Last` says, from the list alone, what it does to one slot. */
module Engine {
  import opened Wrappers
  import opened Overrides

  // ---------- vCenter as an environment ----------

  /** A virtual machine reference; the source takes the last byte of its value. */
  type VmRef = r: Ref | r.value != "" witness Ref("VirtualMachine", "vm-1", "")

  /** A host as the finder returns it: reference and inventory path. */
  datatype Host = Host(ref: Ref, path: string)

  datatype Op =
    | Disconnect | Reconnect
    | EnterMaintenance | ExitMaintenance
    | PowerOff | PowerOn
    | CreateSnapshot(i: int)

  /** Rejected: the call returns an error and no task. Failed: the vCenter task ends in an error. */
  datatype Outcome = Rejected | Failed | Done

  /** What the finder answers (a missing path is a finder error) and how vCenter answers the
      n-th task sent to it. */
  datatype Env = Env(
    objects: map<string, Ref>,
    hosts: map<string, Ref>,
    vms: map<string, VmRef>,
    clusterHosts: map<string, seq<Host>>,
    hostVms: map<string, seq<VmRef>>,
    oracle: (nat, Op, Ref) -> Outcome)

  function VmsOf(env: Env, hostPath: string): seq<VmRef> {
    if hostPath in env.hostVms then env.hostVms[hostPath] else []
  }

  /** Host and VM states that tasks change; snapshots are only ever added. */
  datatype World = World(disconnected: set<Ref>, maintenance: set<Ref>, poweredOff: set<Ref>, snapshots: multiset<Ref>)

  function Effected(w: World, op: Op, ref: Ref): World {
    match op
    case Disconnect => w.(disconnected := w.disconnected + {ref})
    case Reconnect => w.(disconnected := w.disconnected - {ref})
    case EnterMaintenance => w.(maintenance := w.maintenance + {ref})
    case ExitMaintenance => w.(maintenance := w.maintenance - {ref})
    case PowerOff => w.(poweredOff := w.poweredOff + {ref})
    case PowerOn => w.(poweredOff := w.poweredOff - {ref})
    case CreateSnapshot(_) => w.(snapshots := w.snapshots + multiset{ref})
  }

  // ---------- Events and runs ----------

  datatype Override = Metric(m: MetricOverride) | Property(p: PropertyOverride)

  datatype Event =
    | Set(ref: Ref, o: Override)
    | ClearMetrics(ref: Ref)
    | ClearProperties(ref: Ref)
    | ClearAll
    | Call(op: Op, ref: Ref, outcome: Outcome)

  datatype State = State(
    metrics: Table<Counter, seq<int>>,
    properties: Table<string, PropValue>,
    world: World,
    calls: nat)

  function Step(s: State, e: Event): State {
    match e
    case Set(ref, Metric(m)) => s.(metrics := Put(s.metrics, MorKey(ref), m))
    case Set(ref, Property(p)) => s.(properties := Put(s.properties, MorKey(ref), p))
    case ClearMetrics(ref) => s.(metrics := s.metrics - {MorKey(ref)})
    case ClearProperties(ref) => s.(properties := s.properties - {MorKey(ref)})
    case ClearAll => s.(metrics := map[], properties := map[])
    case Call(op, ref, outcome) =>
      s.(world := if outcome == Done then Effected(s.world, op, ref) else s.world, calls := s.calls + 1)
  }

  function Run(s: State, es: seq<Event>): State
    decreases es
  {
    if es == [] then s else Run(Step(s, es[0]), es[1..])
  }

  lemma {:induction false} RunConcat(s: State, a: seq<Event>, b: seq<Event>)
    ensures Run(s, a + b) == Run(Run(s, a), b)
    decreases a
  {
    if a == [] {
      assert a + b == b;
    } else {
      assert (a + b)[1..] == a[1..] + b;
      RunConcat(Step(s, a[0]), a[1..], b);
    }
  }

  lemma RunOne(s: State, e: Event)
    ensures Run(s, [e]) == Step(s, e)
  {
    assert [e][1..] == [];
  }

  lemma RunNone(s: State)
    ensures Run(s, []) == s
  {
  }

  function Calls(es: seq<Event>): nat {
    if es == [] then 0 else (if es[0].Call? then 1 else 0) + Calls(es[1..])
  }

  lemma {:induction false} CallsConcat(a: seq<Event>, b: seq<Event>)
    ensures Calls(a + b) == Calls(a) + Calls(b)
  {
    if a == [] {
      assert a + b == b;
    } else {
      assert (a + b)[1..] == a[1..] + b;
      CallsConcat(a[1..], b);
    }
  }

  lemma {:induction false} CallsCounted(s: State, es: seq<Event>)
    ensures Run(s, es).calls == s.calls + Calls(es)
    decreases es
  {
    if es != [] {
      CallsCounted(Step(s, es[0]), es[1..]);
    }
  }

  /** At most one entry per counter and instance, and per property, in every entity's list. */
  ghost predicate Sound(s: State) {
    Unique(s.metrics) && Unique(s.properties)
  }

  lemma {:induction false} RunSound(s: State, es: seq<Event>)
    requires Sound(s)
    ensures Sound(Run(s, es))
    decreases es
  {
    if es != [] {
      match es[0] {
        case Set(ref, Metric(m)) => UniquePut(s.metrics, MorKey(ref), m);
        case Set(ref, Property(p)) => UniquePut(s.properties, MorKey(ref), p);
        case _ =>
      }
      RunSound(Step(s, es[0]), es[1..]);
    }
  }

  // ---------- Slots ----------

  /** One place an override can stand: an entity and a counter instance or a property. */
  datatype Slot = MetricSlot(key: string, counter: Counter) | PropertySlot(key: string, property: string)

  function SlotAt(key: string, o: Override): Slot {
    match o
    case Metric(m) => MetricSlot(key, m.key)
    case Property(p) => PropertySlot(key, p.key)
  }

  function SlotOf(ref: Ref, o: Override): Slot {
    SlotAt(MorKey(ref), o)
  }

  function ExpiryOf(o: Override): Expiry {
    match o
    case Metric(m) => m.expires
    case Property(p) => p.expires
  }

  function Lookup(s: State, slot: Slot): Option<Override> {
    match slot
    case MetricSlot(key, c) =>
      var e := Find(Row(s.metrics, key), c); if e.Some? then Some(Metric(e.value)) else None
    case PropertySlot(key, p) =>
      var e := Find(Row(s.properties, key), p); if e.Some? then Some(Property(e.value)) else None
  }

  /** What a reader at time `now` gets from a slot. */
  function Seen(s: State, slot: Slot, now: int): Option<Override> {
    var o := Lookup(s, slot);
    if o.Some? && Expired(ExpiryOf(o.value), now) then None else o
  }

  /** The net effect of events on one slot. */
  datatype Effect = Keep | Cleared | Wrote(o: Override)

  function Touch(e: Event, slot: Slot): Effect {
    match e
    case Set(ref, o) => if SlotOf(ref, o) == slot then Wrote(o) else Keep
    case ClearMetrics(ref) => if slot.MetricSlot? && slot.key == MorKey(ref) then Cleared else Keep
    case ClearProperties(ref) => if slot.PropertySlot? && slot.key == MorKey(ref) then Cleared else Keep
    case ClearAll => Cleared
    case Call(_, _, _) => Keep
  }

  /** The effect of the last event that touches the slot. */
  function Last(es: seq<Event>, slot: Slot): Effect {
    if es == [] then Keep
    else
      var later := Last(es[1..], slot);
      if later == Keep then Touch(es[0], slot) else later
  }

  lemma LastOfNone(slot: Slot)
    ensures Last([], slot) == Keep
  {
  }

  function After(before: Option<Override>, e: Effect): Option<Override> {
    match e
    case Keep => before
    case Cleared => None
    case Wrote(o) => Some(o)
  }

  lemma StepLookup(s: State, e: Event, slot: Slot)
    ensures Lookup(Step(s, e), slot) == After(Lookup(s, slot), Touch(e, slot))
  {
    match e {
      case Set(ref, Metric(m)) =>
        if slot.MetricSlot? {
          FindPut(s.metrics, MorKey(ref), m, slot.key, slot.counter);
        }
      case Set(ref, Property(p)) =>
        if slot.PropertySlot? {
          FindPut(s.properties, MorKey(ref), p, slot.key, slot.property);
        }
      case _ =>
    }
  }

  /** Lookups after any list of events depend on the events only through `Last`. */
  lemma {:induction false} RunLookup(s: State, es: seq<Event>, slot: Slot)
    ensures Lookup(Run(s, es), slot) == After(Lookup(s, slot), Last(es, slot))
    decreases es
  {
    if es != [] {
      StepLookup(s, es[0], slot);
      RunLookup(Step(s, es[0]), es[1..], slot);
    }
  }

  /** `Last` spelled out: an override stands in the slot because some event wrote it and no later
      event wrote the slot, cleared the entity or cleared everything; and so on. */
  lemma {:induction false} LastMeans(es: seq<Event>, slot: Slot)
    ensures Last(es, slot) == Keep <==> forall i :: 0 <= i < |es| ==> Touch(es[i], slot) == Keep
    ensures Last(es, slot) != Keep ==>
              exists i :: 0 <= i < |es| && Touch(es[i], slot) == Last(es, slot)
                          && forall j :: i < j < |es| ==> Touch(es[j], slot) == Keep
  {
    if es != [] {
      var rest := es[1..];
      LastMeans(rest, slot);
      assert forall i :: 1 <= i < |es| ==> es[i] == rest[i - 1];
      if Last(rest, slot) == Keep {
        assert forall j :: 0 < j < |es| ==> Touch(es[j], slot) == Keep;
        assert Touch(es[0], slot) == Last(es, slot);
      } else {
        var i :| 0 <= i < |rest| && Touch(rest[i], slot) == Last(rest, slot)
                 && forall j :: i < j < |rest| ==> Touch(rest[j], slot) == Keep;
        assert Touch(es[i + 1], slot) == Last(es, slot);
        forall j | i + 1 < j < |es| ensures Touch(es[j], slot) == Keep {
          assert Touch(rest[j - 1], slot) == Keep;
        }
      }
    }
  }

  function Over(a: Effect, b: Effect): Effect {
    if b == Keep then a else b
  }

  lemma {:induction false} LastConcat(a: seq<Event>, b: seq<Event>, slot: Slot)
    ensures Last(a + b, slot) == Over(Last(a, slot), Last(b, slot))
  {
    if a == [] {
      assert a + b == b;
    } else {
      assert (a + b)[1..] == a[1..] + b;
      LastConcat(a[1..], b, slot);
    }
  }

  // ---------- Independent events ----------

  /** Keys of the entities an event may affect in the registry. */
  function KeysOf(es: seq<Event>): set<string>
  {
    set e | e in es && (e.Set? || e.ClearMetrics? || e.ClearProperties?) :: MorKey(e.ref)
  }

  /** Registry events on named entities only: no task and no global clear. */
  predicate Local(es: seq<Event>) {
    forall e :: e in es ==> e.Set? || e.ClearMetrics? || e.ClearProperties?
  }

  lemma SwapRows<K, V>(t: Table<K, V>, k: string, a: Entry<K, V>, l: string, b: Entry<K, V>)
    requires k != l
    ensures Put(Put(t, k, a), l, b) == Put(Put(t, l, b), k, a)
    ensures Put(t, k, a) - {l} == Put(t - {l}, k, a)
    ensures t - {k} - {l} == t - {l} - {k}
  {
    SwapPuts(t, k, a, l, b);
    assert Put(t, k, a) - {l} == Put(t - {l}, k, a) by {
      hide Upsert;
      assert Row(t - {l}, k) == Row(t, k);
    }
  }

  lemma SwapPuts<K, V>(t: Table<K, V>, k: string, a: Entry<K, V>, l: string, b: Entry<K, V>)
    requires k != l
    ensures Put(Put(t, k, a), l, b) == Put(Put(t, l, b), k, a)
  {
    hide Upsert;
    assert Row(Put(t, k, a), l) == Row(t, l) && Row(Put(t, l, b), k) == Row(t, k);
  }

  lemma SwapTwo(s: State, a: Event, b: Event)
    requires Local([a]) && Local([b]) && MorKey(a.ref) != MorKey(b.ref)
    ensures Step(Step(s, a), b) == Step(Step(s, b), a)
  {
    assert a in [a] && b in [b];
    var k, l := MorKey(a.ref), MorKey(b.ref);
    if a.Set? {
      SwapSet(s, a, b);
    } else if b.Set? {
      SwapSet(s, b, a);
    } else {
      assert s.metrics - {k} - {l} == s.metrics - {l} - {k};
      assert s.properties - {k} - {l} == s.properties - {l} - {k};
    }
  }

  lemma SwapSet(s: State, a: Event, b: Event)
    requires a.Set? && Local([b]) && MorKey(a.ref) != MorKey(b.ref)
    ensures Step(Step(s, a), b) == Step(Step(s, b), a)
  {
    assert b in [b];
    var k, l := MorKey(a.ref), MorKey(b.ref);
    match a.o {
      case Metric(m) =>
        if b.Set? && b.o.Metric? {
          SwapRows(s.metrics, k, m, l, b.o.m);
        } else if b.ClearMetrics? {
          SwapRows(s.metrics, k, m, l, m);
        }
      case Property(p) =>
        if b.Set? && b.o.Property? {
          SwapRows(s.properties, k, p, l, b.o.p);
        } else if b.ClearProperties? {
          SwapRows(s.properties, k, p, l, p);
        }
    }
  }

  lemma {:induction false} SwapOne(s: State, a: Event, es: seq<Event>)
    requires Local([a]) && Local(es) && MorKey(a.ref) !in KeysOf(es)
    ensures Run(Step(s, a), es) == Step(Run(s, es), a)
    decreases es
  {
    if es != [] {
      assert a in [a] && es[0] in es;
      assert Local([es[0]]);
      SwapTwo(s, a, es[0]);
      SwapOne(Step(s, es[0]), a, es[1..]);
    }
  }

  /** Two event lists on disjoint entities commute: the resulting states are equal. */
  lemma {:induction false} DisjointCommute(s: State, a: seq<Event>, b: seq<Event>)
    requires Local(a) && Local(b) && KeysOf(a) !! KeysOf(b)
    ensures Run(s, a + b) == Run(s, b + a)
    decreases a
  {
    RunConcat(s, a, b);
    RunConcat(s, b, a);
    if a != [] {
      var rest := a[1..];
      assert a[0] in a && Local([a[0]]);
      DisjointCommute(Step(s, a[0]), rest, b);
      RunConcat(Step(s, a[0]), rest, b);
      RunConcat(Step(s, a[0]), b, rest);
      SwapOne(s, a[0], b);
    }
  }

  /** Events on other entities leave a slot alone. */
  lemma {:induction false} OutsideKeys(es: seq<Event>, slot: Slot)
    requires Local(es) && slot.key !in KeysOf(es)
    ensures Last(es, slot) == Keep
  {
    LastMeans(es, slot);
    forall i | 0 <= i < |es| ensures Touch(es[i], slot) == Keep {
      assert es[i] in es && MorKey(es[i].ref) in KeysOf(es);
    }
  }
}
