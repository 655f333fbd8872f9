/** The hardware health sensors of pkg/inventory/sensors.go. */
module Sensors {
  import opened Decimal
  import opened Samples

  datatype Sensor = Sensor(name: string, category: string, reading: int, units: string)

  /** The categories the poller buckets sensors by, as documented, without "other". */
  const CATEGORIES: set<string> := {
    "power", "fan", "temperature", "voltage", "memory", "battery",
    "watchdog", "storage", "systemboard", "bios", "cable", "processor"}

  /** The sensors every host has, in list order; loops go in between. */
  const FIXED: seq<Sensor> := [
    Sensor("VMware Rollup Health State", "system", 0, ""),
    Sensor("System Ambient Temp", "temperature", 22, "degrees C"),
    Sensor("System Board Temp", "temperature", 30, "degrees C"),
    Sensor("Power Supply 1", "power", 210, "Watts"),
    Sensor("Power Supply 2", "power", 205, "Watts"),
    Sensor("System Power Consumption", "power", 415, "Watts"),
    Sensor("Power Supply 1 Status", "power", 0, ""),
    Sensor("Power Supply 2 Status", "power", 0, ""),
    Sensor("Planar 3.3V", "voltage", 3, "Volts"),
    Sensor("Planar 5V", "voltage", 5, "Volts"),
    Sensor("Planar 12V", "voltage", 12, "Volts"),
    Sensor("CMOS Battery", "battery", 1, "Volts"),
    Sensor("ROMB Battery", "battery", 1, ""),
    Sensor("Storage Controller 0", "storage", 0, ""),
    Sensor("Drive Bay Status", "storage", 0, ""),
    Sensor("System Board Status", "systemboard", 0, ""),
    Sensor("Chassis Intrusion", "systemboard", 0, ""),
    Sensor("BIOS POST Status", "bios", 0, ""),
    Sensor("SAS Cable A", "cable", 0, ""),
    Sensor("IPMI Watchdog", "watchdog", 0, "")]

  /** Which sensor: a fixed one, or the i-th of a loop. */
  datatype Id = Fixed(k: nat) | CpuStatus(i: nat) | CpuTemp(i: nat) | Fan(i: nat) | CpuVcore(i: nat) | Dimm(i: nat)

  predicate Known(id: Id) {
    id.Fixed? ==> id.k < 20
  }

  function SensorOf(id: Id): Sensor
    requires Known(id)
  {
    match id
    case Fixed(k) => FIXED[k]
    case CpuStatus(i) => Sensor("CPU" + Dec(i) + " Status", "processor", 0, "")
    case CpuTemp(i) => Sensor("CPU" + Dec(i) + " Temp", "temperature", 55, "degrees C")
    case Fan(i) => Sensor("Fan" + Dec(i), "fan", 6000, "RPM")
    case CpuVcore(i) => Sensor("CPU" + Dec(i) + " Vcore", "voltage", 1, "Volts")
    case Dimm(i) => Sensor("DIMM " + Dec(i) + " Status", "memory", 0, "")
  }

  /** The sensor at position p of a host with s sockets and d DIMM sensors. */
  function IdAt(p: nat, s: nat, d: nat): (id: Id)
    requires p < 26 + 3 * s + d
    ensures Known(id)
  {
    if p == 0 then Fixed(0)
    else if p < 1 + s then CpuStatus(p - 1)
    else if p == 1 + s then Fixed(1)
    else if p < 2 + 2 * s then CpuTemp(p - 2 - s)
    else if p == 2 + 2 * s then Fixed(2)
    else if p < 9 + 2 * s then Fan(p - 2 - 2 * s)
    else if p < 17 + 2 * s then Fixed(p - 6 - 2 * s)
    else if p < 17 + 3 * s then CpuVcore(p - 17 - 2 * s)
    else if p < 17 + 3 * s + d then Dimm(p - 17 - 3 * s)
    else Fixed(p - 6 - 3 * s - d)
  }

  function Sockets(numCpuPkgs: int): nat {
    if numCpuPkgs < 1 then 1 else numCpuPkgs
  }

  const GIB32: int := 32 * 1024 * 1024 * 1024

  function Dimms(memoryBytes: int): nat {
    var n := Quot(memoryBytes, GIB32);
    if n < 4 then 4 else if n > 24 then 24 else n
  }

  /** The list so far is the first |s| sensors of the host. */
  ghost predicate Prefix(s: seq<Sensor>, sockets: nat, dimms: nat) {
    && |s| <= 26 + 3 * sockets + dimms
    && forall p :: 0 <= p < |s| ==> s[p] == SensorOf(IdAt(p, sockets, dimms))
  }

  lemma Extend(s: seq<Sensor>, x: Sensor, sockets: nat, dimms: nat)
    requires Prefix(s, sockets, dimms) && |s| < 26 + 3 * sockets + dimms
    requires x == SensorOf(IdAt(|s|, sockets, dimms))
    ensures Prefix(s + [x], sockets, dimms)
  {
    hide SensorOf, IdAt;
  }

  /** Append FIXED[from..to], one by one. */
  method AppendFixed(s0: seq<Sensor>, from: nat, to: nat, ghost offset: int, ghost sockets: nat, ghost dimms: nat)
    returns (s: seq<Sensor>)
    requires Prefix(s0, sockets, dimms) && from <= to <= 20 && |s0| == from + offset
    requires FixedRun(from, to, offset, sockets, dimms)
    ensures Prefix(s, sockets, dimms) && |s| == |s0| + to - from
  {
    hide SensorOf, IdAt;
    s := s0;
    for k := from to to
      invariant Prefix(s, sockets, dimms) && |s| == |s0| + k - from
    {
      assert FixedAt(k, offset, sockets, dimms);
      FixedSensor(k);
      Extend(s, FIXED[k], sockets, dimms);
      s := s + [FIXED[k]];
    }
  }

  /** The k-th fixed sensor stands at position k + offset. */
  ghost predicate FixedAt(k: int, offset: int, sockets: nat, dimms: nat) {
    0 <= k && 0 <= k + offset < 26 + 3 * sockets + dimms && IdAt(k + offset, sockets, dimms) == Fixed(k)
  }

  ghost predicate FixedRun(from: int, to: int, offset: int, sockets: nat, dimms: nat) {
    forall k :: from <= k < to ==> FixedAt(k, offset, sockets, dimms)
  }

  lemma FixedPositions(sockets: nat, dimms: nat)
    requires sockets >= 1
    ensures FixedRun(0, 1, 0, sockets, dimms) && FixedRun(1, 2, sockets, sockets, dimms)
    ensures FixedRun(2, 3, 2 * sockets, sockets, dimms) && FixedRun(3, 11, 6 + 2 * sockets, sockets, dimms)
    ensures FixedRun(11, 20, 6 + 3 * sockets + dimms, sockets, dimms)
  {
  }

  lemma FixedSensor(k: nat)
    requires k < 20
    ensures SensorOf(Fixed(k)) == FIXED[k]
  {
  }

  method AppendCpuStatus(s0: seq<Sensor>, n: nat, ghost sockets: nat, ghost dimms: nat) returns (s: seq<Sensor>)
    requires Prefix(s0, sockets, dimms) && |s0| == 1 && n == sockets
    ensures Prefix(s, sockets, dimms) && |s| == 1 + n
  {
    hide SensorOf;
    s := s0;
    for i := 0 to n
      invariant Prefix(s, sockets, dimms) && |s| == 1 + i
    {
      LoopSensors(i);
      var next := Sensor("CPU" + Dec(i) + " Status", "processor", 0, "");
      Extend(s, next, sockets, dimms);
      s := s + [next];
    }
  }

  method AppendCpuTemp(s0: seq<Sensor>, n: nat, ghost sockets: nat, ghost dimms: nat) returns (s: seq<Sensor>)
    requires Prefix(s0, sockets, dimms) && |s0| == 2 + sockets && n == sockets
    ensures Prefix(s, sockets, dimms) && |s| == 2 + sockets + n
  {
    hide SensorOf;
    s := s0;
    for i := 0 to n
      invariant Prefix(s, sockets, dimms) && |s| == 2 + sockets + i
    {
      LoopSensors(i);
      var next := Sensor("CPU" + Dec(i) + " Temp", "temperature", 55, "degrees C");
      Extend(s, next, sockets, dimms);
      s := s + [next];
    }
  }

  method AppendFans(s0: seq<Sensor>, n: nat, ghost sockets: nat, ghost dimms: nat) returns (s: seq<Sensor>)
    requires Prefix(s0, sockets, dimms) && |s0| == 3 + 2 * sockets && n == 6
    ensures Prefix(s, sockets, dimms) && |s| == 3 + 2 * sockets + n
  {
    hide SensorOf;
    s := s0;
    for i := 1 to n + 1
      invariant Prefix(s, sockets, dimms) && |s| == 3 + 2 * sockets + i - 1
    {
      LoopSensors(i);
      var next := Sensor("Fan" + Dec(i), "fan", 6000, "RPM");
      Extend(s, next, sockets, dimms);
      s := s + [next];
    }
  }

  method AppendCpuVcore(s0: seq<Sensor>, n: nat, ghost sockets: nat, ghost dimms: nat) returns (s: seq<Sensor>)
    requires Prefix(s0, sockets, dimms) && |s0| == 17 + 2 * sockets && n == sockets
    ensures Prefix(s, sockets, dimms) && |s| == 17 + 2 * sockets + n
  {
    hide SensorOf;
    s := s0;
    for i := 0 to n
      invariant Prefix(s, sockets, dimms) && |s| == 17 + 2 * sockets + i
    {
      LoopSensors(i);
      var next := Sensor("CPU" + Dec(i) + " Vcore", "voltage", 1, "Volts");
      Extend(s, next, sockets, dimms);
      s := s + [next];
    }
  }

  method AppendDimms(s0: seq<Sensor>, n: nat, ghost sockets: nat, ghost dimms: nat) returns (s: seq<Sensor>)
    requires Prefix(s0, sockets, dimms) && |s0| == 17 + 3 * sockets && n == dimms
    ensures Prefix(s, sockets, dimms) && |s| == 17 + 3 * sockets + n
  {
    hide SensorOf;
    s := s0;
    for i := 0 to n
      invariant Prefix(s, sockets, dimms) && |s| == 17 + 3 * sockets + i
    {
      LoopSensors(i);
      var next := Sensor("DIMM " + Dec(i) + " Status", "memory", 0, "");
      Extend(s, next, sockets, dimms);
      s := s + [next];
    }
  }

  method BuildSensors(numCpuPkgs: int, memoryBytes: int) returns (s: seq<Sensor>)
    ensures |s| == 26 + 3 * Sockets(numCpuPkgs) + Dimms(memoryBytes)
    ensures forall p :: 0 <= p < |s| ==> s[p] == SensorOf(IdAt(p, Sockets(numCpuPkgs), Dimms(memoryBytes)))
  {
    hide SensorOf, IdAt, FixedAt, FixedRun;
    var sockets := numCpuPkgs;
    if sockets < 1 {
      sockets := 1;
    }
    var dimms := Quot(memoryBytes, GIB32);
    if dimms < 4 {
      dimms := 4;
    }
    if dimms > 24 {
      dimms := 24;
    }
    FixedPositions(sockets, dimms);
    s := AppendFixed([], 0, 1, 0, sockets, dimms);
    s := AppendCpuStatus(s, sockets, sockets, dimms);
    s := AppendFixed(s, 1, 2, sockets, sockets, dimms);
    s := AppendCpuTemp(s, sockets, sockets, dimms);
    s := AppendFixed(s, 2, 3, 2 * sockets, sockets, dimms);
    s := AppendFans(s, 6, sockets, dimms);
    s := AppendFixed(s, 3, 11, 6 + 2 * sockets, sockets, dimms);
    s := AppendCpuVcore(s, sockets, sockets, dimms);
    s := AppendDimms(s, dimms, sockets, dimms);
    s := AppendFixed(s, 11, 20, 6 + 3 * sockets + dimms, sockets, dimms);
  }

  /** SensorOf on the loop sensors. */
  lemma LoopSensors(i: nat)
    ensures SensorOf(CpuStatus(i)) == Sensor("CPU" + Dec(i) + " Status", "processor", 0, "")
    ensures SensorOf(CpuTemp(i)) == Sensor("CPU" + Dec(i) + " Temp", "temperature", 55, "degrees C")
    ensures SensorOf(Fan(i)) == Sensor("Fan" + Dec(i), "fan", 6000, "RPM")
    ensures SensorOf(CpuVcore(i)) == Sensor("CPU" + Dec(i) + " Vcore", "voltage", 1, "Volts")
    ensures SensorOf(Dimm(i)) == Sensor("DIMM " + Dec(i) + " Status", "memory", 0, "")
  {
  }

  // ---------- Names are distinct ----------

  lemma FixedApart(k: nat, l: nat)
    requires k < l < 20
    ensures FIXED[k].name != FIXED[l].name
  {
  }

  /** No fixed name starts like a loop's. */
  lemma FixedHead(k: nat)
    requires k < 20
    ensures var n := FIXED[k].name;
            |n| >= 3 && !(n[0] == 'C' && n[1] == 'P') && n[0] != 'F' && !(n[0] == 'D' && n[1] == 'I')
  {
  }

  /** How a loop sensor's name is composed. */
  function Head(id: Id): string
    requires !id.Fixed?
  {
    match id
    case Fan(_) => "Fan"
    case Dimm(_) => "DIMM "
    case _ => "CPU"
  }

  function Tail(id: Id): string
    requires !id.Fixed?
  {
    match id
    case CpuStatus(_) => " Status"
    case CpuTemp(_) => " Temp"
    case CpuVcore(_) => " Vcore"
    case Dimm(_) => " Status"
    case Fan(_) => ""
  }

  lemma Composed(id: Id)
    requires !id.Fixed?
    ensures SensorOf(id).name == Head(id) + (Dec(id.i) + Tail(id))
    ensures SensorOf(id).name[0] == Head(id)[0] && SensorOf(id).name[1] == Head(id)[1]
  {
    hide Dec;
    if id.Fan? {
      assert Dec(id.i) + "" == Dec(id.i);
    }
  }

  lemma LoopApart(a: Id, b: Id)
    requires !a.Fixed? && !b.Fixed? && SensorOf(a).name == SensorOf(b).name
    ensures a == b
  {
    hide SensorOf;
    Composed(a);
    Composed(b);
    assert Head(a) == Head(b);
    DropCommon(Head(a), Dec(a.i) + Tail(a), Dec(b.i) + Tail(b));
    if a.Fan? {
      assert Dec(a.i) + "" == Dec(a.i) && Dec(b.i) + "" == Dec(b.i);
    } else {
      DigitRunThenRest(Dec(a.i), Tail(a), Dec(b.i), Tail(b));
    }
    DecInjective(a.i, b.i);
  }

  lemma MixedApart(k: nat, l: Id)
    requires k < 20 && !l.Fixed?
    ensures FIXED[k].name != SensorOf(l).name
  {
    FixedHead(k);
    Composed(l);
  }

  lemma NamesApart(a: Id, b: Id)
    requires Known(a) && Known(b) && a != b
    ensures SensorOf(a).name != SensorOf(b).name
  {
    if a.Fixed? && b.Fixed? {
      FixedApart(if a.k < b.k then a.k else b.k, if a.k < b.k then b.k else a.k);
    } else if a.Fixed? {
      MixedApart(a.k, b);
    } else if b.Fixed? {
      MixedApart(b.k, a);
    } else if SensorOf(a).name == SensorOf(b).name {
      LoopApart(a, b);
    }
  }

  /** Different positions hold different sensors. */
  lemma PositionsApart(p: nat, q: nat, s: nat, d: nat)
    requires p < q < 26 + 3 * s + d
    ensures IdAt(p, s, d) != IdAt(q, s, d)
  {
  }

  /** All sensor names of a host are pairwise distinct, whatever its socket count and memory. */
  lemma SensorNamesDistinct(p: nat, q: nat, numCpuPkgs: int, memoryBytes: int)
    requires p < q < 26 + 3 * Sockets(numCpuPkgs) + Dimms(memoryBytes)
    ensures var s, d := Sockets(numCpuPkgs), Dimms(memoryBytes);
            SensorOf(IdAt(p, s, d)).name != SensorOf(IdAt(q, s, d)).name
  {
    hide SensorOf, IdAt;
    var s, d := Sockets(numCpuPkgs), Dimms(memoryBytes);
    PositionsApart(p, q, s, d);
    NamesApart(IdAt(p, s, d), IdAt(q, s, d));
  }

  // ---------- Categories are covered ----------

  function Representative(category: string): Id
    requires category in CATEGORIES
  {
    if category == "power" then Fixed(3)
    else if category == "fan" then Fan(1)
    else if category == "temperature" then Fixed(1)
    else if category == "voltage" then Fixed(8)
    else if category == "memory" then Dimm(0)
    else if category == "battery" then Fixed(11)
    else if category == "watchdog" then Fixed(19)
    else if category == "storage" then Fixed(13)
    else if category == "systemboard" then Fixed(15)
    else if category == "bios" then Fixed(17)
    else if category == "cable" then Fixed(18)
    else CpuStatus(0)
  }

  function PositionOf(id: Id, s: nat, d: nat): nat
    requires Known(id)
  {
    match id
    case Fixed(k) =>
      if k == 0 then 0 else if k == 1 then 1 + s else if k == 2 then 2 + 2 * s
      else if k < 11 then k + 6 + 2 * s else k + 6 + 3 * s + d
    case CpuStatus(i) => 1 + i
    case CpuTemp(i) => 2 + s + i
    case Fan(i) => 2 + 2 * s + i
    case CpuVcore(i) => 17 + 2 * s + i
    case Dimm(i) => 17 + 3 * s + i
  }

  /** Every documented category but "other" has a sensor on every host; no sensor falls outside
      them except the first, of type "system", which the poller counts as "other". */
  lemma CategoriesCovered(numCpuPkgs: int, memoryBytes: int, category: string)
    requires category in CATEGORIES
    ensures var s, d := Sockets(numCpuPkgs), Dimms(memoryBytes);
            && (exists p :: 0 <= p < 26 + 3 * s + d && SensorOf(IdAt(p, s, d)).category == category)
            && (forall p :: 0 <= p < 26 + 3 * s + d ==>
                  if p == 0 then SensorOf(IdAt(p, s, d)).category == "system" && "system" !in CATEGORIES
                  else SensorOf(IdAt(p, s, d)).category in CATEGORIES)
  {
    var s, d := Sockets(numCpuPkgs), Dimms(memoryBytes);
    RepresentativeStands(category, s, d);
    SystemIsOther();
    forall p | 0 < p < 26 + 3 * s + d ensures SensorOf(IdAt(p, s, d)).category in CATEGORIES {
      CategoryOf(IdAt(p, s, d));
    }
  }

  lemma SystemIsOther()
    ensures FIXED[0].category == "system" && "system" !in CATEGORIES
  {
  }

  lemma CategoryOf(id: Id)
    requires Known(id) && id != Fixed(0)
    ensures SensorOf(id).category in CATEGORIES
  {
  }

  lemma RepresentativeStands(category: string, s: nat, d: nat)
    requires category in CATEGORIES && s >= 1 && d >= 4
    ensures var p := PositionOf(Representative(category), s, d);
            p < 26 + 3 * s + d && SensorOf(IdAt(p, s, d)).category == category
  {
    var id := Representative(category);
    assert IdAt(PositionOf(id, s, d), s, d) == id;
  }

  // ---------- Counts and readings ----------

  /** One DIMM sensor for each full 32 GiB, but at least 4 and at most 24; one set of socket sensors for each
      socket, but at least one. */
  lemma SensorCounts(numCpuPkgs: int, memoryBytes: int)
    ensures Sockets(numCpuPkgs) >= 1 && (numCpuPkgs >= 1 ==> Sockets(numCpuPkgs) == numCpuPkgs)
    ensures 4 <= Dimms(memoryBytes) <= 24
    ensures 4 < Dimms(memoryBytes) ==> Dimms(memoryBytes) * 34_359_738_368 <= memoryBytes
    ensures Dimms(memoryBytes) < 24 ==> memoryBytes < (Dimms(memoryBytes) + 1) * 34_359_738_368
  {
  }

  /** Where each sensor stands, for s sockets and d DIMM sensors. */
  lemma SensorPositions(s: nat, d: nat, i: nat)
    requires s >= 1
    ensures SensorOf(IdAt(0, s, d)).name == "VMware Rollup Health State"
    ensures SensorOf(IdAt(1 + s, s, d)).name == "System Ambient Temp"
    ensures SensorOf(IdAt(2 + 2 * s, s, d)).name == "System Board Temp"
    ensures i < s ==> SensorOf(IdAt(1 + i, s, d)).name == "CPU" + Dec(i) + " Status"
    ensures i < s ==> SensorOf(IdAt(2 + s + i, s, d)).name == "CPU" + Dec(i) + " Temp"
    ensures 1 <= i <= 6 ==> SensorOf(IdAt(2 + 2 * s + i, s, d)).name == "Fan" + Dec(i)
    ensures i < s ==> SensorOf(IdAt(17 + 2 * s + i, s, d)).name == "CPU" + Dec(i) + " Vcore"
    ensures i < d ==> SensorOf(IdAt(17 + 3 * s + i, s, d)).name == "DIMM " + Dec(i) + " Status"
  {
    hide Dec;
  }

  /** The power readings stand together, and the third is the sum of the supplies. */
  lemma PowerAddsUp(s: nat, d: nat)
    requires s >= 1
    ensures SensorOf(IdAt(9 + 2 * s, s, d)) == Sensor("Power Supply 1", "power", 210, "Watts")
    ensures SensorOf(IdAt(10 + 2 * s, s, d)) == Sensor("Power Supply 2", "power", 205, "Watts")
    ensures SensorOf(IdAt(11 + 2 * s, s, d)) == Sensor("System Power Consumption", "power", 210 + 205, "Watts")
  {
    hide Dec;
  }
}
