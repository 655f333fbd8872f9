/** The override registry of pkg/overrides/overrides.go: per entity a list of overrides, replaced
    in place by key and expired lazily when read. The list operations are specified by functions;
    the `Registry` class carries them out with the source's loops. */
module Overrides {
  import opened Wrappers

  // ---------- Entities and entries ----------

  datatype Ref = Ref(typ: string, value: string, serverGuid: string)

  /** The map key of an entity: type and value only, so the server GUID does not matter. */
  function MorKey(r: Ref): string {
    r.typ + ":" + r.value
  }

  /** The zero time means "until cleared". */
  datatype Expiry = Never | At(when: int)

  predicate Expired(e: Expiry, now: int) {
    e.At? && now > e.when
  }

  datatype Entry<K(==), V> = Entry(key: K, value: V, expires: Expiry)

  /** What identifies a metric override within an entity. */
  datatype Counter = Counter(id: int, inst: string)

  datatype PropValue = Number(n: int) | Flag(b: bool) | Text(s: string)

  type MetricOverride = Entry<Counter, seq<int>>
  type PropertyOverride = Entry<string, PropValue>

  // ---------- One entity's list ----------

  /** First entry with the given key. */
  function Find<K(==), V>(list: seq<Entry<K, V>>, k: K): (r: Option<Entry<K, V>>)
    ensures r.Some? ==> r.value in list && r.value.key == k
    ensures r.None? ==> forall e :: e in list ==> e.key != k
  {
    if list == [] then None
    else if list[0].key == k then Some(list[0])
    else Find(list[1..], k)
  }

  /** Replace the first entry with e's key, or append e. */
  function Upsert<K(==), V>(list: seq<Entry<K, V>>, e: Entry<K, V>): seq<Entry<K, V>> {
    if list == [] then [e]
    else if list[0].key == e.key then [e] + list[1..]
    else [list[0]] + Upsert(list[1..], e)
  }

  /** The entries that have not expired, in order. */
  function Live<K(==), V>(list: seq<Entry<K, V>>, now: int): (r: seq<Entry<K, V>>)
    ensures forall e :: e in r ==> e in list && !Expired(e.expires, now)
    ensures forall e :: e in list && !Expired(e.expires, now) ==> e in r
  {
    if list == [] then []
    else if Expired(list[0].expires, now) then Live(list[1..], now)
    else [list[0]] + Live(list[1..], now)
  }

  ghost predicate Distinct<K, V>(list: seq<Entry<K, V>>) {
    forall i, j :: 0 <= i < j < |list| ==> list[i].key != list[j].key
  }

  /** An entry as a reader sees it: absent once expired. */
  function Visible<K(==), V>(e: Option<Entry<K, V>>, now: int): Option<Entry<K, V>> {
    if e.Some? && Expired(e.value.expires, now) then None else e
  }

  lemma {:induction false} UpsertAt<K, V>(list: seq<Entry<K, V>>, e: Entry<K, V>, i: nat)
    requires i <= |list|
    requires forall j :: 0 <= j < i ==> list[j].key != e.key
    requires i < |list| ==> list[i].key == e.key
    ensures Upsert(list, e) == if i < |list| then list[i := e] else list + [e]
  {
    if list != [] && i > 0 {
      UpsertAt(list[1..], e, i - 1);
      assert list == [list[0]] + list[1..];
    }
  }

  /** A write changes the answer for its own key and for no other. */
  lemma {:induction false} FindUpsert<K, V>(list: seq<Entry<K, V>>, e: Entry<K, V>, k: K)
    ensures Find(Upsert(list, e), k) == if k == e.key then Some(e) else Find(list, k)
  {
    if list != [] && list[0].key != e.key {
      FindUpsert(list[1..], e, k);
      assert Upsert(list, e)[1..] == Upsert(list[1..], e);
    } else if list != [] {
      assert Upsert(list, e)[1..] == list[1..];
    } else {
      assert Upsert(list, e)[1..] == [];
    }
  }

  lemma {:induction false} UpsertKeys<K, V>(list: seq<Entry<K, V>>, e: Entry<K, V>)
    ensures forall x :: x in Upsert(list, e) ==> x == e || x in list
  {
    if list != [] {
      UpsertKeys(list[1..], e);
    }
  }

  lemma {:induction false} DistinctUpsert<K, V>(list: seq<Entry<K, V>>, e: Entry<K, V>)
    requires Distinct(list)
    ensures Distinct(Upsert(list, e))
  {
    if list != [] {
      var rest := list[1..];
      assert Distinct(rest);
      DistinctUpsert(rest, e);
      UpsertKeys(rest, e);
      if list[0].key != e.key {
        var u := Upsert(rest, e);
        forall j | 0 <= j < |u| ensures u[j].key != list[0].key {
          assert u[j] in u;
          if u[j] != e {
            assert u[j] in rest;
          }
        }
      }
    }
  }

  lemma {:induction false} FindDistinct<K, V>(list: seq<Entry<K, V>>, e: Entry<K, V>)
    requires Distinct(list) && e in list
    ensures Find(list, e.key) == Some(e)
  {
    if list[0] != e {
      assert e in list[1..];
      var i :| 1 <= i < |list| && list[i] == e;
      assert list[0].key != list[i].key;
      assert Distinct(list[1..]);
      FindDistinct(list[1..], e);
    }
  }

  /** The two ways the source reads an entity agree on a duplicate-free list: stop at the first
      match and test its expiry (GetProperty), or filter the list and search it (GetMetrics and
      the query hook). */
  lemma {:induction false} FindLive<K, V>(list: seq<Entry<K, V>>, k: K, now: int)
    requires Distinct(list)
    ensures Find(Live(list, now), k) == Visible(Find(list, k), now)
  {
    if list != [] {
      assert Distinct(list[1..]);
      FindLive(list[1..], k, now);
      if !Expired(list[0].expires, now) {
        assert Live(list, now)[1..] == Live(list[1..], now);
      } else if list[0].key == k {
        assert forall e :: e in list[1..] ==> e.key != k;
      }
    }
  }

  /** Without that, they disagree: a stale duplicate hides a live one from the first reader only. */
  lemma DuplicateSplitsReaders()
    ensures exists list: seq<PropertyOverride>, p: string, now: int ::
              Find(Live(list, now), p) != Visible(Find(list, p), now)
  {
    var stale: PropertyOverride := Entry("p", Flag(true), At(0));
    var renewed: PropertyOverride := Entry("p", Flag(true), Never);
    var list := [stale, renewed];
    assert list[1..] == [renewed] && [renewed][1..] == [];
    assert Live(list, 1) == Live([renewed], 1) == [renewed];
    assert Find(Live(list, 1), "p") != Visible(Find(list, "p"), 1);
  }

  /** Exactly when the two readers agree, on any list: unless the first match has expired and a later
      one has not. */
  lemma {:induction false} ReadersAgree<K, V>(list: seq<Entry<K, V>>, k: K, now: int)
    ensures Find(Live(list, now), k) == Visible(Find(list, k), now)
            <==> !(Find(list, k).Some? && Expired(Find(list, k).value.expires, now)
                   && exists e :: e in list && e.key == k && !Expired(e.expires, now))
  {
    if list != [] {
      var rest := list[1..];
      assert list == [list[0]] + rest;
      assert Live(list, now) != Live(rest, now) ==> Live(list, now)[1..] == Live(rest, now);
      if list[0].key != k {
        ReadersAgree(rest, k, now);
      } else if Expired(list[0].expires, now) {
        var r := Find(Live(rest, now), k);
        assert r.Some? ==> r.value in list;
      }
    }
  }

  // ---------- All entities ----------

  type Table<!K(==), V> = map<string, seq<Entry<K, V>>>

  function Row<K(==), V>(t: Table<K, V>, key: string): seq<Entry<K, V>> {
    if key in t then t[key] else []
  }

  function Put<K(==), V>(t: Table<K, V>, key: string, e: Entry<K, V>): Table<K, V> {
    t[key := Upsert(Row(t, key), e)]
  }

  ghost predicate Unique<K, V>(t: Table<K, V>) {
    forall key :: key in t ==> Distinct(t[key])
  }

  lemma UniquePut<K, V>(t: Table<K, V>, key: string, e: Entry<K, V>)
    requires Unique(t)
    ensures Unique(Put(t, key, e))
  {
    DistinctUpsert(Row(t, key), e);
  }

  lemma FindPut<K, V>(t: Table<K, V>, key: string, e: Entry<K, V>, key': string, k: K)
    ensures Find(Row(Put(t, key, e), key'), k)
            == if key' == key && k == e.key then Some(e) else Find(Row(t, key'), k)
  {
    FindUpsert(Row(t, key), e, k);
  }

  /** References that differ only in server GUID share state; for colon-free type names (all of
      vSphere's) nothing else does. */
  lemma MorKeyInjective(a: Ref, b: Ref)
    requires ':' !in a.typ && ':' !in b.typ
    ensures MorKey(a) == MorKey(b) <==> a.typ == b.typ && a.value == b.value
  {
    var s, t := MorKey(a), MorKey(b);
    if s == t {
      assert s[|a.typ|] == ':' && t[|b.typ|] == ':';
      assert forall i :: 0 <= i < |a.typ| ==> s[i] == a.typ[i] && a.typ[i] in a.typ;
      assert forall i :: 0 <= i < |b.typ| ==> t[i] == b.typ[i] && b.typ[i] in b.typ;
      assert |a.typ| == |b.typ|;
      assert s[..|a.typ|] == a.typ && t[..|b.typ|] == b.typ;
      assert s[|a.typ| + 1..] == a.value && t[|b.typ| + 1..] == b.value;
    }
  }

  /** A colon in a type name makes two entities collide. */
  lemma MorKeyCollision()
    ensures exists a: Ref, b: Ref :: MorKey(a) == MorKey(b) && (a.typ != b.typ || a.value != b.value)
  {
    var a, b := Ref("a:b", "c", ""), Ref("a", "b:c", "");
    assert a.typ[1] == ':';
    assert MorKey(a) == "a:b:c" == MorKey(b);
  }

  /** t is s followed by a colon and possibly more. */
  predicate ColonExtends(s: string, t: string) {
    |s| < |t| && t[..|s|] == s && t[|s|] == ':'
  }

  /** Exactly when two type names keep their entities apart, whatever the values: they are the same, or
      neither is the other followed by a colon. */
  lemma MorTypesApart(s: string, t: string)
    ensures (forall a: Ref, b: Ref :: a.typ == s && b.typ == t && MorKey(a) == MorKey(b) ==>
               s == t && a.value == b.value)
            <==> s == t || (!ColonExtends(s, t) && !ColonExtends(t, s))
  {
    if s != t && ColonExtends(s, t) {
      ExtendedCollides(s, t);
    } else if s != t && ColonExtends(t, s) {
      ExtendedCollides(t, s);
    } else {
      forall a: Ref, b: Ref | a.typ == s && b.typ == t && MorKey(a) == MorKey(b) ensures s == t && a.value == b.value {
        KeysApart(a, b);
      }
    }
  }

  lemma ExtendedCollides(s: string, t: string)
    requires ColonExtends(s, t)
    ensures exists a: Ref, b: Ref :: a.typ == s && b.typ == t && MorKey(a) == MorKey(b)
  {
    var a, b := Ref(s, t[|s| + 1..] + ":", ""), Ref(t, "", "");
    assert t == s + ":" + t[|s| + 1..];
    assert MorKey(a) == MorKey(b);
  }

  lemma ShorterTypeExtends(a: Ref, b: Ref)
    requires MorKey(a) == MorKey(b) && |a.typ| < |b.typ|
    ensures ColonExtends(a.typ, b.typ)
  {
    var k := MorKey(a);
    assert k[..|b.typ|] == b.typ && k[..|a.typ|] == a.typ && k[|a.typ|] == ':';
    assert b.typ[|a.typ|] == k[|a.typ|];
    assert b.typ[..|a.typ|] == k[..|b.typ|][..|a.typ|];
  }

  lemma KeysApart(a: Ref, b: Ref)
    requires MorKey(a) == MorKey(b) && !ColonExtends(a.typ, b.typ) && !ColonExtends(b.typ, a.typ)
    ensures a.typ == b.typ && a.value == b.value
  {
    var k, n := MorKey(a), |a.typ|;
    if |a.typ| < |b.typ| {
      ShorterTypeExtends(a, b);
    } else if |b.typ| < |a.typ| {
      ShorterTypeExtends(b, a);
    } else {
      assert k[..n] == a.typ && k[n + 1..] == a.value;
      assert k[..n] == b.typ && k[n + 1..] == b.value;
    }
  }

  // ---------- The registry ----------

  class Registry {
    var metrics: Table<Counter, seq<int>>
    var properties: Table<string, PropValue>

    ghost predicate Valid()
      reads this
    {
      Unique(metrics) && Unique(properties)
    }

    constructor ()
      ensures Valid() && metrics == map[] && properties == map[]
    {
      metrics, properties := map[], map[];
    }

    method SetMetric(ref: Ref, o: MetricOverride)
      requires Valid()
      modifies this`metrics
      ensures Valid() && metrics == Put(old(metrics), MorKey(ref), o)
    {
      var key := MorKey(ref);
      var list := Row(metrics, key);
      UniquePut(metrics, key, o);
      for i := 0 to |list|
        invariant metrics == old(metrics)
        invariant forall j :: 0 <= j < i ==> list[j].key != o.key
      {
        if list[i].key == o.key {
          UpsertAt(list, o, i);
          metrics := metrics[key := list[i := o]];
          return;
        }
      }
      UpsertAt(list, o, |list|);
      metrics := metrics[key := list + [o]];
    }

    method GetMetrics(ref: Ref, now: int) returns (result: seq<MetricOverride>)
      requires Valid()
      ensures result == Live(Row(metrics, MorKey(ref)), now)
    {
      hide Valid, Live;
      result := [];
      var list := Row(metrics, MorKey(ref));
      LiveNone(list, now);
      for i := 0 to |list|
        invariant result + Live(list[i..], now) == Live(list, now)
      {
        LiveFrom(list, i, now);
        if Expired(list[i].expires, now) {
          continue;
        }
        result := result + [list[i]];
      }
    }

    method ClearMetrics(ref: Ref)
      requires Valid()
      modifies this`metrics
      ensures Valid() && metrics == old(metrics) - {MorKey(ref)}
    {
      metrics := metrics - {MorKey(ref)};
    }

    method ClearAllMetrics()
      requires Valid()
      modifies this`metrics
      ensures Valid() && metrics == map[]
    {
      metrics := map[];
    }

    method SetProperty(ref: Ref, o: PropertyOverride)
      requires Valid()
      modifies this`properties
      ensures Valid() && properties == Put(old(properties), MorKey(ref), o)
    {
      var key := MorKey(ref);
      var list := Row(properties, key);
      UniquePut(properties, key, o);
      for i := 0 to |list|
        invariant properties == old(properties)
        invariant forall j :: 0 <= j < i ==> list[j].key != o.key
      {
        if list[i].key == o.key {
          UpsertAt(list, o, i);
          properties := properties[key := list[i := o]];
          return;
        }
      }
      UpsertAt(list, o, |list|);
      properties := properties[key := list + [o]];
    }

    /** Answers with the value exactly when GetProperties lists it. */
    method GetProperty(ref: Ref, prop: string, now: int) returns (r: Option<PropValue>)
      requires Valid()
      ensures r == PropertyAnswer(properties, ref, prop, now)
      ensures forall v :: r == Some(v) <==>
                exists e :: e in Live(Row(properties, MorKey(ref)), now) && e.key == prop && e.value == v
    {
      var list := Row(properties, MorKey(ref));
      FindLive(list, prop, now);
      for i := 0 to |list|
        invariant Find(list, prop) == Find(list[i..], prop)
      {
        if list[i].key == prop {
          assert Find(list, prop) == Some(list[i]);
          if Expired(list[i].expires, now) {
            NoneLive(list, prop, now);
            return None;
          }
          OneLive(list, list[i], now);
          return Some(list[i].value);
        }
      }
      return None;
    }

    method GetProperties(ref: Ref, now: int) returns (result: seq<PropertyOverride>)
      requires Valid()
      ensures result == Live(Row(properties, MorKey(ref)), now)
    {
      hide Valid, Live;
      result := [];
      var list := Row(properties, MorKey(ref));
      LiveNone(list, now);
      for i := 0 to |list|
        invariant result + Live(list[i..], now) == Live(list, now)
      {
        LiveFrom(list, i, now);
        if Expired(list[i].expires, now) {
          continue;
        }
        result := result + [list[i]];
      }
    }

    method ClearProperties(ref: Ref)
      requires Valid()
      modifies this`properties
      ensures Valid() && properties == old(properties) - {MorKey(ref)}
    {
      properties := properties - {MorKey(ref)};
    }

    method ClearAll()
      requires Valid()
      modifies this
      ensures Valid() && metrics == map[] && properties == map[]
    {
      metrics, properties := map[], map[];
    }
  }

  function PropertyAnswer(t: Table<string, PropValue>, ref: Ref, prop: string, now: int): Option<PropValue> {
    var e := Visible(Find(Row(t, MorKey(ref)), prop), now);
    if e.Some? then Some(e.value.value) else None
  }

  lemma LiveFrom<K, V>(list: seq<Entry<K, V>>, i: nat, now: int)
    requires i < |list|
    ensures Live(list[i..], now)
            == (if Expired(list[i].expires, now) then [] else [list[i]]) + Live(list[i + 1..], now)
  {
    assert list[i..][1..] == list[i + 1..];
  }

  lemma LiveNone<K, V>(list: seq<Entry<K, V>>, now: int)
    ensures list[0..] == list && Live(list[|list|..], now) == []
  {
  }

  lemma NoneLive<K, V>(list: seq<Entry<K, V>>, k: K, now: int)
    requires Distinct(list) && Visible(Find(list, k), now).None?
    ensures forall e :: e in Live(list, now) ==> e.key != k
  {
    FindLive(list, k, now);
  }

  lemma OneLive<K, V>(list: seq<Entry<K, V>>, x: Entry<K, V>, now: int)
    requires Distinct(list) && x in list && !Expired(x.expires, now)
    ensures x in Live(list, now)
    ensures forall e :: e in Live(list, now) && e.key == x.key ==> e == x
  {
    forall e | e in Live(list, now) && e.key == x.key ensures e == x {
      FindDistinct(list, e);
      FindDistinct(list, x);
    }
  }

  /** The QueryPerf hook of cmd/vcsim/main.go: first live override of the counter and instance. */
  method MetricOverrideFunc(reg: Registry, entity: Ref, counterID: int, inst: string, now: int)
    returns (values: Option<seq<int>>)
    requires reg.Valid()
    ensures values == HookAnswer(reg.metrics, entity, counterID, inst, now)
  {
    var metrics := reg.GetMetrics(entity, now);
    var k := Counter(counterID, inst);
    FindLive(Row(reg.metrics, MorKey(entity)), k, now);
    for i := 0 to |metrics|
      invariant Find(metrics, k) == Find(metrics[i..], k)
    {
      if metrics[i].key.id == counterID && metrics[i].key.inst == inst {
        return Some(metrics[i].value);
      }
    }
    return None;
  }

  function HookAnswer(t: Table<Counter, seq<int>>, entity: Ref, counterID: int, inst: string, now: int)
    : Option<seq<int>>
  {
    var e := Visible(Find(Row(t, MorKey(entity)), Counter(counterID, inst)), now);
    if e.Some? then Some(e.value.value) else None
  }
}
