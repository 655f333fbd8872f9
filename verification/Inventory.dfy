/** The flat inventory layout of pkg/inventory/builder.go and the names it prints. */
module Inventory {
  import opened Decimal
  import opened Samples

  datatype Config = Config(datacenters: seq<DatacenterConfig>)

  datatype DatacenterConfig = DatacenterConfig(
    name: string, clusters: seq<ClusterConfig>, datastores: seq<DatastoreConfig>, dvSwitches: seq<DvSwitchConfig>)

  datatype ClusterConfig = ClusterConfig(
    name: string, hostCount: int, hostPrefix: string, resourcePools: seq<PoolConfig>)

  datatype PoolConfig = PoolConfig(name: string, vmCount: int, vmPrefix: string)

  datatype DatastoreConfig = DatastoreConfig(name: string, typ: string, capacityGB: int)

  datatype DvSwitchConfig = DvSwitchConfig(name: string, portgroups: seq<string>)

  // ---------- SimpleConfig ----------

  function AtLeast(low: int, n: int): int {
    if n < low then low else n
  }

  const POOL_NAMES: seq<string> := ["RP-Web", "RP-App", "RP-DB"]
  const POOL_PREFIXES: seq<string> := ["vm-web", "vm-app", "vm-db"]

  function HostPrefix(d: nat, c: nat): string {
    "ESXi-" + Dec(d) + "-" + Dec(c) + "-"
  }

  function VmPrefix(pool: string, d: nat, c: nat): string {
    pool + "-d" + Dec(d) + "c" + Dec(c)
  }

  /** VMs of pool ri: a third each, and the last pool takes the rest. */
  function PoolShare(vms: nat, ri: nat): nat {
    if ri == 2 then vms - 2 * (vms / 3) else vms / 3
  }

  /** Pools ri.. of a cluster; empty ones are dropped. */
  function Pools(vms: nat, d: nat, c: nat, ri: nat): seq<PoolConfig>
    requires ri <= 3
    decreases 3 - ri
  {
    if ri == 3 then []
    else (if PoolShare(vms, ri) > 0 then
            [PoolConfig(POOL_NAMES[ri], PoolShare(vms, ri), VmPrefix(POOL_PREFIXES[ri], d, c))]
          else [])
         + Pools(vms, d, c, ri + 1)
  }

  function Cluster(hosts: int, vms: nat, d: nat, c: nat): ClusterConfig {
    ClusterConfig("Cluster-" + Dec(c), hosts, HostPrefix(d, c), Pools(vms, d, c, 0))
  }

  function Datacenter(clusters: nat, hosts: int, vms: nat, ds: nat, dvs: nat, d: nat): DatacenterConfig {
    DatacenterConfig(
      "DC-" + Dec(d),
      seq(clusters, k requires 0 <= k < clusters => Cluster(hosts, vms, d, k + 1)),
      seq(ds, k requires 0 <= k < ds => Datastore(d, k + 1)),
      seq(dvs, k requires 0 <= k < dvs => DvSwitch(d, k + 1)))
  }

  function DvSwitch(d: nat, dv: nat): DvSwitchConfig {
    var tail := Dec(d) + "-" + Dec(dv);
    DvSwitchConfig("DVS-" + tail, ["DVPG-Prod-" + tail, "DVPG-Mgmt-" + tail, "DVPG-vMotion-" + tail])
  }

  function Layout(dcs: int, clusters: int, hosts: int, vms: int, ds: int, dvs: int): Config {
    var n := AtLeast(1, dcs);
    Config(seq(n, k requires 0 <= k < n =>
                 Datacenter(AtLeast(1, clusters), AtLeast(1, hosts), AtLeast(0, vms),
                            AtLeast(1, ds), AtLeast(0, dvs), k + 1)))
  }

  method BuildPools(vmsPerCluster: nat, d: nat, c: nat) returns (rps: seq<PoolConfig>)
    ensures rps == Pools(vmsPerCluster, d, c, 0)
  {
    rps := [];
    var remaining := vmsPerCluster;
    for ri := 0 to 3
      invariant rps + Pools(vmsPerCluster, d, c, ri) == Pools(vmsPerCluster, d, c, 0)
      invariant remaining == vmsPerCluster - (if ri <= 2 then ri else 2) * (vmsPerCluster / 3)
    {
      var count;
      if ri == 3 - 1 {
        count := remaining;
      } else {
        count := Quot(vmsPerCluster, 3);
        remaining := remaining - count;
      }
      if count > 0 {
        rps := rps + [PoolConfig(POOL_NAMES[ri], count, VmPrefix(POOL_PREFIXES[ri], d, c))];
      }
    }
  }

  function Datastore(d: nat, ds: nat): DatastoreConfig {
    DatastoreConfig("SAN-" + Dec(d) + "-" + PadDec(2, ds), "SAN", 4096)
  }

  method BuildClusters(clustersPerDC: nat, hosts: int, vms: nat, d: nat) returns (clusters: seq<ClusterConfig>)
    ensures |clusters| == clustersPerDC
    ensures forall k :: 0 <= k < clustersPerDC ==> clusters[k] == Cluster(hosts, vms, d, k + 1)
  {
    hide HostPrefix, Pools;
    clusters := [];
    for c := 1 to clustersPerDC + 1
      invariant |clusters| == c - 1
      invariant forall k :: 0 <= k < c - 1 ==> clusters[k] == Cluster(hosts, vms, d, k + 1)
    {
      var rps := BuildPools(vms, d, c);
      clusters := clusters + [ClusterConfig("Cluster-" + Dec(c), hosts, HostPrefix(d, c), rps)];
    }
  }

  method BuildStores(dsPerDC: nat, d: nat) returns (datastores: seq<DatastoreConfig>)
    ensures |datastores| == dsPerDC && forall k :: 0 <= k < dsPerDC ==> datastores[k] == Datastore(d, k + 1)
  {
    datastores := [];
    for ds := 1 to dsPerDC + 1
      invariant |datastores| == ds - 1
      invariant forall k :: 0 <= k < ds - 1 ==> datastores[k] == Datastore(d, k + 1)
    {
      datastores := datastores + [Datastore(d, ds)];
    }
  }

  method BuildSwitches(dvsPerDC: nat, d: nat) returns (dvSwitches: seq<DvSwitchConfig>)
    ensures |dvSwitches| == dvsPerDC && forall k :: 0 <= k < dvsPerDC ==> dvSwitches[k] == DvSwitch(d, k + 1)
  {
    dvSwitches := [];
    for dv := 1 to dvsPerDC + 1
      invariant |dvSwitches| == dv - 1
      invariant forall k :: 0 <= k < dv - 1 ==> dvSwitches[k] == DvSwitch(d, k + 1)
    {
      dvSwitches := dvSwitches + [DvSwitch(d, dv)];
    }
  }

  method BuildDatacenterConfig(clustersPerDC: nat, hosts: int, vms: nat, dsPerDC: nat, dvsPerDC: nat, d: nat)
    returns (dc: DatacenterConfig)
    ensures dc == Datacenter(clustersPerDC, hosts, vms, dsPerDC, dvsPerDC, d)
  {
    hide Cluster, Datastore, DvSwitch;
    var clusters := BuildClusters(clustersPerDC, hosts, vms, d);
    var datastores := BuildStores(dsPerDC, d);
    var dvSwitches := BuildSwitches(dvsPerDC, d);
    dc := DatacenterConfig("DC-" + Dec(d), clusters, datastores, dvSwitches);
    ghost var spec := Datacenter(clustersPerDC, hosts, vms, dsPerDC, dvsPerDC, d);
    assert clusters == spec.clusters && datastores == spec.datastores && dvSwitches == spec.dvSwitches;
  }

  method SimpleConfig(
    dcs: int, clustersPerDC: int, hostsPerCluster: int, vmsPerCluster: int, dsPerDC: int, dvsPerDC: int)
    returns (cfg: Config)
    ensures cfg == Layout(dcs, clustersPerDC, hostsPerCluster, vmsPerCluster, dsPerDC, dvsPerDC)
  {
    hide Datacenter;
    var nDcs, nClusters, nHosts := dcs, clustersPerDC, hostsPerCluster;
    var nVms, nDs, nDvs := vmsPerCluster, dsPerDC, dvsPerDC;
    if nDcs < 1 { nDcs := 1; }
    if nClusters < 1 { nClusters := 1; }
    if nHosts < 1 { nHosts := 1; }
    if nVms < 0 { nVms := 0; }
    if nDs < 1 { nDs := 1; }
    if nDvs < 0 { nDvs := 0; }
    var list := [];
    for d := 1 to nDcs + 1
      invariant |list| == d - 1
      invariant forall k :: 0 <= k < d - 1 ==> list[k] == Datacenter(nClusters, nHosts, nVms, nDs, nDvs, k + 1)
    {
      var dc := BuildDatacenterConfig(nClusters, nHosts, nVms, nDs, nDvs, d);
      list := list + [dc];
    }
    cfg := Config(list);
    assert nClusters == AtLeast(1, clustersPerDC) && nHosts == AtLeast(1, hostsPerCluster);
    assert nVms == AtLeast(0, vmsPerCluster);
    assert nDs == AtLeast(1, dsPerDC) && nDvs == AtLeast(0, dvsPerDC) && nDcs == AtLeast(1, dcs);
    assert list == Layout(dcs, clustersPerDC, hostsPerCluster, vmsPerCluster, dsPerDC, dvsPerDC).datacenters;
  }

  // ---------- What a layout looks like ----------

  /** With three VMs or more the web, app and database pools get a third each, the database pool with the rest;
      with fewer, the database pool alone gets them. */
  lemma PoolsLookLike(vms: nat, d: nat, c: nat)
    ensures var tail := "-d" + Dec(d) + "c" + Dec(c);
            Pools(vms, d, c, 0) ==
              if vms >= 3 then
                [PoolConfig("RP-Web", vms / 3, "vm-web" + tail), PoolConfig("RP-App", vms / 3, "vm-app" + tail),
                 PoolConfig("RP-DB", vms - vms / 3 - vms / 3, "vm-db" + tail)]
              else if vms > 0 then [PoolConfig("RP-DB", vms, "vm-db" + tail)]
              else []
  {
    hide Dec;
    assert Pools(vms, d, c, 3) == [];
    PrefixShape(0, d, c);
    PrefixShape(1, d, c);
    PrefixShape(2, d, c);
    OnePool(vms, d, c, 2);
    OnePool(vms, d, c, 1);
    OnePool(vms, d, c, 0);
  }

  lemma PrefixShape(r: nat, d: nat, c: nat)
    requires r < 3
    ensures VmPrefix(POOL_PREFIXES[r], d, c) == POOL_PREFIXES[r] + ("-d" + Dec(d) + "c" + Dec(c))
  {
  }

  lemma OnePool(vms: nat, d: nat, c: nat, ri: nat)
    requires ri < 3
    ensures Pools(vms, d, c, ri)
            == (if PoolShare(vms, ri) > 0 then
                  [PoolConfig(POOL_NAMES[ri], PoolShare(vms, ri), VmPrefix(POOL_PREFIXES[ri], d, c))]
                else [])
               + Pools(vms, d, c, ri + 1)
  {
  }

  /** Cluster c of datacenter d, both counted from one: its names print d and c in this order. */
  lemma ClustersLookLike(dcs: int, clusters: int, hosts: int, vms: int, ds: int, dvs: int, d: nat, c: nat)
    requires 1 <= d <= AtLeast(1, dcs) && 1 <= c <= AtLeast(1, clusters)
    ensures var list := Layout(dcs, clusters, hosts, vms, ds, dvs).datacenters;
            && |list| == AtLeast(1, dcs) && list[d - 1].name == "DC-" + Dec(d) && |list[d - 1].clusters|
            == AtLeast(1, clusters)
            && var cluster := list[d - 1].clusters[c - 1];
               && cluster.name == "Cluster-" + Dec(c) && cluster.hostCount == AtLeast(1, hosts)
               && cluster.hostPrefix == "ESXi-" + Dec(d) + "-" + Dec(c) + "-"
               && cluster.resourcePools == Pools(AtLeast(0, vms), d, c, 0)
  {
    hide Dec, Pools;
    DatacenterAt(dcs, clusters, hosts, vms, ds, dvs, d);
    var dc := Datacenter(AtLeast(1, clusters), AtLeast(1, hosts), AtLeast(0, vms), AtLeast(1, ds), AtLeast(0, dvs), d);
    assert dc.clusters[c - 1] == Cluster(AtLeast(1, hosts), AtLeast(0, vms), d, c - 1 + 1);
  }

  lemma DatacenterAt(dcs: int, clusters: int, hosts: int, vms: int, ds: int, dvs: int, d: nat)
    requires 1 <= d <= AtLeast(1, dcs)
    ensures var list := Layout(dcs, clusters, hosts, vms, ds, dvs).datacenters;
            && |list| == AtLeast(1, dcs)
            && list[d - 1] == Datacenter(AtLeast(1, clusters), AtLeast(1, hosts), AtLeast(0, vms),
                                         AtLeast(1, ds), AtLeast(0, dvs), d)
  {
    hide Datacenter;
    var list := Layout(dcs, clusters, hosts, vms, ds, dvs).datacenters;
    assert list[d - 1] == Datacenter(AtLeast(1, clusters), AtLeast(1, hosts), AtLeast(0, vms),
                                     AtLeast(1, ds), AtLeast(0, dvs), d - 1 + 1);
  }

  /** Datastore s and switch v of datacenter d, counted from one. */
  lemma StoresLookLike(dcs: int, clusters: int, hosts: int, vms: int, ds: int, dvs: int, d: nat)
    requires 1 <= d <= AtLeast(1, dcs)
    ensures var dc := Layout(dcs, clusters, hosts, vms, ds, dvs).datacenters[d - 1];
            && |dc.datastores| == AtLeast(1, ds) && |dc.dvSwitches| == AtLeast(0, dvs)
            && (forall k :: 0 <= k < |dc.datastores| ==>
                  dc.datastores[k] == DatastoreConfig("SAN-" + Dec(d) + "-" + PadDec(2, k + 1), "SAN", 4096))
            && (forall k :: 0 <= k < |dc.dvSwitches| ==>
                  var tail := Dec(d) + "-" + Dec(k + 1);
                  dc.dvSwitches[k]
                  == DvSwitchConfig("DVS-" + tail, ["DVPG-Prod-" + tail, "DVPG-Mgmt-" + tail, "DVPG-vMotion-" + tail]))
  {
    hide Dec, PadDec, Cluster;
    DatacenterAt(dcs, clusters, hosts, vms, ds, dvs, d);
  }

  // ---------- Totals ----------

  function PoolVms(ps: seq<PoolConfig>): int {
    if ps == [] then 0 else ps[0].vmCount + PoolVms(ps[1..])
  }

  function ClusterVms(cs: seq<ClusterConfig>): int {
    if cs == [] then 0 else PoolVms(cs[0].resourcePools) + ClusterVms(cs[1..])
  }

  function ClusterHosts(cs: seq<ClusterConfig>): int {
    if cs == [] then 0 else cs[0].hostCount + ClusterHosts(cs[1..])
  }

  function TotalVms(dcs: seq<DatacenterConfig>): int {
    if dcs == [] then 0 else ClusterVms(dcs[0].clusters) + TotalVms(dcs[1..])
  }

  function TotalHosts(dcs: seq<DatacenterConfig>): int {
    if dcs == [] then 0 else ClusterHosts(dcs[0].clusters) + TotalHosts(dcs[1..])
  }

  /** A cluster's pools hold all of its VMs, no kept pool is empty, and when all three are kept
      their sizes differ by at most two. */
  lemma PoolsShareAll(vms: nat, d: nat, c: nat)
    ensures var ps := Pools(vms, d, c, 0);
            && PoolVms(ps) == vms
            && |ps| <= 3 && (forall p :: p in ps ==> p.vmCount > 0)
            && (|ps| == 3 <==> vms >= 3)
            && (|ps| == 3 ==> forall p, q :: p in ps && q in ps ==> p.vmCount - q.vmCount <= 2)
  {
    hide VmPrefix;
    var p2 := PoolConfig(POOL_NAMES[2], PoolShare(vms, 2), VmPrefix(POOL_PREFIXES[2], d, c));
    assert Pools(vms, d, c, 3) == [];
    if vms >= 3 {
      var p0 := PoolConfig(POOL_NAMES[0], PoolShare(vms, 0), VmPrefix(POOL_PREFIXES[0], d, c));
      var p1 := PoolConfig(POOL_NAMES[1], PoolShare(vms, 1), VmPrefix(POOL_PREFIXES[1], d, c));
      assert Pools(vms, d, c, 2) == [p2];
      assert Pools(vms, d, c, 1) == [p1, p2];
      assert Pools(vms, d, c, 0) == [p0, p1, p2];
      assert [p0, p1, p2][1..] == [p1, p2] && [p1, p2][1..] == [p2] && [p2][1..] == [];
      assert PoolVms([p2]) == p2.vmCount;
      assert PoolVms([p1, p2]) == p1.vmCount + p2.vmCount;
    } else {
      assert Pools(vms, d, c, 2) == if vms > 0 then [p2] else [];
      assert Pools(vms, d, c, 1) == Pools(vms, d, c, 2);
      assert Pools(vms, d, c, 0) == Pools(vms, d, c, 2);
      assert [p2][1..] == [];
    }
  }

  lemma MulStep(n: nat, v: int)
    ensures (n + 1) * v == n * v + v
  {
  }

  lemma {:induction false} ClusterTotals(cs: seq<ClusterConfig>, hosts: int, vms: nat, d: nat, c: nat)
    requires forall k :: 0 <= k < |cs| ==> cs[k] == Cluster(hosts, vms, d, c + k)
    ensures ClusterVms(cs) == |cs| * vms && ClusterHosts(cs) == |cs| * hosts
    decreases cs
  {
    hide Pools;
    if cs != [] {
      PoolsShareAll(vms, d, c);
      forall k | 0 <= k < |cs[1..]| ensures cs[1..][k] == Cluster(hosts, vms, d, c + 1 + k) {
        assert cs[1..][k] == cs[k + 1];
      }
      ClusterTotals(cs[1..], hosts, vms, d, c + 1);
      MulStep(|cs[1..]|, vms);
      MulStep(|cs[1..]|, hosts);
    }
  }

  lemma DatacenterTotals(clusters: nat, hosts: int, vms: nat, ds: nat, dvs: nat, d: nat)
    ensures var cs := Datacenter(clusters, hosts, vms, ds, dvs, d).clusters;
            ClusterVms(cs) == clusters * vms && ClusterHosts(cs) == clusters * hosts
  {
    hide Cluster;
    var cs := Datacenter(clusters, hosts, vms, ds, dvs, d).clusters;
    assert |cs| == clusters && forall k :: 0 <= k < |cs| ==> cs[k] == Cluster(hosts, vms, d, 1 + k);
    ClusterTotals(cs, hosts, vms, d, 1);
  }

  lemma {:induction false} EqualTotals(list: seq<DatacenterConfig>, vms: int, hosts: int)
    requires forall dc :: dc in list ==> ClusterVms(dc.clusters) == vms && ClusterHosts(dc.clusters) == hosts
    ensures TotalVms(list) == |list| * vms && TotalHosts(list) == |list| * hosts
    decreases list
  {
    if list != [] {
      EqualTotals(list[1..], vms, hosts);
      MulStep(|list[1..]|, vms);
      MulStep(|list[1..]|, hosts);
    }
  }

  /** The layout conserves totals: datacenters x clusters x VMs, and likewise hosts, after raising
      the inputs to their minimums. */
  lemma LayoutTotals(dcs: int, clusters: int, hosts: int, vms: int, ds: int, dvs: int)
    ensures var list := Layout(dcs, clusters, hosts, vms, ds, dvs).datacenters;
            && TotalVms(list) == AtLeast(1, dcs) * (AtLeast(1, clusters) * AtLeast(0, vms))
            && TotalHosts(list) == AtLeast(1, dcs) * (AtLeast(1, clusters) * AtLeast(1, hosts))
  {
    hide Datacenter;
    var list := Layout(dcs, clusters, hosts, vms, ds, dvs).datacenters;
    var nClusters, nHosts, nVms := AtLeast(1, clusters), AtLeast(1, hosts), AtLeast(0, vms);
    forall dc | dc in list
      ensures ClusterVms(dc.clusters) == nClusters * nVms && ClusterHosts(dc.clusters) == nClusters * nHosts
    {
      var k :| 0 <= k < |list| && list[k] == dc;
      DatacenterTotals(nClusters, nHosts, nVms, AtLeast(1, ds), AtLeast(0, dvs), k + 1);
    }
    EqualTotals(list, nClusters * nVms, nClusters * nHosts);
  }

  // ---------- Names ----------

  function HostName(prefix: string, i: nat): string {
    prefix + PadDec(2, i)
  }

  function VmName(prefix: string, i: nat): string {
    prefix + "-" + PadDec(3, i)
  }

  /** Host names are injective on prefixes that do not end in a digit, also past 99 hosts. */
  lemma HostNameInjective(p: string, i: nat, q: string, j: nat)
    requires !EndsInDigit(p) && !EndsInDigit(q)
    ensures HostName(p, i) == HostName(q, j) <==> p == q && i == j
  {
    if HostName(p, i) == HostName(q, j) {
      PrefixThenDigitRun(p, PadDec(2, i), q, PadDec(2, j));
      PadDecInjective(2, i, j);
    }
  }

  /** A prefix that ends in a digit breaks this: cluster "a" host 101 and cluster "a1" host 1. */
  lemma DigitPrefixCollision()
    ensures HostName("a", 101) == HostName("a1", 1)
  {
    assert Dec(1) == "1" && Dec(10) == Dec(1) + "0" && Dec(101) == Dec(10) + "1";
    assert ZeroFill(2, "101") == "101";
    assert ['0'] + "1" == "01" && ZeroFill(2, "01") == "01";
    assert ZeroFill(2, "1") == "01";
    assert "a" + "101" == "a101" == "a1" + "01";
  }

  /** q is p followed by a number printed without leading zeros. */
  predicate Extends(p: string, q: string) {
    |p| < |q| && q[..|p|] == p && AllDigits(q[|p|..]) && q[|p|] != '0'
  }

  /** The number by which q extends p. */
  function Extra(p: string, q: string): nat
    requires Extends(p, q)
  {
    Value(q[|p|..])
  }

  /** Host i under p is named as host j under the longer prefix q. */
  predicate Meets(p: string, i: nat, q: string, j: nat) {
    Extends(p, q) && i == Value(q[|p|..] + PadDec(2, j))
  }

  lemma MeetsNames(p: string, i: nat, q: string, j: nat)
    requires Meets(p, i, q, j)
    ensures HostName(p, i) == HostName(q, j)
    ensures i >= 100 * Extra(p, q) + j && (j < 100 ==> i == 100 * Extra(p, q) + j)
  {
    var ds, tail := q[|p|..], PadDec(2, j);
    PadTwo(j);
    PadTwo(i);
    DecOfValue(ds + tail);
    DecOfValue(ds);
    ValueShift(ds, tail);
    assert p + (ds + tail) == (p + ds) + tail;
    assert p + ds == q;
  }

  lemma NamesMeet(p: string, i: nat, q: string, j: nat)
    requires HostName(p, i) == HostName(q, j) && |p| <= |q|
    ensures (p == q && i == j) || Meets(p, i, q, j)
  {
    hide Dec, PadDec, Value;
    var a, b, ds := PadDec(2, i), PadDec(2, j), q[|p|..];
    PadTwo(i);
    PadTwo(j);
    assert HostName(p, i)[..|p|] == p && HostName(q, j)[..|p|] == q[..|p|];
    assert HostName(p, i)[|p|..] == a && HostName(q, j)[|p|..] == ds + b;
    if ds == [] {
      assert a == b;
      PadDecInjective(2, i, j);
    } else {
      assert forall k :: 0 <= k < |ds| ==> a[k] == ds[k];
      assert |a| >= 3;
      DecFirst(i);
    }
  }

  /** Exactly which host names coincide: equal prefix and index, or one prefix is the other and a
      number, and the index under the shorter one starts with that number. */
  lemma HostNameCollision(p: string, i: nat, q: string, j: nat)
    ensures HostName(p, i) == HostName(q, j) <==> (p == q && i == j) || Meets(p, i, q, j) || Meets(q, j, p, i)
  {
    if Meets(p, i, q, j) {
      MeetsNames(p, i, q, j);
    } else if Meets(q, j, p, i) {
      MeetsNames(q, j, p, i);
    } else if HostName(p, i) == HostName(q, j) && (p != q || i != j) {
      if |p| <= |q| {
        NamesMeet(p, i, q, j);
      } else {
        NamesMeet(q, j, p, i);
      }
    }
  }

  /** So two different prefixes never share a host name, however many hosts they have, exactly when
      neither is the other followed by a number. */
  lemma HostNamesApart(p: string, q: string)
    requires p != q
    ensures (forall i, j :: i >= 1 && j >= 1 ==> HostName(p, i) != HostName(q, j)) <==> !Extends(p, q) && !Extends(q, p)
  {
    if Extends(p, q) {
      OneMeets(p, q);
    } else if Extends(q, p) {
      OneMeets(q, p);
    } else {
      forall i, j | i >= 1 && j >= 1 ensures HostName(p, i) != HostName(q, j) {
        HostNameCollision(p, i, q, j);
      }
    }
  }

  /** The first host that meets host 1 under the longer prefix. */
  lemma OneMeets(p: string, q: string)
    requires Extends(p, q)
    ensures Meets(p, 100 * Extra(p, q) + 1, q, 1) && HostName(p, 100 * Extra(p, q) + 1) == HostName(q, 1)
  {
    PadTwo(1);
    ValueShift(q[|p|..], PadDec(2, 1));
    MeetsNames(p, 100 * Extra(p, q) + 1, q, 1);
  }

  lemma HostPrefixInjective(d: nat, c: nat, d': nat, c': nat)
    ensures !EndsInDigit(HostPrefix(d, c))
    ensures HostPrefix(d, c) == HostPrefix(d', c') <==> d == d' && c == c'
  {
    hide Dec;
    var p, q := HostPrefix(d, c), HostPrefix(d', c');
    assert p[|p| - 1] == '-';
    if p == q {
      var s, t := "-" + Dec(c) + "-", "-" + Dec(c') + "-";
      assert p == "ESXi-" + (Dec(d) + s) && q == "ESXi-" + (Dec(d') + t);
      DropCommon("ESXi-", Dec(d) + s, Dec(d') + t);
      DigitRunThenRest(Dec(d), s, Dec(d'), t);
      assert s == "-" + (Dec(c) + "-") && t == "-" + (Dec(c') + "-");
      DropCommon("-", Dec(c) + "-", Dec(c') + "-");
      DigitRunThenRest(Dec(c), "-", Dec(c'), "-");
      DecInjective(d, d');
      DecInjective(c, c');
    }
  }

  lemma PoolPrefixApart(r: nat, s: string, r': nat, t: string)
    requires r < 3 && r' < 3
    requires POOL_PREFIXES[r] + "-d" + s == POOL_PREFIXES[r'] + "-d" + t
    ensures r == r' && s == t
  {
    var a, b := POOL_PREFIXES[r] + "-d" + s, POOL_PREFIXES[r'] + "-d" + t;
    assert a[3] == POOL_PREFIXES[r][3] && b[3] == POOL_PREFIXES[r'][3];
    assert "vm-web"[3] == 'w' && "vm-app"[3] == 'a' && "vm-db"[3] == 'd';
    assert r == r';
    DropCommon(POOL_PREFIXES[r] + "-d", s, t);
  }

  /** VM names are pairwise distinct over datacenters, clusters, pools and indices, for any counts. */
  lemma VmNameInjective(r: nat, d: nat, c: nat, i: nat, r': nat, d': nat, c': nat, i': nat)
    requires r < 3 && r' < 3
    ensures VmName(VmPrefix(POOL_PREFIXES[r], d, c), i) == VmName(VmPrefix(POOL_PREFIXES[r'], d', c'), i')
            <==> r == r' && d == d' && c == c' && i == i'
  {
    hide Dec, PadDec, VmName, VmPrefix;
    var p, q := VmPrefix(POOL_PREFIXES[r], d, c), VmPrefix(POOL_PREFIXES[r'], d', c');
    if VmName(p, i) == VmName(q, i') {
      var s, t := Dec(c) + "-" + PadDec(3, i), Dec(c') + "-" + PadDec(3, i');
      VmNameShape(POOL_PREFIXES[r], d, c, i);
      VmNameShape(POOL_PREFIXES[r'], d', c', i');
      PoolPrefixApart(r, Dec(d) + ("c" + s), r', Dec(d') + ("c" + t));
      DigitRunThenRest(Dec(d), "c" + s, Dec(d'), "c" + t);
      DropCommon("c", s, t);
      assert s == Dec(c) + ("-" + PadDec(3, i)) && t == Dec(c') + ("-" + PadDec(3, i'));
      DigitRunThenRest(Dec(c), "-" + PadDec(3, i), Dec(c'), "-" + PadDec(3, i'));
      DropCommon("-", PadDec(3, i), PadDec(3, i'));
      DecInjective(d, d');
      DecInjective(c, c');
      PadDecInjective(3, i, i');
    }
  }

  lemma VmNameShape(pool: string, d: nat, c: nat, i: nat)
    ensures VmName(VmPrefix(pool, d, c), i) == pool + "-d" + (Dec(d) + ("c" + (Dec(c) + "-" + PadDec(3, i))))
  {
  }

  /** Up to 99 hosts and 999 VMs print at a fixed width, and the number reads back from the digits. */
  lemma PrintedWidths(prefix: string, i: nat)
    ensures i < 100 ==> |HostName(prefix, i)| == |prefix| + 2
    ensures i < 1000 ==> |VmName(prefix, i)| == |prefix| + 4 && VmName(prefix, i)[|prefix|] == '-'
    ensures HostName(prefix, i)[..|prefix|] == VmName(prefix, i)[..|prefix|] == prefix
    ensures AllDigits(HostName(prefix, i)[|prefix|..]) && Value(HostName(prefix, i)[|prefix|..]) == i
    ensures AllDigits(VmName(prefix, i)[|prefix| + 1..]) && Value(VmName(prefix, i)[|prefix| + 1..]) == i
  {
    hide Dec, Value;
    PadTwo(i);
    PadThree(i);
    assert HostName(prefix, i)[|prefix|..] == PadDec(2, i);
    assert VmName(prefix, i)[|prefix| + 1..] == PadDec(3, i);
  }

  // ---------- All VM names of a layout ----------

  function PoolVmNames(p: PoolConfig): (names: seq<string>)
    ensures |names| == AtLeast(0, p.vmCount) && forall k :: 0 <= k < |names| ==> names[k] == VmName(p.vmPrefix, k + 1)
  {
    seq(AtLeast(0, p.vmCount), k requires 0 <= k < AtLeast(0, p.vmCount) => VmName(p.vmPrefix, k + 1))
  }

  function PoolsVmNames(ps: seq<PoolConfig>): seq<string> {
    if ps == [] then [] else PoolVmNames(ps[0]) + PoolsVmNames(ps[1..])
  }

  function ClustersVmNames(cs: seq<ClusterConfig>): seq<string> {
    if cs == [] then [] else PoolsVmNames(cs[0].resourcePools) + ClustersVmNames(cs[1..])
  }

  function AllVmNames(dcs: seq<DatacenterConfig>): seq<string> {
    if dcs == [] then [] else ClustersVmNames(dcs[0].clusters) + AllVmNames(dcs[1..])
  }

  ghost predicate AllDistinct(names: seq<string>) {
    forall x, y :: 0 <= x < y < |names| ==> names[x] != names[y]
  }

  lemma AllDistinctConcat(a: seq<string>, b: seq<string>)
    requires AllDistinct(a) && AllDistinct(b) && forall m, n :: m in a && n in b ==> m != n
    ensures AllDistinct(a + b)
  {
    var ab := a + b;
    forall x, y | 0 <= x < y < |ab| ensures ab[x] != ab[y] {
      assert x >= |a| ==> ab[x] == b[x - |a|];
      assert y >= |a| ==> ab[y] == b[y - |a|] && b[y - |a|] in b;
      assert x < |a| ==> ab[x] == a[x] && a[x] in a;
    }
  }

  /** The name of a VM of pool r of cluster c of datacenter d. */
  ghost predicate VmOf(name: string, r: nat, d: nat, c: nat)
    requires r < 3
  {
    exists i: nat :: name == VmName(VmPrefix(POOL_PREFIXES[r], d, c), i)
  }

  lemma VmsApart(m: string, r: nat, d: nat, c: nat, n: string, r': nat, d': nat, c': nat)
    requires r < 3 && r' < 3 && VmOf(m, r, d, c) && VmOf(n, r', d', c') && (r != r' || d != d' || c != c')
    ensures m != n
  {
    hide VmName, VmPrefix;
    var i: nat :| m == VmName(VmPrefix(POOL_PREFIXES[r], d, c), i);
    var j: nat :| n == VmName(VmPrefix(POOL_PREFIXES[r'], d', c'), j);
    VmNameInjective(r, d, c, i, r', d', c', j);
  }

  lemma PoolNames(vms: nat, d: nat, c: nat, r: nat)
    requires r < 3
    ensures var names := PoolVmNames(PoolConfig(POOL_NAMES[r], PoolShare(vms, r), VmPrefix(POOL_PREFIXES[r], d, c)));
            AllDistinct(names) && forall n :: n in names ==> VmOf(n, r, d, c)
  {
    hide VmName, VmPrefix;
    var names := PoolVmNames(PoolConfig(POOL_NAMES[r], PoolShare(vms, r), VmPrefix(POOL_PREFIXES[r], d, c)));
    forall x, y | 0 <= x < y < |names| ensures names[x] != names[y] {
      VmNameInjective(r, d, c, x + 1, r, d, c, y + 1);
    }
  }

  ghost predicate VmOfPools(name: string, low: nat, d: nat, c: nat) {
    exists r :: low <= r < 3 && VmOf(name, r, d, c)
  }

  lemma {:induction false} PoolsNames(vms: nat, d: nat, c: nat, ri: nat)
    requires ri <= 3
    ensures var names := PoolsVmNames(Pools(vms, d, c, ri));
            AllDistinct(names) && forall n :: n in names ==> VmOfPools(n, ri, d, c)
    decreases 3 - ri
  {
    hide VmPrefix, VmOf, PoolShare;
    if ri < 3 {
      var p := PoolConfig(POOL_NAMES[ri], PoolShare(vms, ri), VmPrefix(POOL_PREFIXES[ri], d, c));
      var first, rest := PoolVmNames(p), PoolsVmNames(Pools(vms, d, c, ri + 1));
      PoolsNames(vms, d, c, ri + 1);
      PoolNames(vms, d, c, ri);
      forall m, n | m in first && n in rest ensures m != n {
        var r :| ri + 1 <= r < 3 && VmOf(n, r, d, c);
        VmsApart(m, ri, d, c, n, r, d, c);
      }
      AllDistinctConcat(first, rest);
      var ps, more := Pools(vms, d, c, ri), Pools(vms, d, c, ri + 1);
      if PoolShare(vms, ri) > 0 {
        assert ps == [p] + more && ps[1..] == more;
      } else {
        assert ps == [] + more == more;
      }
      forall n | n in first + rest ensures VmOfPools(n, ri, d, c) {
        if n in rest {
          assert VmOfPools(n, ri + 1, d, c);
        }
      }
    }
  }

  ghost predicate VmOfClusters(name: string, d: nat, low: nat) {
    exists c: nat :: low <= c && VmOfPools(name, 0, d, c)
  }

  lemma PoolVmsApart(m: string, d: nat, c: nat, n: string, d': nat, c': nat)
    requires VmOfPools(m, 0, d, c) && VmOfPools(n, 0, d', c') && (d != d' || c != c')
    ensures m != n
  {
    hide VmOf;
    var r :| 0 <= r < 3 && VmOf(m, r, d, c);
    var r' :| 0 <= r' < 3 && VmOf(n, r', d', c');
    VmsApart(m, r, d, c, n, r', d', c');
  }

  lemma {:induction false} ClustersNames(cs: seq<ClusterConfig>, hosts: int, vms: nat, d: nat, c: nat)
    requires forall k :: 0 <= k < |cs| ==> cs[k] == Cluster(hosts, vms, d, c + k)
    ensures var names := ClustersVmNames(cs); AllDistinct(names) && forall n :: n in names ==> VmOfClusters(n, d, c)
    decreases cs
  {
    hide Pools, VmOfPools, PoolsVmNames;
    if cs != [] {
      var first, rest := PoolsVmNames(cs[0].resourcePools), ClustersVmNames(cs[1..]);
      assert cs[0] == Cluster(hosts, vms, d, c + 0);
      PoolsNames(vms, d, c, 0);
      forall k | 0 <= k < |cs[1..]| ensures cs[1..][k] == Cluster(hosts, vms, d, c + 1 + k) {
        assert cs[1..][k] == cs[k + 1];
      }
      ClustersNames(cs[1..], hosts, vms, d, c + 1);
      forall m, n | m in first && n in rest ensures m != n {
        var c': nat :| c + 1 <= c' && VmOfPools(n, 0, d, c');
        PoolVmsApart(m, d, c, n, d, c');
      }
      AllDistinctConcat(first, rest);
      forall n | n in first + rest ensures VmOfClusters(n, d, c) {
        if n in rest {
          assert VmOfClusters(n, d, c + 1);
        }
      }
    }
  }

  ghost predicate VmOfDatacenters(name: string, low: nat) {
    exists d: nat :: low <= d && VmOfClusters(name, d, 1)
  }

  lemma ClusterVmsApart(m: string, d: nat, n: string, d': nat)
    requires VmOfClusters(m, d, 1) && VmOfClusters(n, d', 1) && d != d'
    ensures m != n
  {
    hide VmOfPools;
    var c: nat :| 1 <= c && VmOfPools(m, 0, d, c);
    var c': nat :| 1 <= c' && VmOfPools(n, 0, d', c');
    PoolVmsApart(m, d, c, n, d', c');
  }

  lemma DatacenterNames(clusters: nat, hosts: int, vms: nat, ds: nat, dvs: nat, d: nat)
    ensures var names := ClustersVmNames(Datacenter(clusters, hosts, vms, ds, dvs, d).clusters);
            AllDistinct(names) && forall n :: n in names ==> VmOfClusters(n, d, 1)
  {
    hide Cluster, ClustersVmNames;
    var cs := Datacenter(clusters, hosts, vms, ds, dvs, d).clusters;
    assert forall k :: 0 <= k < |cs| ==> cs[k] == Cluster(hosts, vms, d, 1 + k);
    ClustersNames(cs, hosts, vms, d, 1);
  }

  lemma {:induction false} DatacentersNames(
    list: seq<DatacenterConfig>, clusters: nat, hosts: int, vms: nat, ds: nat, dvs: nat, d: nat)
    requires forall k :: 0 <= k < |list| ==> list[k] == Datacenter(clusters, hosts, vms, ds, dvs, d + k)
    ensures var names := AllVmNames(list); AllDistinct(names) && forall n :: n in names ==> VmOfDatacenters(n, d)
    decreases list
  {
    hide Datacenter, VmOfClusters, ClustersVmNames;
    if list != [] {
      var first, rest := ClustersVmNames(list[0].clusters), AllVmNames(list[1..]);
      assert list[0] == Datacenter(clusters, hosts, vms, ds, dvs, d + 0);
      DatacenterNames(clusters, hosts, vms, ds, dvs, d);
      forall k | 0 <= k < |list[1..]| ensures list[1..][k] == Datacenter(clusters, hosts, vms, ds, dvs, d + 1 + k) {
        assert list[1..][k] == list[k + 1];
      }
      DatacentersNames(list[1..], clusters, hosts, vms, ds, dvs, d + 1);
      forall m, n | m in first && n in rest ensures m != n {
        var d': nat :| d + 1 <= d' && VmOfClusters(n, d', 1);
        ClusterVmsApart(m, d, n, d');
      }
      AllDistinctConcat(first, rest);
      forall n | n in first + rest ensures VmOfDatacenters(n, d) {
        if n in rest {
          assert VmOfDatacenters(n, d + 1);
        }
      }
    }
  }

  /** All VM names of a flat layout are pairwise distinct, over all its datacenters, clusters and pools. */
  lemma LayoutVmNames(dcs: int, clusters: int, hosts: int, vms: int, ds: int, dvs: int)
    ensures AllDistinct(AllVmNames(Layout(dcs, clusters, hosts, vms, ds, dvs).datacenters))
  {
    hide Datacenter, AllVmNames, AllDistinct;
    DatacentersNames(Layout(dcs, clusters, hosts, vms, ds, dvs).datacenters,
                     AtLeast(1, clusters), AtLeast(1, hosts), AtLeast(0, vms), AtLeast(1, ds), AtLeast(0, dvs), 1);
  }
}
