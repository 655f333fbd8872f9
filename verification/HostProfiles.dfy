/** Which host names of a configuration clash, and the hardware profiles that pkg/inventory/builder.go
    registers under them in the registry of pkg/inventory/hardware.go. */
module HostProfiles {
  import opened Wrappers
  import opened Decimal
  import opened Inventory

  // ---------- Hardware profiles ----------

  datatype Profile = Profile(model: string, sockets: int, memoryBytes: int)

  /** ClusterProfiles: a pair of profiles per known cluster name, and the fallback. */
  datatype Catalog = Catalog(pairs: map<string, (Profile, Profile)>, fallback: Profile)

  function ProfileForHost(catalog: Catalog, clusterName: string, hostIndex: nat): Profile {
    if clusterName !in catalog.pairs then catalog.fallback
    else if hostIndex % 2 == 0 then catalog.pairs[clusterName].1
    else catalog.pairs[clusterName].0
  }

  /** A host of a configuration: its cluster and 1-based index. */
  datatype HostId = HostId(cluster: ClusterConfig, index: nat)

  function NameOf(h: HostId): string {
    HostName(h.cluster.hostPrefix, h.index)
  }

  function AllClusters(dcs: seq<DatacenterConfig>): seq<ClusterConfig> {
    if dcs == [] then [] else dcs[0].clusters + AllClusters(dcs[1..])
  }

  /** The first m hosts of a cluster, in order. */
  function HostsOf(c: ClusterConfig, m: nat): (hs: seq<HostId>)
    ensures |hs| == m && forall k :: 0 <= k < m ==> hs[k] == HostId(c, k + 1)
  {
    seq(m, k requires 0 <= k < m => HostId(c, k + 1))
  }

  function AllHosts(cs: seq<ClusterConfig>): seq<HostId> {
    if cs == [] then [] else HostsOf(cs[0], AtLeast(0, cs[0].hostCount)) + AllHosts(cs[1..])
  }

  lemma {:induction false} AllHostsConcat(a: seq<ClusterConfig>, b: seq<ClusterConfig>)
    ensures AllHosts(a + b) == AllHosts(a) + AllHosts(b)
  {
    if a == [] {
      assert a + b == b;
    } else {
      assert (a + b)[1..] == a[1..] + b;
      AllHostsConcat(a[1..], b);
    }
  }

  // ---------- When host names clash ----------

  /** b's prefix is a's and a number, and a has enough hosts to reach it. */
  predicate Crowds(a: ClusterConfig, b: ClusterConfig) {
    Extends(a.hostPrefix, b.hostPrefix) && a.hostCount > 100 * Extra(a.hostPrefix, b.hostPrefix)
  }

  predicate Clash(a: ClusterConfig, b: ClusterConfig) {
    && a.hostCount >= 1 && b.hostCount >= 1
    && (a.hostPrefix == b.hostPrefix || Crowds(a, b) || Crowds(b, a))
  }

  predicate HostIn(c: ClusterConfig, i: int) {
    1 <= i <= c.hostCount
  }

  /** Two clusters print a common host name exactly when they clash. */
  lemma ClashIs(a: ClusterConfig, b: ClusterConfig)
    ensures Clash(a, b)
            <==> exists i, j :: HostIn(a, i) && HostIn(b, j) && HostName(a.hostPrefix, i) == HostName(b.hostPrefix, j)
  {
    var p, q := a.hostPrefix, b.hostPrefix;
    if Clash(a, b) {
      if p == q {
        assert HostIn(a, 1) && HostIn(b, 1) && HostName(p, 1) == HostName(q, 1);
      } else if Crowds(a, b) {
        OneMeets(p, q);
        assert HostIn(a, 100 * Extra(p, q) + 1) && HostIn(b, 1);
      } else {
        OneMeets(q, p);
        assert HostIn(b, 100 * Extra(q, p) + 1) && HostIn(a, 1);
      }
    }
    if i, j :| HostIn(a, i) && HostIn(b, j) && HostName(p, i) == HostName(q, j) {
      HostNameCollision(p, i, q, j);
      if Meets(p, i, q, j) {
        MeetsNames(p, i, q, j);
      } else if Meets(q, j, p, i) {
        MeetsNames(q, j, p, i);
      }
    }
  }

  ghost predicate NoClash(cs: seq<ClusterConfig>) {
    forall i, j :: 0 <= i < j < |cs| ==> !Clash(cs[i], cs[j])
  }

  ghost predicate NamesDistinct(hs: seq<HostId>) {
    forall x, y :: 0 <= x < y < |hs| ==> NameOf(hs[x]) != NameOf(hs[y])
  }

  /** A cluster's own hosts have different names. */
  lemma OwnNames(c: ClusterConfig, m: nat)
    ensures NamesDistinct(HostsOf(c, m))
  {
    var hs := HostsOf(c, m);
    forall x, y | 0 <= x < y < m ensures NameOf(hs[x]) != NameOf(hs[y]) {
      HostNameCollision(c.hostPrefix, x + 1, c.hostPrefix, y + 1);
    }
  }

  /** A host is listed when its cluster is and its index is within the count. */
  lemma {:induction false} Listed(cs: seq<ClusterConfig>, h: HostId)
    ensures h in AllHosts(cs) <==> h.cluster in cs && HostIn(h.cluster, h.index)
  {
    if cs != [] {
      Listed(cs[1..], h);
      assert cs == [cs[0]] + cs[1..];
      var own := HostsOf(cs[0], AtLeast(0, cs[0].hostCount));
      if h.cluster == cs[0] && HostIn(h.cluster, h.index) {
        assert own[h.index - 1] == h;
      }
    }
  }

  /** The names of all hosts of a configuration are different exactly when no two clusters clash. */
  lemma {:induction false} NoClashIs(cs: seq<ClusterConfig>)
    ensures NoClash(cs) <==> NamesDistinct(AllHosts(cs))
  {
    if cs != [] {
      var c, rest := cs[0], cs[1..];
      var own, more := HostsOf(c, AtLeast(0, c.hostCount)), AllHosts(rest);
      NoClashIs(rest);
      OwnNames(c, AtLeast(0, c.hostCount));
      FirstApart(c, rest);
      DistinctConcat(own, more);
      assert NoClash(cs) <==> NoClash(rest) && forall j :: 0 <= j < |rest| ==> !Clash(c, rest[j]) by {
        NoClashCons(cs);
      }
    }
  }

  lemma NoClashCons(cs: seq<ClusterConfig>)
    requires cs != []
    ensures NoClash(cs) <==> NoClash(cs[1..]) && forall j :: 0 <= j < |cs[1..]| ==> !Clash(cs[0], cs[1..][j])
  {
    hide Clash;
    var rest := cs[1..];
    if NoClash(cs) {
      assert forall i :: 0 <= i < |rest| ==> rest[i] == cs[i + 1];
    }
    if NoClash(rest) && forall j :: 0 <= j < |rest| ==> !Clash(cs[0], rest[j]) {
      forall i, j | 0 <= i < j < |cs| ensures !Clash(cs[i], cs[j]) {
        assert cs[j] == rest[j - 1];
        if i > 0 {
          assert cs[i] == rest[i - 1];
        }
      }
    }
  }

  ghost predicate NamesApart(a: seq<HostId>, b: seq<HostId>) {
    forall x, y :: 0 <= x < |a| && 0 <= y < |b| ==> NameOf(a[x]) != NameOf(b[y])
  }

  lemma DistinctConcat(a: seq<HostId>, b: seq<HostId>)
    ensures NamesDistinct(a + b) <==> NamesDistinct(a) && NamesDistinct(b) && NamesApart(a, b)
  {
    hide NameOf;
    var ab := a + b;
    if NamesDistinct(ab) {
      forall x, y | 0 <= x < y < |a| ensures NameOf(a[x]) != NameOf(a[y]) {
        assert ab[x] == a[x] && ab[y] == a[y];
      }
      forall x, y | 0 <= x < y < |b| ensures NameOf(b[x]) != NameOf(b[y]) {
        assert ab[|a| + x] == b[x] && ab[|a| + y] == b[y];
      }
      forall x, y | 0 <= x < |a| && 0 <= y < |b| ensures NameOf(a[x]) != NameOf(b[y]) {
        assert ab[x] == a[x] && ab[|a| + y] == b[y];
      }
    }
    if NamesDistinct(a) && NamesDistinct(b) && NamesApart(a, b) {
      forall x, y | 0 <= x < y < |ab| ensures NameOf(ab[x]) != NameOf(ab[y]) {
        assert y >= |a| ==> ab[y] == b[y - |a|];
        assert x >= |a| ==> ab[x] == b[x - |a|];
      }
    }
  }

  lemma FirstApart(c: ClusterConfig, rest: seq<ClusterConfig>)
    ensures NamesApart(HostsOf(c, AtLeast(0, c.hostCount)), AllHosts(rest))
            <==> forall j :: 0 <= j < |rest| ==> !Clash(c, rest[j])
  {
    hide HostName, Clash;
    var own, more := HostsOf(c, AtLeast(0, c.hostCount)), AllHosts(rest);
    if NamesApart(own, more) {
      forall j | 0 <= j < |rest| ensures !Clash(c, rest[j]) {
        ClashIs(c, rest[j]);
        forall i, k | HostIn(c, i) && HostIn(rest[j], k)
          ensures HostName(c.hostPrefix, i) != HostName(rest[j].hostPrefix, k)
        {
          var h := HostId(rest[j], k);
          Listed(rest, h);
          var y :| 0 <= y < |more| && more[y] == h;
          assert NameOf(own[i - 1]) != NameOf(more[y]);
        }
      }
    }
    if forall j :: 0 <= j < |rest| ==> !Clash(c, rest[j]) {
      forall x, y | 0 <= x < |own| && 0 <= y < |more| ensures NameOf(own[x]) != NameOf(more[y]) {
        Listed(rest, more[y]);
        var j :| 0 <= j < |rest| && rest[j] == more[y].cluster;
        ClashIs(c, rest[j]);
        assert HostIn(c, x + 1) && HostIn(rest[j], more[y].index);
      }
    }
  }

  // ---------- Which profile a hostname leads to ----------

  function ProfileOf(catalog: Catalog, h: HostId): Profile {
    ProfileForHost(catalog, h.cluster.name, h.index)
  }

  /** In a cluster of the catalog the first, third, fifth host get its first profile and the others its second;
      hosts of other clusters get the fallback. */
  lemma ProfilesAlternate(catalog: Catalog, c: ClusterConfig, i: nat)
    ensures c.name !in catalog.pairs ==> ProfileOf(catalog, HostId(c, i)) == catalog.fallback
    ensures c.name in catalog.pairs ==>
              && ProfileOf(catalog, HostId(c, 2 * i + 1)) == catalog.pairs[c.name].0
              && ProfileOf(catalog, HostId(c, 2 * i + 2)) == catalog.pairs[c.name].1
  {
  }

  /** The registry after registering these hosts in order. */
  function Registered(catalog: Catalog, hs: seq<HostId>): map<string, Profile> {
    if hs == [] then map[]
    else
      var h := hs[|hs| - 1];
      Registered(catalog, hs[..|hs| - 1])[NameOf(h) := ProfileOf(catalog, h)]
  }

  lemma RegisteredOneMore(catalog: Catalog, hs: seq<HostId>, h: HostId)
    ensures Registered(catalog, hs + [h]) == Registered(catalog, hs)[NameOf(h) := ProfileOf(catalog, h)]
  {
    assert (hs + [h])[..|hs|] == hs;
  }

  /** Looking the host's name up gives the profile of its own cluster and index. */
  predicate FindsOwn(catalog: Catalog, profiles: map<string, Profile>, h: HostId) {
    NameOf(h) in profiles && profiles[NameOf(h)] == ProfileOf(catalog, h)
  }

  /** Of equally named hosts all have the same profile. */
  ghost predicate SameNameSameProfile(catalog: Catalog, hs: seq<HostId>) {
    forall g, h :: g in hs && h in hs && NameOf(g) == NameOf(h) ==> ProfileOf(catalog, g) == ProfileOf(catalog, h)
  }

  /** Lookups answer right for every registered host exactly when equally named hosts have equal
      profiles. */
  lemma LookupsRight(catalog: Catalog, hs: seq<HostId>)
    ensures (forall h :: h in hs ==> FindsOwn(catalog, Registered(catalog, hs), h))
            <==> SameNameSameProfile(catalog, hs)
  {
    hide NameOf, ProfileOf;
    forall h | h in hs
      ensures exists g :: g in hs && NameOf(g) == NameOf(h) && FindsOwn(catalog, Registered(catalog, hs), g)
    {
      LastOfName(catalog, hs, h);
    }
  }

  /** A name leads to the last host registered under it. */
  lemma {:induction false} LastOfName(catalog: Catalog, hs: seq<HostId>, h: HostId)
    requires h in hs
    ensures exists g :: g in hs && NameOf(g) == NameOf(h) && FindsOwn(catalog, Registered(catalog, hs), g)
  {
    hide NameOf, ProfileOf;
    var init, last := hs[..|hs| - 1], hs[|hs| - 1];
    assert hs == init + [last];
    if NameOf(last) == NameOf(h) {
      assert FindsOwn(catalog, Registered(catalog, hs), last);
    } else {
      LastOfName(catalog, init, h);
      var g :| g in init && NameOf(g) == NameOf(h) && FindsOwn(catalog, Registered(catalog, init), g);
      assert FindsOwn(catalog, Registered(catalog, hs), g);
    }
  }

  /** In particular they do, at every point of Build, when no two clusters clash. */
  lemma NoClashFindsOwn(catalog: Catalog, cs: seq<ClusterConfig>, hs: seq<HostId>, h: HostId)
    requires NoClash(cs) && hs <= AllHosts(cs) && h in hs
    ensures FindsOwn(catalog, Registered(catalog, hs), h)
  {
    hide NameOf, AllHosts, ProfileOf, Registered, NoClash;
    NoClashIs(cs);
    forall f, g | f in hs && g in hs && NameOf(f) == NameOf(g) ensures f == g {
      var x :| 0 <= x < |hs| && hs[x] == f;
      var y :| 0 <= y < |hs| && hs[y] == g;
      assert AllHosts(cs)[x] == f && AllHosts(cs)[y] == g;
    }
    LookupsRight(catalog, hs);
  }

  /** The process-wide profile registry and the part of Build that fills it. `answers(n)` says whether
      the n-th step of Build that can stop it succeeds; building ends at the first failure. `order` lists
      the hosts registered, and `hooked` what the customization hook finds when each is created. */
  class ProfileRegistry {
    const catalog: Catalog
    var profiles: map<string, Profile>
    ghost var order: seq<HostId>
    ghost var hooked: seq<Option<Profile>>

    /** The registry is what registering these hosts in order makes it, and each host was created under
        its own profile. */
    ghost predicate Valid()
      reads this
    {
      && profiles == Registered(catalog, order)
      && |hooked| == |order| && forall k :: 0 <= k < |order| ==> hooked[k] == Some(ProfileOf(catalog, order[k]))
    }

    constructor (catalog: Catalog)
      ensures Valid() && order == [] && profiles == map[] && this.catalog == catalog
    {
      this.catalog, profiles, order, hooked := catalog, map[], [], [];
    }

    method Register(hostname: string, profile: Profile)
      modifies `profiles
      ensures profiles == old(profiles)[hostname := profile]
    {
      profiles := profiles[hostname := profile];
    }

    method Lookup(hostname: string) returns (r: Option<Profile>)
      ensures r == if hostname in profiles then Some(profiles[hostname]) else None
    {
      r := if hostname in profiles then Some(profiles[hostname]) else None;
    }

    /** One round: the profile is registered before the host is created, so that the hook, which runs
        during creation, finds it. */
    method RegisterAndCreate(cfg: ClusterConfig, i: nat)
      requires Valid()
      modifies `profiles, `order, `hooked
      ensures Valid() && order == old(order) + [HostId(cfg, i)]
    {
      hide Registered, HostName;
      var hostName := HostName(cfg.hostPrefix, i);
      RegisteredOneMore(catalog, order, HostId(cfg, i));
      Register(hostName, ProfileForHost(catalog, cfg.name, i));
      order := order + [HostId(cfg, i)];
      var found := Lookup(hostName);
      hooked := hooked + [found];
    }

    /** Returns how many steps were begun, and registers the hosts of those. */
    method BuildCluster(cfg: ClusterConfig, answers: nat -> bool, n: nat) returns (ok: bool, asked: nat)
      requires Valid()
      modifies `profiles, `order, `hooked
      ensures Valid() && order == old(order) + ClusterBy(cfg, asked)
      ensures UpToRefusal(answers, n, ClusterSteps(cfg), ok, asked)
    {
      hide Valid;
      if !answers(n) {
        assert ClusterBy(cfg, 1) == [];
        return false, 1;
      }
      if !answers(n + 1) {
        assert ClusterBy(cfg, 2) == [];
        return false, 2;
      }
      ok, asked := AddHosts(cfg, answers, n + 2);
      var more;
      asked := asked + 2;
      if ok {
        ok, more := FinishCluster(cfg, answers, n + asked);
        asked := asked + more;
      }
    }

    method AddHosts(cfg: ClusterConfig, answers: nat -> bool, n: nat) returns (ok: bool, reached: nat)
      requires Valid()
      modifies `profiles, `order, `hooked
      ensures Valid() && order == old(order) + HostsOf(cfg, reached)
      ensures UpToRefusal(answers, n, AtLeast(0, cfg.hostCount), ok, reached)
    {
      hide Valid;
      reached := 0;
      var i := 1;
      while i <= cfg.hostCount
        invariant i == reached + 1 && UpToRefusal(answers, n, reached, true, reached)
        invariant reached <= AtLeast(0, cfg.hostCount)
        invariant Valid() && order == old(order) + HostsOf(cfg, reached)
      {
        RegisterAndCreate(cfg, i);
        reached := i;
        assert HostsOf(cfg, reached) == HostsOf(cfg, reached - 1) + [HostId(cfg, i)];
        if !answers(n + i - 1) {
          return false, reached;
        }
        i := i + 1;
      }
      ok := true;
    }

    /** The shared datastore, the root pool, and each resource pool; failing VMs are only logged. */
    method FinishCluster(cfg: ClusterConfig, answers: nat -> bool, n: nat) returns (ok: bool, asked: nat)
      ensures UpToRefusal(answers, n, 2 + |cfg.resourcePools|, ok, asked)
    {
      if !answers(n) {
        return false, 1;
      }
      if !answers(n + 1) {
        return false, 2;
      }
      asked := 2;
      for i := 0 to |cfg.resourcePools|
        invariant asked == 2 + i && UpToRefusal(answers, n, asked, true, asked)
      {
        asked := asked + 1;
        if !answers(n + asked - 1) {
          return false, asked;
        }
      }
      ok := true;
    }

    method BuildDatacenter(cfg: DatacenterConfig, answers: nat -> bool, n: nat) returns (ok: bool, asked: nat)
      requires Valid()
      modifies `profiles, `order, `hooked
      ensures Valid() && UpToRefusal(answers, n, DatacenterSteps(cfg), ok, asked)
      ensures order == old(order) + DatacenterBy(cfg, asked)
    {
      hide Valid, UpToRefusal, ClusterBy, ClustersBy, ClusterSteps, ClustersSteps, SoFar;
      var clusters := cfg.clusters;
      FirstStep(answers, n, DatacenterSteps(cfg));
      NothingBegun(clusters);
      if !answers(n) {
        return false, 1;
      }
      asked := 0;
      ghost var done, left := [], ClustersSteps(clusters);
      SoFarNone(clusters);
      NoneRefused(answers, n + 1);
      for k := 0 to |clusters|
        invariant Valid() && order == old(order) + done && SoFar(clusters, k, asked, done)
        invariant UpToRefusal(answers, n + 1, asked, true, asked) && asked + ClustersSteps(clusters[k..]) == left
      {
        StepsHere(clusters, k);
        var more;
        ok, more := BuildCluster(clusters[k], answers, n + 1 + asked);
        NextRefusal(answers, n + 1, asked, ClusterSteps(clusters[k]), left, ok, more);
        SoFarMore(clusters, k, asked, done, more);
        OrderOneMore(old(order), done, ClusterBy(clusters[k], more));
        done := done + ClusterBy(clusters[k], more);
        asked := asked + more;
        if !ok {
          OneStepMore(answers, n, left, false, asked);
          return false, asked + 1;
        }
      }
      SoFarAll(clusters, asked, done);
      OneStepMore(answers, n, left, true, asked);
      return true, asked + 1;
    }

    /** Registers the hosts of the configuration in order, as far as the steps begun reach. */
    method Build(cfg: Config, answers: nat -> bool) returns (ok: bool, asked: nat)
      requires Valid()
      modifies `profiles, `order, `hooked
      ensures Valid() && UpToRefusal(answers, 0, AllSteps(cfg.datacenters), ok, asked)
      ensures order == old(order) + AllBy(cfg.datacenters, asked)
    {
      hide Valid, UpToRefusal, DatacenterBy, DatacenterSteps, AllBy, AllSteps, Through;
      var dcs := cfg.datacenters;
      asked := 0;
      ghost var done := [];
      ThroughNone(dcs);
      NoneRefused(answers, 0);
      for d := 0 to |dcs|
        invariant Valid() && order == old(order) + done && Through(dcs, d, asked, done)
        invariant UpToRefusal(answers, 0, asked, true, asked) && asked + AllSteps(dcs[d..]) == AllSteps(dcs)
      {
        StepsThere(dcs, d);
        var more;
        ok, more := BuildDatacenter(dcs[d], answers, asked);
        NextRefusal(answers, 0, asked, DatacenterSteps(dcs[d]), AllSteps(dcs), ok, more);
        ThroughMore(dcs, d, asked, done, more);
        OrderOneMore(old(order), done, DatacenterBy(dcs[d], more));
        done := done + DatacenterBy(dcs[d], more);
        asked := asked + more;
        if !ok {
          return false, asked;
        }
      }
      ThroughAll(dcs, asked, done);
      ok := true;
    }
  }

  // ---------- The steps of Build that can fail ----------

  /** Its folders, the cluster, each host, the datastore, the root pool and each resource pool. */
  function ClusterSteps(c: ClusterConfig): nat {
    2 + AtLeast(0, c.hostCount) + 2 + |c.resourcePools|
  }

  function ClustersSteps(cs: seq<ClusterConfig>): nat {
    if cs == [] then 0 else ClusterSteps(cs[0]) + ClustersSteps(cs[1..])
  }

  /** The datacenter itself, then its clusters. */
  function DatacenterSteps(dc: DatacenterConfig): nat {
    1 + ClustersSteps(dc.clusters)
  }

  function AllSteps(dcs: seq<DatacenterConfig>): nat {
    if dcs == [] then 0 else DatacenterSteps(dcs[0]) + AllSteps(dcs[1..])
  }

  /** The hosts registered when this many steps were begun: all whose own AddHost was. */
  function ClusterBy(c: ClusterConfig, asked: nat): seq<HostId> {
    var hosts := AtLeast(0, c.hostCount);
    HostsOf(c, if asked < 2 then 0 else if asked - 2 < hosts then asked - 2 else hosts)
  }

  function ClustersBy(cs: seq<ClusterConfig>, asked: nat): seq<HostId> {
    if cs == [] then []
    else ClusterBy(cs[0], asked) + ClustersBy(cs[1..], AtLeast(0, asked - ClusterSteps(cs[0])))
  }

  function DatacenterBy(dc: DatacenterConfig, asked: nat): seq<HostId> {
    ClustersBy(dc.clusters, AtLeast(0, asked - 1))
  }

  function AllBy(dcs: seq<DatacenterConfig>, asked: nat): seq<HostId> {
    if dcs == [] then []
    else DatacenterBy(dcs[0], asked) + AllBy(dcs[1..], AtLeast(0, asked - DatacenterSteps(dcs[0])))
  }

  /** In a datacenter with one cluster, the i-th host is registered once the step that adds it is begun: after the
      datacenter, its folders, the cluster and the hosts before it. */
  lemma StepOfHost(dc: DatacenterConfig, c: ClusterConfig, asked: nat, i: nat)
    requires dc.clusters == [c]
    ensures HostId(c, i) in AllBy([dc], asked) <==> 1 <= i <= c.hostCount && asked >= 3 + i
    ensures AllSteps([dc]) == 5 + AtLeast(0, c.hostCount) + |c.resourcePools|
  {
    assert [c][1..] == [] && [dc][1..] == [];
    assert AllBy([], AtLeast(0, asked - DatacenterSteps(dc))) == [] && AllSteps([]) == 0;
    assert ClustersSteps([c]) == ClusterSteps(c);
    var begun := ClusterBy(c, AtLeast(0, asked - 1));
    assert ClustersBy([c], AtLeast(0, asked - 1)) == begun;
    assert AllBy([dc], asked) == begun;
    if 1 <= i <= c.hostCount && asked >= 3 + i {
      assert begun[i - 1] == HostId(c, i);
    }
  }

  lemma {:induction false} NoClustersBy(cs: seq<ClusterConfig>)
    ensures ClustersBy(cs, 0) == []
  {
    if cs != [] {
      NoClustersBy(cs[1..]);
    }
  }

  lemma {:induction false} NoneBy(dcs: seq<DatacenterConfig>)
    ensures AllBy(dcs, 0) == []
  {
    if dcs != [] {
      NoClustersBy(dcs[0].clusters);
      NoneBy(dcs[1..]);
    }
  }

  lemma NothingBegun(cs: seq<ClusterConfig>)
    ensures ClustersBy(cs, 0) == []
  {
    NoClustersBy(cs);
  }

  /** Whatever Build has registered is the beginning of all hosts in order, and with every step begun it
      is all of them. */
  lemma {:induction false} ClustersByPrefix(cs: seq<ClusterConfig>, asked: nat)
    ensures ClustersBy(cs, asked) <= AllHosts(cs)
    ensures asked >= ClustersSteps(cs) ==> ClustersBy(cs, asked) == AllHosts(cs)
    decreases cs
  {
    if cs != [] {
      var left := AtLeast(0, asked - ClusterSteps(cs[0]));
      var all := HostsOf(cs[0], AtLeast(0, cs[0].hostCount));
      ClustersByPrefix(cs[1..], left);
      assert ClusterBy(cs[0], asked) <= all;
      if asked < ClusterSteps(cs[0]) {
        NoClustersBy(cs[1..]);
      } else {
        assert ClusterBy(cs[0], asked) == all;
      }
    }
  }

  lemma {:induction false} AllByPrefix(dcs: seq<DatacenterConfig>, asked: nat)
    ensures AllBy(dcs, asked) <= AllHosts(AllClusters(dcs))
    ensures asked >= AllSteps(dcs) ==> AllBy(dcs, asked) == AllHosts(AllClusters(dcs))
    decreases dcs
  {
    hide ClustersBy, ClustersSteps, AllHosts;
    if dcs == [] {
      NoHostsAtAll();
    } else {
      ClustersByPrefix(dcs[0].clusters, AtLeast(0, asked - 1));
      AllByPrefix(dcs[1..], AtLeast(0, asked - DatacenterSteps(dcs[0])));
      AllHostsConcat(dcs[0].clusters, AllClusters(dcs[1..]));
      if asked < DatacenterSteps(dcs[0]) {
        NoneBy(dcs[1..]);
      }
    }
  }

  lemma NoHostsAtAll()
    ensures AllHosts([]) == []
  {
  }

  /** With the first k clusters done in `asked` steps, m more steps add what the others get from them. */
  ghost predicate SoFar(cs: seq<ClusterConfig>, k: nat, asked: nat, done: seq<HostId>)
    requires k <= |cs|
  {
    forall m: nat :: ClustersBy(cs, asked + m) == done + ClustersBy(cs[k..], m)
  }

  lemma StepsHere(cs: seq<ClusterConfig>, k: nat)
    requires k < |cs|
    ensures ClustersSteps(cs[k..]) == ClusterSteps(cs[k]) + ClustersSteps(cs[k + 1..])
  {
    assert cs[k..][1..] == cs[k + 1..];
  }

  lemma StepsThere(dcs: seq<DatacenterConfig>, d: nat)
    requires d < |dcs|
    ensures AllSteps(dcs[d..]) == DatacenterSteps(dcs[d]) + AllSteps(dcs[d + 1..])
  {
    assert dcs[d..][1..] == dcs[d + 1..];
  }

  lemma OrderOneMore(was: seq<HostId>, done: seq<HostId>, here: seq<HostId>)
    ensures was + done + here == was + (done + here)
  {
  }

  lemma SoFarNone(cs: seq<ClusterConfig>)
    ensures SoFar(cs, 0, 0, []) && ClustersSteps(cs[0..]) == ClustersSteps(cs)
  {
    assert cs[0..] == cs;
  }

  lemma SoFarMore(cs: seq<ClusterConfig>, k: nat, asked: nat, done: seq<HostId>, more: nat)
    requires k < |cs| && SoFar(cs, k, asked, done) && more <= ClusterSteps(cs[k])
    ensures ClustersBy(cs, asked + more) == done + ClusterBy(cs[k], more)
    ensures more == ClusterSteps(cs[k]) ==> SoFar(cs, k + 1, asked + more, done + ClusterBy(cs[k], more))
  {
    hide ClusterBy, ClustersBy, ClusterSteps;
    var here, rest := cs[k], cs[k + 1..];
    NoClustersBy(rest);
    ClustersByHere(cs, k, more);
    SoFarUse(cs, k, asked, done, more);
    if more == ClusterSteps(here) {
      forall m: nat ensures ClustersBy(cs, asked + more + m) == done + ClusterBy(here, more) + ClustersBy(rest, m) {
        SoFarStep(cs, k, asked, done, m);
      }
    }
  }

  lemma SoFarUse(cs: seq<ClusterConfig>, k: nat, asked: nat, done: seq<HostId>, m: nat)
    requires k <= |cs| && SoFar(cs, k, asked, done)
    ensures ClustersBy(cs, asked + m) == done + ClustersBy(cs[k..], m)
  {
    hide ClustersBy;
  }

  lemma ClustersByHere(cs: seq<ClusterConfig>, k: nat, m: nat)
    requires k < |cs|
    ensures ClustersBy(cs[k..], m) == ClusterBy(cs[k], m) + ClustersBy(cs[k + 1..], AtLeast(0, m - ClusterSteps(cs[k])))
  {
    hide ClusterBy, ClusterSteps;
    assert cs[k..][1..] == cs[k + 1..];
  }

  lemma SoFarStep(cs: seq<ClusterConfig>, k: nat, asked: nat, done: seq<HostId>, m: nat)
    requires k < |cs| && SoFar(cs, k, asked, done)
    ensures var steps := ClusterSteps(cs[k]);
            ClustersBy(cs, asked + steps + m) == done + ClusterBy(cs[k], steps) + ClustersBy(cs[k + 1..], m)
  {
    hide ClusterBy, ClustersBy, ClusterSteps, SoFar;
    var steps := ClusterSteps(cs[k]);
    FullCluster(cs[k], steps + m);
    ClustersByHere(cs, k, steps + m);
    assert asked + (steps + m) == asked + steps + m;
    OrderOneMore(done, ClusterBy(cs[k], steps), ClustersBy(cs[k + 1..], m));
    SoFarUse(cs, k, asked, done, steps + m);
  }

  lemma FullCluster(c: ClusterConfig, asked: nat)
    requires asked >= ClusterSteps(c)
    ensures ClusterBy(c, asked) == ClusterBy(c, ClusterSteps(c))
  {
  }

  lemma SoFarAll(cs: seq<ClusterConfig>, asked: nat, done: seq<HostId>)
    requires SoFar(cs, |cs|, asked, done)
    ensures ClustersBy(cs, asked) == done && ClustersSteps(cs[|cs|..]) == 0
  {
    assert ClustersBy(cs, asked + 0) == done + ClustersBy(cs[|cs|..], 0);
  }

  ghost predicate Through(dcs: seq<DatacenterConfig>, d: nat, asked: nat, done: seq<HostId>)
    requires d <= |dcs|
  {
    forall m: nat :: AllBy(dcs, asked + m) == done + AllBy(dcs[d..], m)
  }

  lemma ThroughNone(dcs: seq<DatacenterConfig>)
    ensures Through(dcs, 0, 0, []) && AllSteps(dcs[0..]) == AllSteps(dcs)
  {
    assert dcs[0..] == dcs;
  }

  lemma ThroughMore(dcs: seq<DatacenterConfig>, d: nat, asked: nat, done: seq<HostId>, more: nat)
    requires d < |dcs| && Through(dcs, d, asked, done) && more <= DatacenterSteps(dcs[d])
    ensures AllBy(dcs, asked + more) == done + DatacenterBy(dcs[d], more)
    ensures more == DatacenterSteps(dcs[d]) ==> Through(dcs, d + 1, asked + more, done + DatacenterBy(dcs[d], more))
  {
    hide DatacenterBy, AllBy, DatacenterSteps;
    var here, rest := dcs[d], dcs[d + 1..];
    NoneBy(rest);
    AllByHere(dcs, d, more);
    ThroughUse(dcs, d, asked, done, more);
    if more == DatacenterSteps(here) {
      forall m: nat ensures AllBy(dcs, asked + more + m) == done + DatacenterBy(here, more) + AllBy(rest, m) {
        ThroughStep(dcs, d, asked, done, m);
      }
    }
  }

  lemma ThroughUse(dcs: seq<DatacenterConfig>, d: nat, asked: nat, done: seq<HostId>, m: nat)
    requires d <= |dcs| && Through(dcs, d, asked, done)
    ensures AllBy(dcs, asked + m) == done + AllBy(dcs[d..], m)
  {
    hide AllBy;
  }

  lemma AllByHere(dcs: seq<DatacenterConfig>, d: nat, m: nat)
    requires d < |dcs|
    ensures AllBy(dcs[d..], m) == DatacenterBy(dcs[d], m) + AllBy(dcs[d + 1..], AtLeast(0, m - DatacenterSteps(dcs[d])))
  {
    hide DatacenterBy, DatacenterSteps;
    assert dcs[d..][1..] == dcs[d + 1..];
  }

  lemma ThroughStep(dcs: seq<DatacenterConfig>, d: nat, asked: nat, done: seq<HostId>, m: nat)
    requires d < |dcs| && Through(dcs, d, asked, done)
    ensures var steps := DatacenterSteps(dcs[d]);
            AllBy(dcs, asked + steps + m) == done + DatacenterBy(dcs[d], steps) + AllBy(dcs[d + 1..], m)
  {
    hide DatacenterBy, AllBy, DatacenterSteps, Through;
    var steps := DatacenterSteps(dcs[d]);
    FullDatacenter(dcs[d], steps + m);
    AllByHere(dcs, d, steps + m);
    assert asked + (steps + m) == asked + steps + m;
    OrderOneMore(done, DatacenterBy(dcs[d], steps), AllBy(dcs[d + 1..], m));
    ThroughUse(dcs, d, asked, done, steps + m);
  }

  lemma FullDatacenter(dc: DatacenterConfig, asked: nat)
    requires asked >= DatacenterSteps(dc)
    ensures DatacenterBy(dc, asked) == DatacenterBy(dc, DatacenterSteps(dc))
  {
    ClustersByPrefix(dc.clusters, asked - 1);
    ClustersByPrefix(dc.clusters, DatacenterSteps(dc) - 1);
  }

  lemma ThroughAll(dcs: seq<DatacenterConfig>, asked: nat, done: seq<HostId>)
    requires Through(dcs, |dcs|, asked, done)
    ensures AllBy(dcs, asked) == done && AllSteps(dcs[|dcs|..]) == 0
  {
    assert AllBy(dcs, asked + 0) == done + AllBy(dcs[|dcs|..], 0);
  }

  /** Of `total` steps from the n-th on, `begun` were begun: all if none failed, else up to and with the
      first that failed. */
  ghost predicate UpToRefusal(answers: nat -> bool, n: nat, total: nat, ok: bool, begun: nat) {
    && (if ok then begun == total else 0 < begun <= total && !answers(n + begun - 1))
    && (forall k :: n <= k < n + (if ok then begun else begun - 1) ==> answers(k))
  }

  lemma NoneRefused(answers: nat -> bool, n: nat)
    ensures UpToRefusal(answers, n, 0, true, 0)
  {
  }

  lemma FirstStep(answers: nat -> bool, n: nat, total: nat)
    requires total > 0
    ensures !answers(n) ==> UpToRefusal(answers, n, total, false, 1)
  {
  }

  lemma OneStepMore(answers: nat -> bool, n: nat, total: nat, ok: bool, begun: nat)
    requires answers(n) && UpToRefusal(answers, n + 1, total, ok, begun)
    ensures UpToRefusal(answers, n, 1 + total, ok, begun + 1)
  {
  }

  lemma NextRefusal(answers: nat -> bool, n: nat, before: nat, here: nat, total: nat, ok: bool, more: nat)
    requires UpToRefusal(answers, n, before, true, before) && UpToRefusal(answers, n + before, here, ok, more)
    requires before + here <= total
    ensures if ok then UpToRefusal(answers, n, before + more, true, before + more)
            else UpToRefusal(answers, n, total, false, before + more)
    ensures more <= here && (ok ==> more == here)
  {
  }

  /** So at every point of Build, whatever step stops it, each host registered finds its own profile when
      no two clusters clash. */
  lemma BuildFindsOwn(catalog: Catalog, dcs: seq<DatacenterConfig>, asked: nat, h: HostId)
    requires NoClash(AllClusters(dcs)) && h in AllBy(dcs, asked)
    ensures FindsOwn(catalog, Registered(catalog, AllBy(dcs, asked)), h)
  {
    hide NoClash, AllBy, FindsOwn, AllHosts;
    AllByPrefix(dcs, asked);
    NoClashFindsOwn(catalog, AllClusters(dcs), AllBy(dcs, asked), h);
  }

  // ---------- Layouts without clashes ----------

  /** Clusters of different entries of the configuration have different host prefixes, and no
      prefix ends in a digit. */
  ghost predicate GoodPrefixes(cs: seq<ClusterConfig>) {
    && (forall i :: 0 <= i < |cs| ==> !EndsInDigit(cs[i].hostPrefix))
    && (forall i, j :: 0 <= i < j < |cs| ==> cs[i].hostPrefix != cs[j].hostPrefix)
  }

  /** A convenient special case: a prefix that does not end in a digit extends no other. */
  lemma GoodMeansNoClash(cs: seq<ClusterConfig>)
    requires GoodPrefixes(cs)
    ensures NoClash(cs)
  {
    forall i, j | 0 <= i < |cs| && 0 <= j < |cs| ensures !Extends(cs[i].hostPrefix, cs[j].hostPrefix) {
      ExtendingEndsInDigit(cs[i].hostPrefix, cs[j].hostPrefix);
    }
  }

  lemma ExtendingEndsInDigit(p: string, q: string)
    ensures Extends(p, q) ==> EndsInDigit(q)
  {
    if Extends(p, q) {
      assert q[|p|..][|q| - |p| - 1] == q[|q| - 1];
    }
  }

  ghost predicate PrintedFrom(p: string, d: nat) {
    exists d': nat, c: nat :: d <= d' && p == HostPrefix(d', c)
  }

  lemma DatacenterPrefixes(clusters: nat, hosts: int, vms: nat, ds: nat, dvs: nat, d: nat)
    ensures var cs := Datacenter(clusters, hosts, vms, ds, dvs, d).clusters;
            GoodPrefixes(cs) && forall k :: 0 <= k < |cs| ==> cs[k].hostPrefix == HostPrefix(d, k + 1)
  {
    hide HostPrefix, Pools;
    var cs := Datacenter(clusters, hosts, vms, ds, dvs, d).clusters;
    forall i | 0 <= i < |cs| ensures cs[i].hostPrefix == HostPrefix(d, i + 1) && !EndsInDigit(cs[i].hostPrefix) {
      HostPrefixInjective(d, i + 1, d, i + 1);
    }
    forall i, j | 0 <= i < j < |cs| ensures cs[i].hostPrefix != cs[j].hostPrefix {
      HostPrefixInjective(d, i + 1, d, j + 1);
    }
  }

  lemma GoodConcat(first: seq<ClusterConfig>, rest: seq<ClusterConfig>, d: nat)
    requires GoodPrefixes(first) && GoodPrefixes(rest)
    requires forall k :: 0 <= k < |first| ==> first[k].hostPrefix == HostPrefix(d, k + 1)
    requires forall k :: 0 <= k < |rest| ==> PrintedFrom(rest[k].hostPrefix, d + 1)
    ensures GoodPrefixes(first + rest)
    ensures forall k :: 0 <= k < |first + rest| ==> PrintedFrom((first + rest)[k].hostPrefix, d)
  {
    hide HostPrefix;
    forall i, j | 0 <= i < |first| && 0 <= j < |rest| ensures first[i].hostPrefix != rest[j].hostPrefix {
      assert PrintedFrom(rest[j].hostPrefix, d + 1);
      var d': nat, c: nat :| d + 1 <= d' && rest[j].hostPrefix == HostPrefix(d', c);
      HostPrefixInjective(d, i + 1, d', c);
    }
    forall k | 0 <= k < |first + rest| ensures PrintedFrom((first + rest)[k].hostPrefix, d) {
      if k >= |first| {
        assert PrintedFrom(rest[k - |first|].hostPrefix, d + 1);
      }
    }
  }

  lemma {:induction false} PrefixesFrom(
    list: seq<DatacenterConfig>, clusters: nat, hosts: int, vms: nat, ds: nat, dvs: nat, d: nat)
    requires forall k :: 0 <= k < |list| ==> list[k] == Datacenter(clusters, hosts, vms, ds, dvs, d + k)
    ensures var cs := AllClusters(list);
            GoodPrefixes(cs) && forall k :: 0 <= k < |cs| ==> PrintedFrom(cs[k].hostPrefix, d)
    decreases list
  {
    hide Datacenter, PrintedFrom, GoodPrefixes;
    if list == [] {
      NoClusters();
    } else {
      forall k | 0 <= k < |list[1..]| ensures list[1..][k] == Datacenter(clusters, hosts, vms, ds, dvs, d + 1 + k) {
        assert list[1..][k] == list[k + 1];
      }
      PrefixesFrom(list[1..], clusters, hosts, vms, ds, dvs, d + 1);
      assert list[0] == Datacenter(clusters, hosts, vms, ds, dvs, d + 0);
      DatacenterPrefixes(clusters, hosts, vms, ds, dvs, d);
      GoodConcat(list[0].clusters, AllClusters(list[1..]), d);
    }
  }

  lemma NoClusters()
    ensures GoodPrefixes([])
  {
  }

  /** Every layout that SimpleConfig prints has pairwise distinct host prefixes, none ending in a
      digit, so no host names clash: every point of Build on it keeps profile lookups right. */
  lemma LayoutPrefixesGood(dcs: int, clusters: int, hosts: int, vms: int, ds: int, dvs: int)
    ensures var cs := AllClusters(Layout(dcs, clusters, hosts, vms, ds, dvs).datacenters);
            GoodPrefixes(cs) && NoClash(cs)
  {
    hide Datacenter, GoodPrefixes, NoClash;
    PrefixesFrom(Layout(dcs, clusters, hosts, vms, ds, dvs).datacenters,
                 AtLeast(1, clusters), AtLeast(1, hosts), AtLeast(0, vms), AtLeast(1, ds), AtLeast(0, dvs), 1);
    GoodMeansNoClash(AllClusters(Layout(dcs, clusters, hosts, vms, ds, dvs).datacenters));
  }

  /** The host prefixes of the default five-datacenter layout, in order. */
  const DEFAULT_PREFIXES: seq<string> := [
    "ESXi-WEB-E", "ESXi-APP-E", "ESXi-DB-E", "ESXi-BD-E", "ESXi-PROD-W", "ESXi-DR-W", "ESXi-EDGE-W",
    "ESXi-EU", "ESXi-EU-C", "ESXi-APAC", "ESXi-APAC-D", "ESXi-DEV", "ESXi-STG", "ESXi-SBX"]

  lemma DefaultPrefixesApart(i: nat, j: nat)
    requires i < j < |DEFAULT_PREFIXES|
    ensures DEFAULT_PREFIXES[i] != DEFAULT_PREFIXES[j]
  {
  }

  /** Nor do any in the default layout. */
  lemma DefaultPrefixesGood(cs: seq<ClusterConfig>)
    requires |cs| == |DEFAULT_PREFIXES| && forall i :: 0 <= i < |cs| ==> cs[i].hostPrefix == DEFAULT_PREFIXES[i]
    ensures GoodPrefixes(cs) && NoClash(cs)
  {
    forall i, j | 0 <= i < j < |cs| ensures cs[i].hostPrefix != cs[j].hostPrefix {
      DefaultPrefixesApart(i, j);
    }
    GoodMeansNoClash(cs);
  }
}
