/** The topology list that cmd/topoxml builds and the linkage check it runs over it. */
module Topology {
  import opened Wrappers

  datatype Dc = Dc(name: string, mor: string, hostFolder: string)
  datatype Cluster = Cluster(name: string, mor: string, parent: Option<string>)
  datatype Host = Host(name: string, mor: string, parent: Option<string>, uuid: Option<string>)

  /** A list element: it links to an element of parentType whose uuid is its parent. */
  datatype Item = Item(name: string, typ: string, parent: string, parentType: string, uuid: string, morId: string)

  predicate BelongsToDc(clusterParent: Option<string>, d: Dc) {
    clusterParent == Some(d.hostFolder)
  }

  // ---------- The list, as a specification ----------

  function DcItem(d: Dc): Item {
    Item(d.name, "Datacenter", "-1", "-1", d.mor, "")
  }

  function ClusterItem(c: Cluster, d: Dc): Item {
    Item(c.name, "ClusterComputeResource", d.mor, "Datacenter", c.mor, c.mor)
  }

  function HostItem(h: Host, c: Cluster): Item {
    Item(h.name, "HostSystem", c.mor, "ClusterComputeResource", if h.uuid.Some? then h.uuid.value else "", h.mor)
  }

  function HostItems(hosts: seq<Host>, c: Cluster): seq<Item> {
    if hosts == [] then []
    else (if hosts[0].parent == Some(c.mor) then [HostItem(hosts[0], c)] else []) + HostItems(hosts[1..], c)
  }

  function ClusterItems(clusters: seq<Cluster>, hosts: seq<Host>, d: Dc): seq<Item> {
    if clusters == [] then []
    else (if BelongsToDc(clusters[0].parent, d) then [ClusterItem(clusters[0], d)] + HostItems(hosts, clusters[0])
          else [])
         + ClusterItems(clusters[1..], hosts, d)
  }

  function Items(dcs: seq<Dc>, clusters: seq<Cluster>, hosts: seq<Host>): seq<Item> {
    if dcs == [] then []
    else [DcItem(dcs[0])] + ClusterItems(clusters, hosts, dcs[0]) + Items(dcs[1..], clusters, hosts)
  }

  /** The nested loops of main. */
  method BuildList(dcs: seq<Dc>, clusters: seq<Cluster>, hosts: seq<Host>) returns (list: seq<Item>)
    ensures list == Items(dcs, clusters, hosts)
  {
    list := [];
    for i := 0 to |dcs|
      invariant list + Items(dcs[i..], clusters, hosts) == Items(dcs, clusters, hosts)
    {
      assert dcs[i..][1..] == dcs[i + 1..];
      list := AddDatacenter(list, dcs[i], clusters, hosts);
    }
  }

  method AddDatacenter(soFar: seq<Item>, d: Dc, clusters: seq<Cluster>, hosts: seq<Host>) returns (list: seq<Item>)
    ensures list == soFar + ([DcItem(d)] + ClusterItems(clusters, hosts, d))
  {
    ghost var whole := soFar + ([DcItem(d)] + ClusterItems(clusters, hosts, d));
    list := soFar + [DcItem(d)];
    for j := 0 to |clusters|
      invariant list + ClusterItems(clusters[j..], hosts, d) == whole
    {
      assert clusters[j..][1..] == clusters[j + 1..];
      if !BelongsToDc(clusters[j].parent, d) {
        continue;
      }
      list := AddCluster(list, clusters[j], hosts, d);
    }
  }

  method AddCluster(soFar: seq<Item>, c: Cluster, hosts: seq<Host>, d: Dc) returns (list: seq<Item>)
    ensures list == soFar + ([ClusterItem(c, d)] + HostItems(hosts, c))
  {
    list := soFar + [ClusterItem(c, d)];
    for k := 0 to |hosts|
      invariant list + HostItems(hosts[k..], c) == soFar + ([ClusterItem(c, d)] + HostItems(hosts, c))
    {
      assert hosts[k..][1..] == hosts[k + 1..];
      var h := hosts[k];
      if h.parent == None || h.parent.value != c.mor {
        continue;
      }
      var uuid := "";
      if h.uuid.Some? {
        uuid := h.uuid.value;
      }
      list := list + [Item(h.name, "HostSystem", c.mor, "ClusterComputeResource", uuid, h.mor)];
    }
  }

  /** The element stands for this datacenter, cluster or host of the inventory. */
  predicate DcShown(e: Item, d: Dc) {
    && e.name == d.name && e.typ == "Datacenter" && e.parent == "-1" && e.parentType == "-1"
    && e.uuid == d.mor && e.morId == ""
  }

  predicate ClusterShown(e: Item, c: Cluster, d: Dc) {
    && e.name == c.name && e.typ == "ClusterComputeResource" && e.parent == d.mor && e.parentType == "Datacenter"
    && e.uuid == c.mor && e.morId == c.mor
  }

  predicate HostShown(e: Item, h: Host, c: Cluster) {
    && e.name == h.name && e.typ == "HostSystem" && e.parent == c.mor && e.parentType == "ClusterComputeResource"
    && e.morId == h.mor && (h.uuid.Some? ==> e.uuid == h.uuid.value) && (h.uuid.None? ==> e.uuid == "")
  }

  ghost predicate HostListed(e: Item, hosts: seq<Host>, c: Cluster) {
    exists h :: h in hosts && h.parent == Some(c.mor) && HostShown(e, h, c)
  }

  ghost predicate ClusterListed(e: Item, c: Cluster, hosts: seq<Host>, d: Dc) {
    c.parent == Some(d.hostFolder) && (ClusterShown(e, c, d) || HostListed(e, hosts, c))
  }

  lemma {:induction false} HostItemsAre(e: Item, hosts: seq<Host>, c: Cluster)
    ensures e in HostItems(hosts, c) <==> HostListed(e, hosts, c)
  {
    if hosts != [] {
      HostItemsAre(e, hosts[1..], c);
      assert hosts == [hosts[0]] + hosts[1..];
      assert e == HostItem(hosts[0], c) <==> HostShown(e, hosts[0], c);
    }
  }

  ghost predicate SomeClusterListed(e: Item, clusters: seq<Cluster>, hosts: seq<Host>, d: Dc) {
    exists c :: c in clusters && ClusterListed(e, c, hosts, d)
  }

  lemma {:induction false} ClusterItemsAre(e: Item, clusters: seq<Cluster>, hosts: seq<Host>, d: Dc)
    ensures e in ClusterItems(clusters, hosts, d) <==> SomeClusterListed(e, clusters, hosts, d)
  {
    hide HostListed;
    if clusters != [] {
      var c, rest := clusters[0], clusters[1..];
      var first := if BelongsToDc(c.parent, d) then [ClusterItem(c, d)] + HostItems(hosts, c) else [];
      HostItemsAre(e, hosts, c);
      ClusterItemsAre(e, rest, hosts, d);
      assert clusters == [c] + rest;
      assert e == ClusterItem(c, d) <==> ClusterShown(e, c, d);
      assert e in first <==> ClusterListed(e, c, hosts, d);
      assert SomeClusterListed(e, clusters, hosts, d) <==>
             ClusterListed(e, c, hosts, d) || SomeClusterListed(e, rest, hosts, d);
      assert e in ClusterItems(clusters, hosts, d) <==> e in first || e in ClusterItems(rest, hosts, d);
    }
  }

  /** What the list holds, field by field: the datacenters, the clusters in their host folders, and the hosts
      under those clusters, a host without uuid with an empty one. */
  lemma {:induction false} ListHolds(e: Item, dcs: seq<Dc>, clusters: seq<Cluster>, hosts: seq<Host>)
    ensures e in Items(dcs, clusters, hosts)
            <==> exists d :: d in dcs && (DcShown(e, d) || SomeClusterListed(e, clusters, hosts, d))
  {
    hide SomeClusterListed, ClusterItems;
    if dcs != [] {
      ClusterItemsAre(e, clusters, hosts, dcs[0]);
      ListHolds(e, dcs[1..], clusters, hosts);
      assert dcs == [dcs[0]] + dcs[1..];
      assert e == DcItem(dcs[0]) <==> DcShown(e, dcs[0]);
      assert e in [DcItem(dcs[0])] <==> e == DcItem(dcs[0]);
    }
  }

  /** How many hosts name this parent, and how many elements the clusters in this host folder bring. */
  function HostsWith(hosts: seq<Host>, parent: string): nat {
    if hosts == [] then 0 else (if hosts[0].parent == Some(parent) then 1 else 0) + HostsWith(hosts[1..], parent)
  }

  function ElementsIn(clusters: seq<Cluster>, hosts: seq<Host>, folder: string): nat {
    if clusters == [] then 0
    else
      (if clusters[0].parent == Some(folder) then 1 + HostsWith(hosts, clusters[0].mor) else 0)
      + ElementsIn(clusters[1..], hosts, folder)
  }

  function ElementsOf(dcs: seq<Dc>, clusters: seq<Cluster>, hosts: seq<Host>): nat {
    if dcs == [] then 0 else 1 + ElementsIn(clusters, hosts, dcs[0].hostFolder) + ElementsOf(dcs[1..], clusters, hosts)
  }

  lemma {:induction false} HostItemsCounted(hosts: seq<Host>, c: Cluster)
    ensures |HostItems(hosts, c)| == HostsWith(hosts, c.mor)
  {
    if hosts != [] {
      HostItemsCounted(hosts[1..], c);
    }
  }

  lemma {:induction false} ClusterItemsCounted(clusters: seq<Cluster>, hosts: seq<Host>, d: Dc)
    ensures |ClusterItems(clusters, hosts, d)| == ElementsIn(clusters, hosts, d.hostFolder)
  {
    if clusters != [] {
      HostItemsCounted(hosts, clusters[0]);
      ClusterItemsCounted(clusters[1..], hosts, d);
    }
  }

  /** No element is listed twice over: one for each datacenter, each cluster in its folder and each host below. */
  lemma {:induction false} ListLength(dcs: seq<Dc>, clusters: seq<Cluster>, hosts: seq<Host>)
    ensures |Items(dcs, clusters, hosts)| == ElementsOf(dcs, clusters, hosts)
  {
    if dcs != [] {
      ClusterItemsCounted(clusters, hosts, dcs[0]);
      ListLength(dcs[1..], clusters, hosts);
    }
  }

  // ---------- The linkage check ----------

  predicate Links(child: Item, p: Item) {
    p.typ == child.parentType && p.uuid == child.parent
  }

  predicate IsRoot(e: Item) {
    e.parent == "-1"
  }

  /** The element has a parent anywhere in the list. */
  predicate HasParent(list: seq<Item>, e: Item) {
    exists j :: 0 <= j < |list| && Links(e, list[j])
  }

  function CountRoots(list: seq<Item>): nat {
    if list == [] then 0 else (if IsRoot(list[0]) then 1 else 0) + CountRoots(list[1..])
  }

  /** Among `rest`, the elements with (or without) a parent in `list`. */
  function CountLinked(list: seq<Item>, rest: seq<Item>, has: bool): nat {
    if rest == [] then 0
    else (if !IsRoot(rest[0]) && HasParent(list, rest[0]) == has then 1 else 0) + CountLinked(list, rest[1..], has)
  }

  method CheckLinkage(list: seq<Item>) returns (linked: nat, orphan: nat)
    ensures linked == CountLinked(list, list, true) && orphan == CountLinked(list, list, false)
    ensures CountRoots(list) + linked + orphan == |list|
  {
    linked, orphan := 0, 0;
    ghost var roots := 0;
    for i := 0 to |list|
      invariant linked + CountLinked(list, list[i..], true) == CountLinked(list, list, true)
      invariant orphan + CountLinked(list, list[i..], false) == CountLinked(list, list, false)
      invariant roots + CountRoots(list[i..]) == CountRoots(list)
      invariant roots + linked + orphan == i
    {
      assert list[i..][1..] == list[i + 1..];
      var e := list[i];
      if e.parent == "-1" {
        roots := roots + 1;
        continue;
      }
      var found := FindParent(list, e);
      if found {
        linked := linked + 1;
      } else {
        orphan := orphan + 1;
      }
    }
  }

  /** No orphans: every element that is not a root finds an element of its parent type whose uuid is its parent. */
  lemma {:induction false} NoOrphansMeans(list: seq<Item>, rest: seq<Item>)
    ensures CountLinked(list, rest, false) == 0
            <==> forall e :: e in rest && e.parent != "-1" ==>
                   exists p :: p in list && p.typ == e.parentType && p.uuid == e.parent
    decreases rest
  {
    if rest != [] {
      NoOrphansMeans(list, rest[1..]);
      ParentIn(list, rest[0]);
      assert rest == [rest[0]] + rest[1..];
    }
  }

  lemma ParentIn(list: seq<Item>, e: Item)
    ensures HasParent(list, e) <==> exists p :: p in list && p.typ == e.parentType && p.uuid == e.parent
  {
    if p :| p in list && p.typ == e.parentType && p.uuid == e.parent {
      var j :| 0 <= j < |list| && list[j] == p;
      assert Links(e, list[j]);
    }
  }

  method FindParent(list: seq<Item>, e: Item) returns (found: bool)
    ensures found == HasParent(list, e)
  {
    found := false;
    for j := 0 to |list|
      invariant forall k :: 0 <= k < j ==> !Links(e, list[k])
    {
      if list[j].typ == e.parentType && list[j].uuid == e.parent {
        found := true;
        assert Links(e, list[j]);
        break;
      }
    }
  }

  // ---------- The built list is fully connected ----------

  /** The documented rule: a parent strictly before the child. */
  predicate HasPriorParent(list: seq<Item>, i: nat)
    requires i < |list|
  {
    exists j :: 0 <= j < i && Links(list[i], list[j])
  }

  /** Every element is a datacenter or a child of `above`, or has an earlier parent. */
  ghost predicate Under(above: seq<Item>, list: seq<Item>) {
    forall i :: 0 <= i < |list| ==>
      || (list[i].typ == "Datacenter" && IsRoot(list[i]))
      || HasParent(above, list[i]) || HasPriorParent(list, i)
  }

  lemma UnderConcat(above: seq<Item>, a: seq<Item>, b: seq<Item>)
    requires Under(above, a) && Under(above + a, b)
    ensures Under(above, a + b)
  {
    var ab := a + b;
    forall i | 0 <= i < |ab|
      ensures (ab[i].typ == "Datacenter" && IsRoot(ab[i])) || HasParent(above, ab[i]) || HasPriorParent(ab, i)
    {
      if i < |a| {
        assert ab[i] == a[i];
        if HasPriorParent(a, i) {
          var j :| 0 <= j < i && Links(a[i], a[j]);
          assert ab[j] == a[j];
        }
      } else {
        var k := i - |a|;
        assert ab[i] == b[k];
        if HasPriorParent(b, k) {
          var j :| 0 <= j < k && Links(b[k], b[j]);
          assert ab[|a| + j] == b[j];
        } else if HasParent(above + a, b[k]) {
          var j :| 0 <= j < |above + a| && Links(b[k], (above + a)[j]);
          if j < |above| {
            assert Links(ab[i], above[j]);
          } else {
            assert ab[j - |above|] == a[j - |above|];
          }
        }
      }
    }
  }

  lemma UnderWider(above: seq<Item>, more: seq<Item>, list: seq<Item>)
    requires Under(above, list)
    ensures Under(above + more, list)
    ensures Under(more + above, list)
  {
    forall e: Item | HasParent(above, e) ensures HasParent(above + more, e) && HasParent(more + above, e) {
      var j :| 0 <= j < |above| && Links(e, above[j]);
      assert (above + more)[j] == above[j] && (more + above)[|more| + j] == above[j];
    }
  }

  lemma {:induction false} HostsUnder(hosts: seq<Host>, c: Cluster, d: Dc)
    ensures Under([ClusterItem(c, d)], HostItems(hosts, c))
  {
    if hosts != [] {
      HostsUnder(hosts[1..], c, d);
      var up := [ClusterItem(c, d)];
      var first := if hosts[0].parent == Some(c.mor) then [HostItem(hosts[0], c)] else [];
      assert Under(up, first) by {
        if first != [] {
          assert Links(first[0], up[0]);
        }
      }
      UnderWider(up, first, HostItems(hosts[1..], c));
      UnderConcat(up, first, HostItems(hosts[1..], c));
    }
  }

  lemma OneCluster(c: Cluster, hosts: seq<Host>, d: Dc)
    ensures Under([DcItem(d)], [ClusterItem(c, d)] + HostItems(hosts, c))
  {
    var up, first := [DcItem(d)], [ClusterItem(c, d)];
    assert Links(first[0], up[0]);
    HostsUnder(hosts, c, d);
    UnderWider(first, up, HostItems(hosts, c));
    UnderConcat(up, first, HostItems(hosts, c));
  }

  lemma {:induction false} ClustersUnder(clusters: seq<Cluster>, hosts: seq<Host>, d: Dc)
    ensures Under([DcItem(d)], ClusterItems(clusters, hosts, d))
  {
    if clusters != [] {
      ClustersUnder(clusters[1..], hosts, d);
      OneCluster(clusters[0], hosts, d);
      var first :=
        if BelongsToDc(clusters[0].parent, d) then [ClusterItem(clusters[0], d)] + HostItems(hosts, clusters[0])
        else [];
      UnderWider([DcItem(d)], first, ClusterItems(clusters[1..], hosts, d));
      UnderConcat([DcItem(d)], first, ClusterItems(clusters[1..], hosts, d));
    }
  }

  lemma {:induction false} ListUnder(dcs: seq<Dc>, clusters: seq<Cluster>, hosts: seq<Host>)
    ensures Under([], Items(dcs, clusters, hosts))
  {
    if dcs != [] {
      var first := [DcItem(dcs[0])];
      ClustersUnder(clusters, hosts, dcs[0]);
      assert [] + first == first;
      UnderConcat([], first, ClusterItems(clusters, hosts, dcs[0]));
      ListUnder(dcs[1..], clusters, hosts);
      var block := first + ClusterItems(clusters, hosts, dcs[0]);
      UnderWider([], block, Items(dcs[1..], clusters, hosts));
      assert [] + block == block;
      UnderConcat([], block, Items(dcs[1..], clusters, hosts));
    }
  }

  lemma {:induction false} NoneMissing(list: seq<Item>, rest: seq<Item>)
    requires forall i :: 0 <= i < |rest| ==> IsRoot(rest[i]) || HasParent(list, rest[i])
    ensures CountLinked(list, rest, false) == 0
  {
    if rest != [] {
      NoneMissing(list, rest[1..]);
    }
  }

  /** For every inventory the check finds no orphan on the list the loops build, and each element
      that is not a root has its parent at a strictly smaller index: so searching the whole list
      gives the same verdict as the documented "prior element" rule. */
  lemma BuiltListConnected(dcs: seq<Dc>, clusters: seq<Cluster>, hosts: seq<Host>)
    ensures var list := Items(dcs, clusters, hosts);
            && CountLinked(list, list, false) == 0
            && (forall i :: 0 <= i < |list| && !IsRoot(list[i]) ==> HasParent(list, list[i]) && HasPriorParent(list, i))
  {
    var list := Items(dcs, clusters, hosts);
    ListUnder(dcs, clusters, hosts);
    forall i | 0 <= i < |list| && !IsRoot(list[i]) ensures HasParent(list, list[i]) && HasPriorParent(list, i) {
      assert !HasParent([], list[i]);
      assert HasPriorParent(list, i);
    }
    NoneMissing(list, list);
  }

  /** On other lists the two rules differ: a child listed before its parent. */
  lemma OrderMatters()
    ensures exists list: seq<Item> ::
              |list| == 2 && HasParent(list, list[0]) && !HasPriorParent(list, 0) && !IsRoot(list[0])
  {
    var d := Dc("dc", "dc-1", "f");
    var list := [ClusterItem(Cluster("c", "c-1", Some("f")), d), DcItem(d)];
    assert Links(list[0], list[1]);
    assert |list| == 2 && HasParent(list, list[0]) && !HasPriorParent(list, 0) && !IsRoot(list[0]);
  }

  // ---------- Roots ----------

  lemma {:induction false} RootsConcat(a: seq<Item>, b: seq<Item>)
    ensures CountRoots(a + b) == CountRoots(a) + CountRoots(b)
  {
    if a == [] {
      assert a + b == b;
    } else {
      assert (a + b)[1..] == a[1..] + b;
      RootsConcat(a[1..], b);
    }
  }

  /** Elements that are not datacenters but read as roots: their parent's id is "-1". */
  function FalseRoots(list: seq<Item>): nat {
    if list == [] then 0
    else (if IsRoot(list[0]) && list[0].typ != "Datacenter" then 1 else 0) + FalseRoots(list[1..])
  }

  lemma {:induction false} FalseRootsConcat(a: seq<Item>, b: seq<Item>)
    ensures FalseRoots(a + b) == FalseRoots(a) + FalseRoots(b)
  {
    if a == [] {
      assert a + b == b;
    } else {
      assert (a + b)[1..] == a[1..] + b;
      FalseRootsConcat(a[1..], b);
    }
  }

  lemma {:induction false} ChildRoots(list: seq<Item>)
    requires forall i :: 0 <= i < |list| ==> list[i].typ != "Datacenter"
    ensures CountRoots(list) == FalseRoots(list)
  {
    if list != [] {
      ChildRoots(list[1..]);
    }
  }

  lemma {:induction false} HostTypes(hosts: seq<Host>, c: Cluster)
    ensures forall i :: 0 <= i < |HostItems(hosts, c)| ==> HostItems(hosts, c)[i].typ == "HostSystem"
  {
    if hosts != [] {
      HostTypes(hosts[1..], c);
    }
  }

  lemma {:induction false} ClusterTypes(clusters: seq<Cluster>, hosts: seq<Host>, d: Dc)
    ensures forall i :: 0 <= i < |ClusterItems(clusters, hosts, d)| ==>
              ClusterItems(clusters, hosts, d)[i].typ != "Datacenter"
  {
    if clusters != [] {
      HostTypes(hosts, clusters[0]);
      ClusterTypes(clusters[1..], hosts, d);
    }
  }

  /** The roots are the datacenters plus the false roots. */
  lemma {:induction false} RootsAreDatacenters(dcs: seq<Dc>, clusters: seq<Cluster>, hosts: seq<Host>)
    ensures var list := Items(dcs, clusters, hosts); CountRoots(list) == |dcs| + FalseRoots(list)
  {
    if dcs != [] {
      var first, mid, rest := [DcItem(dcs[0])], ClusterItems(clusters, hosts, dcs[0]), Items(dcs[1..], clusters, hosts);
      RootsAreDatacenters(dcs[1..], clusters, hosts);
      ClusterTypes(clusters, hosts, dcs[0]);
      ChildRoots(mid);
      RootsConcat(first, mid);
      RootsConcat(first + mid, rest);
      FalseRootsConcat(first, mid);
      FalseRootsConcat(first + mid, rest);
      assert first[1..] == [];
    }
  }

  /** Some child of the cluster, or the cluster under this datacenter, hangs under an object with id "-1". */
  ghost predicate FalseRootAt(d: Dc, c: Cluster, hosts: seq<Host>) {
    && BelongsToDc(c.parent, d)
    && (d.mor == "-1" || (c.mor == "-1" && HasHost(hosts, c)))
  }

  predicate HasHost(hosts: seq<Host>, c: Cluster) {
    exists h :: h in hosts && h.parent == Some(c.mor)
  }

  lemma {:induction false} HostFalseRoots(hosts: seq<Host>, c: Cluster)
    ensures FalseRoots(HostItems(hosts, c)) == 0 <==> !(c.mor == "-1" && HasHost(hosts, c))
  {
    if hosts != [] {
      var first, rest := if hosts[0].parent == Some(c.mor) then [HostItem(hosts[0], c)] else [], hosts[1..];
      HostFalseRoots(rest, c);
      FalseRootsConcat(first, HostItems(rest, c));
      assert hosts == [hosts[0]] + rest;
      assert first != [] ==> first[1..] == [];
      assert HasHost(hosts, c) <==> hosts[0].parent == Some(c.mor) || HasHost(rest, c);
    }
  }

  lemma {:induction false} ClusterFalseRoots(clusters: seq<Cluster>, hosts: seq<Host>, d: Dc)
    ensures FalseRoots(ClusterItems(clusters, hosts, d)) == 0
            <==> forall c :: c in clusters ==> !FalseRootAt(d, c, hosts)
  {
    hide HasHost;
    if clusters != [] {
      var c, rest := clusters[0], clusters[1..];
      var own := [ClusterItem(c, d)];
      var first := if BelongsToDc(c.parent, d) then own + HostItems(hosts, c) else [];
      ClusterFalseRoots(rest, hosts, d);
      HostFalseRoots(hosts, c);
      FalseRootsConcat(own, HostItems(hosts, c));
      FalseRootsConcat(first, ClusterItems(rest, hosts, d));
      assert own[1..] == [];
      assert FalseRoots(own) == if d.mor == "-1" then 1 else 0;
      assert FalseRoots(first) == 0 <==> !FalseRootAt(d, c, hosts);
      assert clusters == [c] + rest;
    }
  }

  /** When a child reads as a root, in terms of the inventory. */
  lemma {:induction false} NoFalseRoots(dcs: seq<Dc>, clusters: seq<Cluster>, hosts: seq<Host>)
    ensures FalseRoots(Items(dcs, clusters, hosts)) == 0
            <==> forall d, c :: d in dcs && c in clusters ==> !FalseRootAt(d, c, hosts)
  {
    hide FalseRootAt;
    if dcs != [] {
      var first, mid, rest := [DcItem(dcs[0])], ClusterItems(clusters, hosts, dcs[0]), Items(dcs[1..], clusters, hosts);
      NoFalseRoots(dcs[1..], clusters, hosts);
      ClusterFalseRoots(clusters, hosts, dcs[0]);
      FalseRootsConcat(first, mid);
      FalseRootsConcat(first + mid, rest);
      assert first[1..] == [];
      assert dcs == [dcs[0]] + dcs[1..];
    }
  }

  lemma FalseRootsMean(dcs: seq<Dc>, clusters: seq<Cluster>, hosts: seq<Host>)
    ensures (forall d, c :: d in dcs && c in clusters ==> !FalseRootAt(d, c, hosts)) <==>
              !exists d, c :: d in dcs && c in clusters && c.parent == Some(d.hostFolder)
                              && (d.mor == "-1" || (c.mor == "-1" && exists h :: h in hosts && h.parent == Some(c.mor)))
  {
    if d, c :| d in dcs && c in clusters && c.parent == Some(d.hostFolder)
               && (d.mor == "-1" || (c.mor == "-1" && exists h :: h in hosts && h.parent == Some(c.mor))) {
      assert FalseRootAt(d, c, hosts);
    }
  }

  /** The whole tool: on what BuildList returns, CheckLinkage reports no orphans; every element is a
      root or linked; and the roots are as many as the datacenters exactly when no datacenter with a
      cluster has the id "-1", and no listed cluster with a host has it. */
  method Diagnose(dcs: seq<Dc>, clusters: seq<Cluster>, hosts: seq<Host>)
    returns (elements: nat, linked: nat, orphan: nat)
    ensures orphan == 0
    ensures elements == |Items(dcs, clusters, hosts)|
    ensures elements - linked == |dcs| <==>
              !exists d, c :: d in dcs && c in clusters && c.parent == Some(d.hostFolder)
                              && (d.mor == "-1" || (c.mor == "-1" && exists h :: h in hosts && h.parent == Some(c.mor)))
  {
    hide FalseRootAt, Items, CountRoots, FalseRoots;
    var list := BuildList(dcs, clusters, hosts);
    linked, orphan := CheckLinkage(list);
    elements := |list|;
    BuiltListConnected(dcs, clusters, hosts);
    RootsAreDatacenters(dcs, clusters, hosts);
    NoFalseRoots(dcs, clusters, hosts);
    FalseRootsMean(dcs, clusters, hosts);
  }
}
