/** Go's map iteration order leaves no trace: construction yields one value, and the zones one map of rows. */
module Determinism {
  import opened Common
  import opened Accumulate
  import opened Decimal
  import opened PodResourcesApi
  import opened Indexes
  import opened IndexFacts
  import opened Ledger
  import opened Aggregator

  lemma {:induction false} GroupedDevicesPermute(raw: seq<ContainerDevices>, groups: map<int, seq<string>>,
                              devs1: seq<ContainerDevices>, devs2: seq<ContainerDevices>)
    requires WithGroups(raw, groups, devs1) && WithGroups(raw, groups, devs2)
    ensures multiset(devs1) == multiset(devs2)
  {
    hide FlatMap, Visits;
    var o1 :| Visits(o1, groups.Keys) && devs1 == raw + GroupDevices(groups, o1);
    var o2 :| Visits(o2, groups.Keys) && devs2 == raw + GroupDevices(groups, o2);
    SameVisits(o1, o2, groups.Keys);
    FlatMapPermutes(GroupDevice(groups), o1, o2);
  }

  lemma {:induction false} SameMembers<T>(s: seq<T>, t: seq<T>)
    requires multiset(s) == multiset(t)
    ensures forall x :: x in s <==> x in t
  {
    assert forall x :: x in s <==> x in multiset(s);
    assert forall x :: x in t <==> x in multiset(t);
  }

  lemma {:induction false} FlatDetermines<A, B, V>(m1: map<A, map<B, V>>, m2: map<A, map<B, V>>)
    requires Flat(m1) == Flat(m2) && m1.Keys == m2.Keys
    ensures m1 == m2
  {
    forall a | a in m1
      ensures m1[a] == m2[a]
    {
      assert forall b :: b in m1[a] <==> (a, b) in Flat(m1);
      assert forall b :: b in m2[a] <==> (a, b) in Flat(m2);
      assert forall b :: b in m1[a] ==> m1[a][b] == Flat(m1)[(a, b)];
      assert forall b :: b in m2[a] ==> m2[a][b] == Flat(m2)[(a, b)];
    }
  }

  lemma {:induction false} FlatDeterminesKeys(m1: map<int, map<string, int>>, m2: map<int, map<string, int>>)
    requires Flat(m1) == Flat(m2) && NoEmptyNode(m1)
    ensures m1.Keys <= m2.Keys
  {
    forall n | n in m1
      ensures n in m2
    {
      assert m1[n] != map[];
      var r :| r in m1[n];
      assert (n, r) in Flat(m1);
      assert (n, r) in Flat(m2);
    }
  }

  lemma {:induction false} IndexUnique(raw: seq<ContainerDevices>, nodes: seq<TopologyNode>, cpuIds: seq<int>,
                    devs1: seq<ContainerDevices>, devs2: seq<ContainerDevices>)
    requires WithGroups(raw, CpuGroups(nodes, cpuIds), devs1) && WithGroups(raw, CpuGroups(nodes, cpuIds), devs2)
    ensures LastWins(DevicePairs(devs1)) == LastWins(DevicePairs(devs2))
  {
    hide LastWins, FlatMap, WithGroups, PlacedAt, CpuGroups;
    var m1, m2 := LastWins(DevicePairs(devs1)), LastWins(DevicePairs(devs2));
    forall k: (string, string)
      ensures Get(m1, k) == Get(m2, k)
    {
      if k.0 == CPU && exists n :: k.1 in PlacedAt(nodes, cpuIds, n) {
        var n :| k.1 in PlacedAt(nodes, cpuIds, n);
        IndexLookup(raw, nodes, cpuIds, devs1, k.0, k.1, n);
        IndexLookup(raw, nodes, cpuIds, devs2, k.0, k.1, n);
      } else {
        IndexLookup(raw, nodes, cpuIds, devs1, k.0, k.1, 0);
        IndexLookup(raw, nodes, cpuIds, devs2, k.0, k.1, 0);
      }
    }
    SameLookups(m1, m2);
  }

  lemma {:induction false} AllocUnique(blocks: seq<ContainerMemory>, devs1: seq<ContainerDevices>, devs2: seq<ContainerDevices>)
    requires multiset(devs1) == multiset(devs2)
    ensures Tally(AmountPairs(devs1, blocks)) == Tally(AmountPairs(devs2, blocks))
  {
    hide Tally, FlatMap;
    FlatMapPermutes(CountPairsOf, devs1, devs2);
    TallyPermutes(AmountPairs(devs1, blocks), AmountPairs(devs2, blocks));
  }

  /** Construction is deterministic although the CPU groups are visited in map iteration order. */
  lemma {:induction false} BuiltUnique(d1: NodeData, d2: NodeData, nodes: seq<TopologyNode>, resp: AllocatableResources,
                    memoryCapacity: map<int, map<string, int>>, exclude: set<string>)
    requires Built(d1, nodes, resp, memoryCapacity, exclude) && Built(d2, nodes, resp, memoryCapacity, exclude)
    ensures d1 == d2
  {
    hide LastWins, FlatMap, Tally, Flat, WithGroups, GroupBy, CpuGroups;
    var groups := CpuGroups(nodes, resp.cpuIds);
    var devs1 :| WithGroups(resp.devices, groups, devs1) && BuiltFrom(d1, nodes, devs1, resp.memory, memoryCapacity, exclude);
    var devs2 :| WithGroups(resp.devices, groups, devs2) && BuiltFrom(d2, nodes, devs2, resp.memory, memoryCapacity, exclude);
    GroupedDevicesPermute(resp.devices, groups, devs1, devs2);
    SameMembers(devs1, devs2);
    IndexUnique(resp.devices, nodes, resp.cpuIds, devs1, devs2);
    FlatDetermines(d1.index, d2.index);
    AllocUnique(resp.memory, devs1, devs2);
    FlatDeterminesKeys(d1.alloc, d2.alloc);
    FlatDeterminesKeys(d2.alloc, d1.alloc);
    FlatDetermines(d1.alloc, d2.alloc);
    FlatMapPermutes(CpuIDsOf, devs1, devs2);
    SameMembers(FlatMap(CpuIDsOf, devs1), FlatMap(CpuIDsOf, devs2));
    assert ListedCPUs(devs1) == ListedCPUs(devs2);
  }

  // ---- Zones as maps ----

  datatype ZoneView = ZoneView(kind: string, costs: seq<CostInfo>, rows: map<string, ResourceRow>)

  function RowPairs(rows: seq<ResourceRow>): seq<(string, ResourceRow)> {
    seq(|rows|, i requires 0 <= i < |rows| => (rows[i].name, rows[i]))
  }

  function ViewOf(z: Zone): ZoneView {
    ZoneView(z.kind, z.costs, LastWins(RowPairs(z.resources)))
  }

  function ZonePairs(zones: seq<Zone>): seq<(string, ZoneView)> {
    seq(|zones|, i requires 0 <= i < |zones| => (zones[i].name, ViewOf(zones[i])))
  }

  /** The zones as a map from zone name to a map from resource name to row. */
  function ZoneMap(zones: seq<Zone>): map<string, ZoneView> {
    LastWins(ZonePairs(zones))
  }

  ghost predicate DistinctNames(zones: seq<Zone>) {
    && (forall i, j :: 0 <= i < j < |zones| ==> zones[i].name != zones[j].name)
    && (forall z, i, j :: 0 <= z < |zones| && 0 <= i < j < |zones[z].resources|
          ==> zones[z].resources[i].name != zones[z].resources[j].name)
  }

  lemma {:induction false} ZoneNameInjective(a: int, b: int)
    requires ZoneName(a) == ZoneName(b)
    ensures a == b
  {
    assert ZoneName(a)[5..] == FormatInt(a) && ZoneName(b)[5..] == FormatInt(b);
    FormatInjective(a, b);
  }

  /** The zone of a node is called "node-" and the node's ID in decimal, without sign or leading zeros. */
  lemma {:induction false} ZoneNameExactly(n: nat)
    requires n < TWO_TO_63
    ensures |ZoneName(n)| > 5 && ZoneName(n)[..5] == "node-"
    ensures Canonical(ZoneName(n)[5..]) && ParseInt(ZoneName(n)[5..]) == Some(n)
    ensures forall s :: Canonical(s) && Magnitude(s) == n ==> ZoneName(n) == "node-" + s
  {
    hide FormatInt, ParseInt, Magnitude;
    FormatPositional(n, 0);
    ParseFormat(n);
    assert ZoneName(n)[5..] == FormatInt(n);
    forall s | Canonical(s) && Magnitude(s) == n
      ensures ZoneName(n) == "node-" + s
    {
      CanonicalUnique(s);
    }
  }

  lemma {:induction false} RowsOnce(rows: seq<ResourceRow>, d: NodeData, c: Counters, n: int, r: string)
    requires RowsShow(rows, d, c, n)
    ensures Get(LastWins(RowPairs(rows)), r) == if r in d.ListedNames(n) then Some(RowOf(d, c, n, r)) else None
    ensures forall i, j :: 0 <= i < j < |rows| ==> rows[i].name != rows[j].name
  {
    hide LastWins, NodeData.ListedNames, NodeData.AllocatableOf, NodeData.CapacityOf;
    var order :| Visits(order, d.ListedNames(n)) && |rows| == |order|
      && forall i :: 0 <= i < |rows| ==> rows[i] == RowOf(d, c, n, order[i]);
    var pairs := RowPairs(rows);
    LastWinsMember(pairs, r);
    if Mentions(pairs, r) {
      var i :| 0 <= i < |pairs| && pairs[i].0 == r;
      assert order[i] == r;
    }
    if r in d.ListedNames(n) {
      var i :| 0 <= i < |order| && order[i] == r;
      assert pairs[i] == (r, RowOf(d, c, n, r));
      LastWinsUnanimous(pairs, r, RowOf(d, c, n, r));
    }
  }

  lemma {:induction false} ZonesOnce(zones: seq<Zone>, d: NodeData, c: Counters, order: seq<int>, i: nat)
    requires Visits(order, d.Known()) && |zones| == |order| && i < |order|
    requires forall i :: 0 <= i < |zones| ==> ZoneShows(zones[i], d, c, order[i])
    ensures Get(ZoneMap(zones), ZoneName(order[i])) == Some(ViewOf(zones[i]))
  {
    hide LastWins, RowsShow, CostsOf, NodeData.Known, ViewOf;
    var pairs := ZonePairs(zones);
    assert pairs[i] == (ZoneName(order[i]), ViewOf(zones[i]));
    forall j | 0 <= j < |pairs| && pairs[j].0 == ZoneName(order[i])
      ensures pairs[j].1 == ViewOf(zones[i])
    {
      ZoneNameInjective(order[j], order[i]);
    }
    LastWinsUnanimous(pairs, ZoneName(order[i]), ViewOf(zones[i]));
  }

  /** The published zones: one per node of the topology, with distinct names, and distinct resources in each. */
  lemma {:induction false} ZonesWellNamed(zones: seq<Zone>, d: NodeData, c: Counters)
    requires Renders(zones, d, c)
    ensures |zones| == |d.nodes| && DistinctNames(zones)
    ensures forall name :: name in ZoneMap(zones) <==> exists n :: 0 <= n < |d.nodes| && name == ZoneName(n)
  {
    hide LastWins, CostsOf, RowsShow, FormatInt, ZoneName;
    var order :| Visits(order, d.Known()) && |zones| == |order| && forall i :: 0 <= i < |zones| ==> ZoneShows(zones[i], d, c, order[i]);
    DistinctCount(order);
    assert SetOf(order) == d.Known();
    UpToCard(|d.nodes|);
    forall i, j | 0 <= i < j < |zones|
      ensures zones[i].name != zones[j].name
    {
      if zones[i].name == zones[j].name {
        ZoneNameInjective(order[i], order[j]);
      }
    }
    forall z, i, j | 0 <= z < |zones| && 0 <= i < j < |zones[z].resources|
      ensures zones[z].resources[i].name != zones[z].resources[j].name
    {
      RowsOnce(zones[z].resources, d, c, order[z], "");
    }
    forall name
      ensures name in ZoneMap(zones) <==> exists n :: 0 <= n < |d.nodes| && name == ZoneName(n)
    {
      ZoneNamed(zones, d, c, order, name);
    }
  }

  lemma {:induction false} ZoneNamed(zones: seq<Zone>, d: NodeData, c: Counters, order: seq<int>, name: string)
    requires Visits(order, d.Known()) && |zones| == |order|
    requires forall i :: 0 <= i < |zones| ==> ZoneShows(zones[i], d, c, order[i])
    ensures name in ZoneMap(zones) <==> exists n :: 0 <= n < |d.nodes| && name == ZoneName(n)
  {
    hide LastWins, CostsOf, RowsShow, FormatInt, ZoneName;
    LastWinsMember(ZonePairs(zones), name);
    if name in ZoneMap(zones) {
      var i :| 0 <= i < |ZonePairs(zones)| && ZonePairs(zones)[i].0 == name;
      assert order[i] in order;
      assert name == ZoneName(order[i]);
    }
    if n: int :| 0 <= n < |d.nodes| && name == ZoneName(n) {
      assert n in order;
      var i :| 0 <= i < |order| && order[i] == n;
      assert ZonePairs(zones)[i].0 == name;
    }
  }

  lemma {:induction false} UpToCard(n: nat)
    ensures |UpTo(n)| == n
  {
    if n > 0 {
      UpToCard(n - 1);
    }
  }

  /** Any two renderings of the same counters are equal as maps from zone name to resource rows. */
  lemma {:induction false} RenderingUnique(zones1: seq<Zone>, zones2: seq<Zone>, d: NodeData, c: Counters)
    requires Renders(zones1, d, c) && Renders(zones2, d, c)
    ensures ZoneMap(zones1) == ZoneMap(zones2)
  {
    hide LastWins, RowsShow, ZoneShows, ViewOf, ZoneName;
    var o1 :| Visits(o1, d.Known()) && |zones1| == |o1| && forall i :: 0 <= i < |zones1| ==> ZoneShows(zones1[i], d, c, o1[i]);
    var o2 :| Visits(o2, d.Known()) && |zones2| == |o2| && forall i :: 0 <= i < |zones2| ==> ZoneShows(zones2[i], d, c, o2[i]);
    ZonesWellNamed(zones1, d, c);
    ZonesWellNamed(zones2, d, c);
    forall name
      ensures Get(ZoneMap(zones1), name) == Get(ZoneMap(zones2), name)
    {
      if name in ZoneMap(zones1) {
        var n :| 0 <= n < |d.nodes| && name == ZoneName(n);
        assert n in o1 && n in o2;
        var i :| 0 <= i < |o1| && o1[i] == n;
        var j :| 0 <= j < |o2| && o2[j] == n;
        ZonesOnce(zones1, d, c, o1, i);
        ZonesOnce(zones2, d, c, o2, j);
        SameZoneView(zones1[i], zones2[j], d, c, n);
      }
    }
    SameLookups(ZoneMap(zones1), ZoneMap(zones2));
  }

  lemma {:induction false} SameZoneView(z1: Zone, z2: Zone, d: NodeData, c: Counters, n: int)
    requires ZoneShows(z1, d, c, n) && ZoneShows(z2, d, c, n)
    ensures ViewOf(z1) == ViewOf(z2)
  {
    hide LastWins, RowsShow;
    forall r
      ensures Get(LastWins(RowPairs(z1.resources)), r) == Get(LastWins(RowPairs(z2.resources)), r)
    {
      RowsOnce(z1.resources, d, c, n, r);
      RowsOnce(z2.resources, d, c, n, r);
    }
    SameLookups(LastWins(RowPairs(z1.resources)), LastWins(RowPairs(z2.resources)));
  }

  /** Whatever orders the map iterations of two runs take, the same inputs publish the same zones. */
  lemma {:induction false} PublishedUnique(d1: NodeData, d2: NodeData, nodes: seq<TopologyNode>, resp: AllocatableResources,
                        memoryCapacity: map<int, map<string, int>>, exclude: set<string>, pods: seq<PodResources>,
                        zones1: seq<Zone>, zones2: seq<Zone>)
    requires Built(d1, nodes, resp, memoryCapacity, exclude) && Built(d2, nodes, resp, memoryCapacity, exclude)
    requires Renders(zones1, d1, d1.Final(pods)) && Renders(zones2, d2, d2.Final(pods))
    ensures ZoneMap(zones1) == ZoneMap(zones2)
  {
    BuiltUnique(d1, d2, nodes, resp, memoryCapacity, exclude);
    RenderingUnique(zones1, zones2, d1, d1.Final(pods));
  }
}
