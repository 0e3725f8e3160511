/** CPU capacity: allocatable and reserved CPUs of a node partition its logical processors, so the published Capacity
    is their number. */
module CpuCapacity {
  import opened Common
  import opened Accumulate
  import opened Decimal
  import opened PodResourcesApi
  import opened Indexes
  import opened IndexFacts
  import opened Aggregator
  import opened BuiltFacts

  /** Node IDs are positions in the node list: Aggregate keys its counters by position, the indexes by ID. */
  ghost predicate IndexedByPosition(nodes: seq<TopologyNode>) {
    forall i :: 0 <= i < |nodes| ==> nodes[i].id == i
  }

  ghost predicate DistinctProcessors(nodes: seq<TopologyNode>) {
    Distinct(FlatMap(Processors, nodes))
  }

  /** "cpu" comes only from the allocatable CPU IDs. */
  ghost predicate OnlyCpuIds(resp: AllocatableResources) {
    && (forall i :: 0 <= i < |resp.devices| ==> resp.devices[i].resourceName != CPU)
    && (forall i :: 0 <= i < |resp.memory| ==> resp.memory[i].memoryType != CPU)
  }

  ghost predicate WellFormedNode(nodes: seq<TopologyNode>, resp: AllocatableResources) {
    IndexedByPosition(nodes) && DistinctProcessors(nodes) && OnlyCpuIds(resp)
  }

  lemma {:induction false} FlatMapDistinct<T, U>(f: T -> seq<U>, s: seq<T>, i: nat, j: nat, u: U)
    requires Distinct(FlatMap(f, s)) && i < |s| && j < |s| && u in f(s[i]) && u in f(s[j])
    ensures i == j && Distinct(f(s[i]))
  {
    var front, last := s[..|s| - 1], s[|s| - 1];
    DistinctParts(FlatMap(f, front), f(last));
    FlatMapMember(f, front, u);
    assert i < |front| ==> u in f(front[i]);
    assert j < |front| ==> u in f(front[j]);
    if i < |front| && j < |front| {
      FlatMapDistinct(f, front, i, j, u);
    }
  }

  lemma {:induction false} DistinctParts<T>(a: seq<T>, b: seq<T>)
    requires Distinct(a + b)
    ensures Distinct(a) && Distinct(b) && forall i :: 0 <= i < |a| ==> a[i] !in b
  {
    assert forall i :: 0 <= i < |a| ==> a[i] == (a + b)[i];
    forall i, j | 0 <= i < |a| && 0 <= j < |b|
      ensures a[i] != b[j]
    {
      assert (a + b)[|a| + j] == b[j];
    }
    forall i, j | 0 <= i < j < |b|
      ensures b[i] != b[j]
    {
      assert (a + b)[|a| + i] == b[i] && (a + b)[|a| + j] == b[j];
    }
  }

  /** The processor map sends a processor to the position of the one node that has it. */
  lemma {:induction false} ProcessorPlaced(nodes: seq<TopologyNode>, p: int, n: int)
    requires IndexedByPosition(nodes) && DistinctProcessors(nodes)
    ensures Get(CoreToNode(nodes), p) == Some(n) <==> 0 <= n < |nodes| && p in Processors(nodes[n])
  {
    hide FlatMap, LastWins;
    LastWinsMember(ProcPairs(nodes), p);
    forall k
      ensures (p, k) in ProcPairs(nodes) <==> 0 <= k < |nodes| && p in Processors(nodes[k])
    {
      FlatMapMember(ProcPairsOf, nodes, (p, k));
      forall i | 0 <= i < |nodes|
        ensures (p, k) in ProcPairsOf(nodes[i]) <==> k == i && p in Processors(nodes[i])
      {
        TagMember(Processors(nodes[i]), i, p, k);
      }
    }
    if 0 <= n < |nodes| && p in Processors(nodes[n]) {
      assert (p, n) in ProcPairs(nodes);
      var i :| 0 <= i < |ProcPairs(nodes)| && ProcPairs(nodes)[i] == (p, n);
      assert ProcPairs(nodes)[i].0 == p;
      FlatMapDistinct(Processors, nodes, n, CoreToNode(nodes)[p], p);
    }
  }

  lemma {:induction false} TagMember(xs: seq<int>, id: int, p: int, k: int)
    ensures (p, k) in Tag(xs, id) <==> k == id && p in xs
  {
    if k == id && p in xs {
      var i :| 0 <= i < |xs| && xs[i] == p;
      assert Tag(xs, id)[i] == (p, k);
    }
  }

  // ---- Counting list elements inside and outside a set ----

  ghost function CountIn(s: seq<int>, t: set<int>): nat {
    if s == [] then 0 else CountIn(s[..|s| - 1], t) + if s[|s| - 1] in t then 1 else 0
  }

  /** s has no element of t twice. */
  ghost predicate NoRepeatIn(s: seq<int>, t: set<int>) {
    forall i, j :: 0 <= i < j < |s| && s[i] in t ==> s[i] != s[j]
  }

  lemma {:induction false} NoRepeatSnoc(s: seq<int>, x: int, t: set<int>)
    ensures NoRepeatIn(s + [x], t) <==> NoRepeatIn(s, t) && !(x in t && x in s)
  {
    var all := s + [x];
    if NoRepeatIn(all, t) {
      assert forall i, j :: 0 <= i < j < |s| ==> s[i] == all[i] && s[j] == all[j];
      assert forall i :: 0 <= i < |s| && s[i] in t ==> all[i] != all[|s|];
    }
  }

  lemma {:induction false} CountInBounds(s: seq<int>, t: set<int>)
    ensures |SetOf(s) * t| <= CountIn(s, t) <= |s|
    ensures CountIn(s, t) == |SetOf(s) * t| <==> NoRepeatIn(s, t)
  {
    hide NoRepeatIn;
    if s == [] {
      assert SetOf(s) * t == {};
      NoRepeatInNone(t);
    } else {
      var front, last := s[..|s| - 1], s[|s| - 1];
      CountInBounds(front, t);
      assert s == front + [last];
      NoRepeatSnoc(front, last, t);
      if last in t && last !in front {
        assert SetOf(s) * t == SetOf(front) * t + {last};
      } else {
        assert SetOf(s) * t == SetOf(front) * t;
      }
    }
  }

  lemma {:induction false} NoRepeatInNone(t: set<int>)
    ensures NoRepeatIn([], t)
  {
  }

  // ---- Allocatable CPUs of a node ----

  lemma {:induction false} PlacedCount(nodes: seq<TopologyNode>, cpuIds: seq<int>, n: int)
    requires IndexedByPosition(nodes) && DistinctProcessors(nodes) && 0 <= n < |nodes|
    ensures |PlacedAt(nodes, cpuIds, n)| == CountIn(cpuIds, SetOf(Processors(nodes[n])))
  {
    hide FlatMap, CoreToNode;
    var f := Placed(CoreToNode(nodes));
    if cpuIds == [] {
      FlatMapNone(f, [], cpuIds);
    } else {
      var front, c := cpuIds[..|cpuIds| - 1], cpuIds[|cpuIds| - 1];
      assert cpuIds == front + [c];
      PlacedCount(nodes, front, n);
      ProcessorPlaced(nodes, c, n);
      FlatMapSnoc(f, front, c);
      ValuesForAppend(FlatMap(f, front), f(c), n);
      if c in CoreToNode(nodes) {
        ValuesForOne(CoreToNode(nodes)[c], FormatInt(c), n);
      }
    }
  }

  lemma {:induction false} ValuesForOne(k: int, v: string, n: int)
    ensures ValuesFor([(k, v)], n) == if k == n then [v] else []
  {
  }

  // ---- Reserved CPUs of a node ----

  lemma {:induction false} ListedExactly(nodes: seq<TopologyNode>, resp: AllocatableResources, devs: seq<ContainerDevices>, n: int, p: int)
    requires WellFormedNode(nodes, resp) && WithGroups(resp.devices, CpuGroups(nodes, resp.cpuIds), devs)
    requires 0 <= n < |nodes| && p in Processors(nodes[n])
    ensures FormatInt(p) in ListedCPUs(devs) <==> p in resp.cpuIds
  {
    hide FlatMap, GroupBy, LastWins, FormatInt, PlacedAt, CpuGroups, CoreToNode;
    var groups := CpuGroups(nodes, resp.cpuIds);
    var order :| Visits(order, groups.Keys) && devs == resp.devices + GroupDevices(groups, order);
    var id := FormatInt(p);
    FlatMapMember(CpuIDsOf, devs, id);
    if i :| 0 <= i < |devs| && id in CpuIDsOf(devs[i]) {
      assert i >= |resp.devices|;
      var d := devs[i];
      assert d in GroupDevices(groups, order);
      FlatMapMember(GroupDevice(groups), order, d);
      var j :| 0 <= j < |order| && d in GroupDevice(groups)(order[j]);
      GroupHas(nodes, resp.cpuIds, order[j]);
      GroupMember(nodes, resp.cpuIds, order[j], id);
      var c :| 0 <= c < |resp.cpuIds| && FormatInt(resp.cpuIds[c]) == id;
      FormatInjective(resp.cpuIds[c], p);
    }
    if p in resp.cpuIds {
      ProcessorPlaced(nodes, p, n);
      var c :| 0 <= c < |resp.cpuIds| && resp.cpuIds[c] == p;
      GroupMember(nodes, resp.cpuIds, n, id);
      GroupHas(nodes, resp.cpuIds, n);
      assert n in order;
      var j :| 0 <= j < |order| && order[j] == n;
      var d := ContainerDevices(CPU, groups[n], Some([n]));
      assert d in GroupDevice(groups)(order[j]);
      FlatMapMember(GroupDevice(groups), order, d);
      var i :| 0 <= i < |GroupDevices(groups, order)| && GroupDevices(groups, order)[i] == d;
      assert devs[|resp.devices| + i] == d;
    }
  }

  /** Of the processors ps, those that no CPU device lists are reserved at node n, and only there. */
  lemma {:induction false} UnlistedCount(cpus: set<string>, cpuIds: seq<int>, ps: seq<int>, n: int, k: int)
    requires forall i :: 0 <= i < |ps| ==> (FormatInt(ps[i]) in cpus <==> ps[i] in cpuIds)
    ensures |ValuesFor(FlatMap(Unlisted(cpus, k), ps), n)| == if n == k then |ps| - CountIn(ps, SetOf(cpuIds)) else 0
  {
    hide FlatMap;
    var f := Unlisted(cpus, k);
    if ps == [] {
      FlatMapNone(f, [], ps);
    } else {
      var front, p := ps[..|ps| - 1], ps[|ps| - 1];
      assert ps == front + [p];
      UnlistedCount(cpus, cpuIds, front, n, k);
      FlatMapSnoc(f, front, p);
      ValuesForAppend(FlatMap(f, front), f(p), n);
      ValuesForOne(k, FormatInt(p), n);
    }
  }

  lemma {:induction false} ReservedUpTo(nodes: seq<TopologyNode>, cpus: set<string>, cpuIds: seq<int>, n: int, k: nat)
    requires IndexedByPosition(nodes) && 0 <= n < |nodes| && k <= |nodes|
    requires forall i, p :: 0 <= i < |nodes| && p in Processors(nodes[i]) ==> (FormatInt(p) in cpus <==> p in cpuIds)
    ensures |ValuesFor(FlatMap(ReservedOf(cpus), nodes[..k]), n)|
         == if n < k then |Processors(nodes[n])| - CountIn(Processors(nodes[n]), SetOf(cpuIds)) else 0
  {
    hide FlatMap, CountIn, FormatInt, Processors;
    var f := ReservedOf(cpus);
    if k == 0 {
      FlatMapNone(f, [], nodes);
    } else {
      ReservedUpTo(nodes, cpus, cpuIds, n, k - 1);
      FlatMapStep(f, nodes, k - 1);
      ValuesForAppend(FlatMap(f, nodes[..k - 1]), f(nodes[k - 1]), n);
      var ps := Processors(nodes[k - 1]);
      UnlistedCount(cpus, cpuIds, ps, n, k - 1);
    }
  }

  /** The reserved CPUs of a node number its processors that are not allocatable. */
  lemma {:induction false} ReservedCountIs(d: NodeData, nodes: seq<TopologyNode>, resp: AllocatableResources,
                        cap: map<int, map<string, int>>, exclude: set<string>, n: int)
    requires Built(d, nodes, resp, cap, exclude) && WellFormedNode(nodes, resp) && 0 <= n < |nodes|
    ensures d.ReservedCount(n) == |Processors(nodes[n])| - CountIn(Processors(nodes[n]), SetOf(resp.cpuIds))
  {
    hide FlatMap, GroupBy, LastWins, Tally, CountIn, FormatInt, Processors, CpuGroups, WithGroups, ListedCPUs, Flat;
    var devs :| WithGroups(resp.devices, CpuGroups(nodes, resp.cpuIds), devs) && BuiltFrom(d, nodes, devs, resp.memory, cap, exclude);
    var listed := ListedCPUs(devs);
    forall i, p | 0 <= i < |nodes| && p in Processors(nodes[i])
      ensures FormatInt(p) in listed <==> p in resp.cpuIds
    {
      ListedExactly(nodes, resp, devs, i, p);
    }
    GroupByValues(FlatMap(ReservedOf(listed), nodes), n);
    ReservedUpTo(nodes, listed, resp.cpuIds, n, |nodes|);
    assert nodes[..|nodes|] == nodes;
  }

  /** The device index sends "cpu" IDs to a node exactly for the allocatable CPU IDs that are its processors. */
  lemma {:induction false} CpuIndexedExactly(d: NodeData, nodes: seq<TopologyNode>, resp: AllocatableResources,
                                             cap: map<int, map<string, int>>, exclude: set<string>, n: int, c: int)
    requires Built(d, nodes, resp, cap, exclude) && WellFormedNode(nodes, resp) && 0 <= n < |nodes|
    ensures CPU in d.index && FormatInt(c) in d.index[CPU] && d.index[CPU][FormatInt(c)] == n
       <==> c in resp.cpuIds && c in Processors(nodes[n])
  {
    hide FlatMap, GroupBy, LastWins, Tally, FormatInt, CpuGroups, WithGroups, ListedCPUs, Flat, PlacedAt, CoreToNode;
    var devs :| WithGroups(resp.devices, CpuGroups(nodes, resp.cpuIds), devs) && BuiltFrom(d, nodes, devs, resp.memory, cap, exclude);
    var id := FormatInt(c);
    FlatEntry(d.index, CPU, id);
    PlacedExactly(nodes, resp.cpuIds, n, c);
    IndexLookup(resp.devices, nodes, resp.cpuIds, devs, CPU, id, n);
    if k: int :| id in PlacedAt(nodes, resp.cpuIds, k) {
      IndexLookup(resp.devices, nodes, resp.cpuIds, devs, CPU, id, k);
    } else {
      RawIndexHasNoCpu(resp, id);
    }
  }

  lemma {:induction false} PlacedExactly(nodes: seq<TopologyNode>, cpuIds: seq<int>, n: int, c: int)
    requires IndexedByPosition(nodes) && DistinctProcessors(nodes) && 0 <= n < |nodes|
    ensures FormatInt(c) in PlacedAt(nodes, cpuIds, n) <==> c in cpuIds && c in Processors(nodes[n])
  {
    hide FormatInt, PlacedAt, CoreToNode;
    GroupMember(nodes, cpuIds, n, FormatInt(c));
    ProcessorPlaced(nodes, c, n);
    forall i | 0 <= i < |cpuIds| && FormatInt(cpuIds[i]) == FormatInt(c)
      ensures cpuIds[i] == c
    {
      FormatInjective(cpuIds[i], c);
    }
  }

  /** Each processor of a node is reserved there or allocatable there, never both: reserved exactly when it is not an
      allocatable CPU ID, and indexed to the node exactly when it is. */
  lemma {:induction false} CpusPartition(d: NodeData, nodes: seq<TopologyNode>, resp: AllocatableResources,
                                         cap: map<int, map<string, int>>, exclude: set<string>, n: int, p: int)
    requires Built(d, nodes, resp, cap, exclude) && WellFormedNode(nodes, resp)
    requires 0 <= n < |nodes| && p in Processors(nodes[n])
    ensures n in d.reserved && FormatInt(p) in d.reserved[n] <==> p !in resp.cpuIds
    ensures CPU in d.index && FormatInt(p) in d.index[CPU] && d.index[CPU][FormatInt(p)] == n <==> p in resp.cpuIds
  {
    hide FlatMap, GroupBy, LastWins, Tally, FormatInt, CpuGroups, WithGroups, ListedCPUs, Flat, PlacedAt, CoreToNode;
    var devs :| WithGroups(resp.devices, CpuGroups(nodes, resp.cpuIds), devs) && BuiltFrom(d, nodes, devs, resp.memory, cap, exclude);
    ReservedMember(nodes, resp, devs, n, p);
    GroupByValues(FlatMap(ReservedOf(ListedCPUs(devs)), nodes), n);
    CpuIndexedExactly(d, nodes, resp, cap, exclude, n, p);
  }

  lemma {:induction false} RawIndexHasNoCpu(resp: AllocatableResources, id: string)
    requires OnlyCpuIds(resp)
    ensures Get(LastWins(DevicePairs(resp.devices)), (CPU, id)) == None
  {
    hide FlatMap, LastWins;
    LastWinsMember(DevicePairs(resp.devices), (CPU, id));
    if (CPU, id) in LastWins(DevicePairs(resp.devices)) {
      PairOfDevices(resp.devices, CPU, id, LastWins(DevicePairs(resp.devices))[(CPU, id)]);
    }
  }

  lemma {:induction false} ReservedMember(nodes: seq<TopologyNode>, resp: AllocatableResources, devs: seq<ContainerDevices>, n: int, p: int)
    requires WellFormedNode(nodes, resp) && WithGroups(resp.devices, CpuGroups(nodes, resp.cpuIds), devs)
    requires 0 <= n < |nodes| && p in Processors(nodes[n])
    ensures FormatInt(p) in ValuesFor(FlatMap(ReservedOf(ListedCPUs(devs)), nodes), n) <==> p !in resp.cpuIds
  {
    hide FlatMap, ListedCPUs, FormatInt, CpuGroups, WithGroups;
    var cpus := ListedCPUs(devs);
    var pair := (n, FormatInt(p));
    ValuesForMember(FlatMap(ReservedOf(cpus), nodes), n, FormatInt(p));
    FlatMapMember(ReservedOf(cpus), nodes, pair);
    ListedExactly(nodes, resp, devs, n, p);
    forall i | 0 <= i < |nodes|
      ensures pair in ReservedOf(cpus)(nodes[i]) ==> FormatInt(p) !in cpus
      ensures i == n && FormatInt(p) !in cpus ==> pair in ReservedOf(cpus)(nodes[i])
    {
      var ps := Processors(nodes[i]);
      FlatMapMember(Unlisted(cpus, nodes[i].id), ps, pair);
      if i == n && FormatInt(p) !in cpus {
        var k :| 0 <= k < |ps| && ps[k] == p;
        assert pair in Unlisted(cpus, nodes[i].id)(ps[k]);
      }
    }
  }

  // ---- Capacity ----

  /** Whenever a zone lists "cpu", its Capacity is the number of logical processors of that node, plus one for every
      repeated allocatable CPU ID of the node. */
  lemma {:induction false} CpuCapacityCounts(d: NodeData, nodes: seq<TopologyNode>, resp: AllocatableResources,
                          cap: map<int, map<string, int>>, exclude: set<string>, n: int)
    requires Built(d, nodes, resp, cap, exclude) && WellFormedNode(nodes, resp)
    requires 0 <= n < |nodes| && CPU in d.ListedNames(n) && |resp.cpuIds| < TWO_TO_63
    ensures
      var ps := Processors(nodes[n]);
      d.CapacityOf(n, CPU) == |ps| + CountIn(resp.cpuIds, SetOf(ps)) - |SetOf(resp.cpuIds) * SetOf(ps)|
  {
    hide Built, FlatMap, CountIn, Processors, PlacedAt, Wrap64, Total, Mentions;
    var ps := Processors(nodes[n]);
    ReservedCountIs(d, nodes, resp, cap, exclude, n);
    AllocatableIsRecorded(d, nodes, resp, cap, exclude, n, CPU);
    CpuRecorded(nodes, resp, n);
    CountInBounds(resp.cpuIds, SetOf(ps));
    CountInBounds(ps, SetOf(resp.cpuIds));
    assert NoRepeatIn(ps, SetOf(resp.cpuIds)) by { NodeProcessorsDistinct(nodes, n); }
    assert SetOf(ps) * SetOf(resp.cpuIds) == SetOf(resp.cpuIds) * SetOf(ps);
    FitsWrap(CountIn(resp.cpuIds, SetOf(ps)));
    if n !in d.alloc {
      assert CountIn(resp.cpuIds, SetOf(ps)) == 0;
    }
  }

  lemma {:induction false} NodeProcessorsDistinct(nodes: seq<TopologyNode>, n: nat)
    requires DistinctProcessors(nodes) && n < |nodes|
    ensures Distinct(Processors(nodes[n]))
  {
    var ps := Processors(nodes[n]);
    if ps != [] {
      FlatMapDistinct(Processors, nodes, n, n, ps[0]);
    }
  }

  lemma {:induction false} CpuRecorded(nodes: seq<TopologyNode>, resp: AllocatableResources, n: int)
    requires WellFormedNode(nodes, resp) && 0 <= n < |nodes|
    ensures Recorded(nodes, resp, n, CPU) == CountIn(resp.cpuIds, SetOf(Processors(nodes[n])))
    ensures IsRecorded(nodes, resp, n, CPU) <==> CountIn(resp.cpuIds, SetOf(Processors(nodes[n]))) > 0
  {
    hide FlatMap, Total, Mentions, PlacedAt, CountIn, Processors;
    PlacedCount(nodes, resp.cpuIds, n);
    TotalAppend(CountPairs(resp.devices), BlockPairs(resp.memory), (n, CPU));
    MentionsAppend(CountPairs(resp.devices), BlockPairs(resp.memory), (n, CPU));
    BlockTotals(resp.memory, n, CPU);
    NoDeviceCounts(resp.devices, n, CPU);
  }

  lemma {:induction false} NoDeviceCounts(devs: seq<ContainerDevices>, n: int, r: string)
    requires forall i :: 0 <= i < |devs| ==> devs[i].resourceName != r
    ensures Total(CountPairs(devs), (n, r)) == 0 && !Mentions(CountPairs(devs), (n, r))
  {
    if devs != [] {
      NoDeviceCounts(devs[..|devs| - 1], n, r);
      CountPairsLast(devs, n, r);
      var d := devs[|devs| - 1];
      CountAtTotal(d.resourceName, |d.deviceIds|, NodesOf(d.topology), n, r);
    }
  }

  /** The published CPU Capacity of a node is its number of logical processors exactly when no allocatable CPU ID of
      that node is listed twice. */
  lemma {:induction false} CpuCapacityExact(d: NodeData, nodes: seq<TopologyNode>, resp: AllocatableResources,
                         cap: map<int, map<string, int>>, exclude: set<string>, n: int)
    requires Built(d, nodes, resp, cap, exclude) && WellFormedNode(nodes, resp)
    requires 0 <= n < |nodes| && CPU in d.ListedNames(n) && |resp.cpuIds| < TWO_TO_63
    ensures d.CapacityOf(n, CPU) == |Processors(nodes[n])| <==> NoRepeatIn(resp.cpuIds, SetOf(Processors(nodes[n])))
  {
    CpuCapacityCounts(d, nodes, resp, cap, exclude, n);
    CountInBounds(resp.cpuIds, SetOf(Processors(nodes[n])));
  }
}
