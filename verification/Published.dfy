/** The published rows in terms of the inputs alone: the topology, the allocatable response and the raw pod list. */
module Published {
  import opened Common
  import opened Accumulate
  import opened Decimal
  import opened PodResourcesApi
  import opened Indexes
  import opened Ledger
  import opened Aggregator
  import opened Determinism
  import opened Accounting
  import opened BuiltFacts
  import opened CpuCapacity
  import opened Scanner
  import opened EndToEnd

  /** The row of a resource in the zone of a node, None when it is not listed. */
  function PublishedRow(zones: seq<Zone>, n: int, r: string): Option<ResourceRow> {
    match Get(ZoneMap(zones), ZoneName(n))
    case None => None
    case Some(z) => Get(z.rows, r)
  }

  /** The zone of a node lists exactly the node's resources, each with its final counters. */
  lemma {:induction false} RowsPublished(zones: seq<Zone>, d: NodeData, c: Counters, n: int, r: string)
    requires Renders(zones, d, c) && 0 <= n < |d.nodes|
    ensures PublishedRow(zones, n, r) == if r in d.ListedNames(n) then Some(RowOf(d, c, n, r)) else None
  {
    hide LastWins, RowsShow, ZoneName, CostsOf, NodeData.ListedNames, NodeData.Known;
    var order :| Visits(order, d.Known()) && |zones| == |order| && forall i :: 0 <= i < |zones| ==> ZoneShows(zones[i], d, c, order[i]);
    KnownHas(d, n);
    assert n in order;
    var i :| 0 <= i < |order| && order[i] == n;
    ZonesOnce(zones, d, c, order, i);
    RowsOnce(zones[i].resources, d, c, n, r);
  }

  lemma {:induction false} KnownHas(d: NodeData, n: int)
    ensures n in d.Known() <==> 0 <= n < |d.nodes|
  {
  }

  /** End to end for one device or CPU row: Available is Allocatable less the watched raw holdings indexed to the node,
      whatever the order of pods and of every map iteration. */
  lemma {:induction false} DeviceRowPublished(zones: seq<Zone>, d: NodeData, watch: string, api: ApiAnswers, raws: seq<RawPod>, n: int, r: string)
    requires Renders(zones, d, d.Final(Scanned(watch, api, raws)))
    requires 0 <= n < |d.nodes| && r in d.ListedNames(n) && !IsMemoryLike(r)
    ensures PublishedRow(zones, n, r)
         == Some(ResourceRow(r, d.AllocatableOf(n, r) - HeldAt(d.index, RawHeld(watch, api, raws), n, r),
                             d.AllocatableOf(n, r), d.CapacityOf(n, r)))
  {
    hide LastWins, FlatMap, HeldAt, RawHeld, Scanned, Renders, PublishedRow, NodeData.Start;
    var c := d.Final(Scanned(watch, api, raws));
    RowsPublished(zones, d, c, n, r);
    StartHas(d, n, r);
    RawDeviceAvailable(d, watch, api, raws, n, r);
  }

  /** The zone of a node is of type "Node", and its costs are the distances of the node, in order, each under the name of
      a published zone. */
  lemma {:induction false} CostsPublished(zones: seq<Zone>, d: NodeData, c: Counters, n: int)
    requires Renders(zones, d, c) && IndexedByPosition(d.nodes) && 0 <= n < |d.nodes|
    ensures
      var costs := CostsOf(d.nodes, n);
      && ZoneName(n) in ZoneMap(zones) && ZoneMap(zones)[ZoneName(n)].costs == costs
      && ZoneMap(zones)[ZoneName(n)].kind == "Node"
      && |costs| == |d.nodes[n].distances|
      && (forall i :: 0 <= i < |costs| ==> costs[i] == CostInfo(ZoneName(i), d.nodes[n].distances[i]))
      && (forall i :: 0 <= i < |costs| && i < |d.nodes| ==> costs[i].name in ZoneMap(zones))
  {
    hide LastWins, RowsShow, ZoneName, NodeData.Known;
    var order :| Visits(order, d.Known()) && |zones| == |order| && forall i :: 0 <= i < |zones| ==> ZoneShows(zones[i], d, c, order[i]);
    KnownHas(d, n);
    assert n in order;
    var i :| 0 <= i < |order| && order[i] == n;
    ZonesOnce(zones, d, c, order, i);
    FindByPosition(d.nodes, n, 0);
    ZonesWellNamed(zones, d, c);
  }

  lemma {:induction false} FindByPosition(nodes: seq<TopologyNode>, n: int, k: nat)
    requires IndexedByPosition(nodes) && k <= n < |nodes|
    ensures FindNode(nodes[k..], n) == Some(nodes[n])
    decreases n - k
  {
    assert nodes[k..][0] == nodes[k] && nodes[k..][1..] == nodes[k + 1..];
    if k < n {
      FindByPosition(nodes, n, k + 1);
    }
  }

  /** The node found for an ID is the first one that has it. */
  lemma {:induction false} FindNodeExactly(nodes: seq<TopologyNode>, id: int, node: TopologyNode)
    ensures FindNode(nodes, id) == Some(node)
       <==> exists i :: 0 <= i < |nodes| && nodes[i] == node && node.id == id && forall j :: 0 <= j < i ==> nodes[j].id != id
  {
    if nodes != [] {
      FindNodeExactly(nodes[1..], id, node);
      if nodes[0].id != id && FindNode(nodes, id) == Some(node) {
        var i :| 0 <= i < |nodes[1..]| && nodes[1..][i] == node && node.id == id && forall j :: 0 <= j < i ==> nodes[1..][j].id != id;
        assert nodes[i + 1] == node && forall j :: 0 <= j < i + 1 ==> nodes[j].id != id;
      }
      if i :| 0 <= i < |nodes| && nodes[i] == node && node.id == id && forall j :: 0 <= j < i ==> nodes[j].id != id {
        if i > 0 {
          assert nodes[1..][i - 1] == node && forall j :: 0 <= j < i - 1 ==> nodes[1..][j].id != id;
        }
      }
    }
  }

  // ---- CPUs ----

  function ContainerCpus(c: RawContainer): seq<int> {
    c.cpuIds
  }

  function ExclusiveCpusOf(watch: string, api: ApiAnswers): RawPod -> seq<int> {
    (pod: RawPod) => if WatchedPod(watch, api, pod) && GuaranteedBy(api, pod) then FlatMap(ContainerCpus, pod.containers) else []
  }

  /** The CPU IDs held by watched pods with exclusive CPUs, once per holding. */
  function ExclusiveCpus(watch: string, api: ApiAnswers, raws: seq<RawPod>): seq<int> {
    FlatMap(ExclusiveCpusOf(watch, api), raws)
  }

  /** No raw device or memory block of a pod is called "cpu". */
  ghost predicate NoCpuDevices(raws: seq<RawPod>) {
    forall p, c :: 0 <= p < |raws| && 0 <= c < |raws[p].containers| ==> NoCpuNames(raws[p].containers[c])
  }

  ghost predicate NoCpuNames(c: RawContainer) {
    && (forall i :: 0 <= i < |c.devices| ==> c.devices[i].resourceName != CPU)
    && (forall i :: 0 <= i < |c.memory| ==> c.memory[i].memoryType != CPU)
  }

  ghost predicate CpuIndexIs(index: map<string, map<string, int>>, n: int, t: set<int>) {
    forall c: int :: IndexedTo(index, (CPU, FormatInt(c)), n, CPU) <==> c in t
  }

  lemma {:induction false} CountInAppend(a: seq<int>, b: seq<int>, t: set<int>)
    ensures CountIn(a + b, t) == CountIn(a, t) + CountIn(b, t)
  {
    if b == [] {
      assert a + b == a;
    } else {
      assert (a + b)[..|a + b| - 1] == a + b[..|b| - 1];
      CountInAppend(a, b[..|b| - 1], t);
    }
  }

  /** Holdings and CPU lists that match element by element match as a whole. */
  lemma {:induction false} CpusAlign<T>(g: T -> seq<(string, string)>, f: T -> seq<int>, s: seq<T>,
                                        index: map<string, map<string, int>>, n: int, t: set<int>)
    requires forall i :: 0 <= i < |s| ==> HeldAt(index, g(s[i]), n, CPU) == CountIn(f(s[i]), t)
    ensures HeldAt(index, FlatMap(g, s), n, CPU) == CountIn(FlatMap(f, s), t)
  {
    if s != [] {
      var front, last := s[..|s| - 1], s[|s| - 1];
      CpusAlign(g, f, front, index, n, t);
      HeldAtAppend(index, FlatMap(g, front), g(last), n, CPU);
      CountInAppend(FlatMap(f, front), f(last), t);
    }
  }

  lemma {:induction false} CpuListHeld(index: map<string, map<string, int>>, cpuIds: seq<int>, n: int, t: set<int>)
    requires CpuIndexIs(index, n, t)
    ensures HeldAt(index, FlatMap(NamedCpu, cpuIds), n, CPU) == CountIn(cpuIds, t)
  {
    hide FormatInt, IndexedTo;
    if cpuIds != [] {
      var front, last := cpuIds[..|cpuIds| - 1], cpuIds[|cpuIds| - 1];
      CpuListHeld(index, front, n, t);
      HeldAtAppend(index, FlatMap(NamedCpu, front), NamedCpu(last), n, CPU);
      HeldAtOne(index, (CPU, FormatInt(last)), n, CPU);
    }
  }

  lemma {:induction false} NoneHeld(index: map<string, map<string, int>>, held: seq<(string, string)>, n: int)
    requires forall i :: 0 <= i < |held| ==> held[i].0 != CPU
    ensures HeldAt(index, held, n, CPU) == 0
  {
    if held != [] {
      NoneHeld(index, held[..|held| - 1], n);
    }
  }

  lemma {:induction false} OthersHoldNoCpu(c: RawContainer)
    requires NoCpuNames(c)
    ensures forall i :: 0 <= i < |FlatMap(RawHoldsDevice, c.devices)| ==> FlatMap(RawHoldsDevice, c.devices)[i].0 != CPU
    ensures forall i :: 0 <= i < |FlatMap(RawHoldsBlock, c.memory)| ==> FlatMap(RawHoldsBlock, c.memory)[i].0 != CPU
  {
    forall h | h in FlatMap(RawHoldsDevice, c.devices)
      ensures h.0 != CPU
    {
      FlatMapMember(RawHoldsDevice, c.devices, h);
      var i :| 0 <= i < |c.devices| && h in RawHoldsDevice(c.devices[i]);
      FlatMapMember(Named(c.devices[i].resourceName), c.devices[i].deviceIds, h);
    }
    forall h | h in FlatMap(RawHoldsBlock, c.memory)
      ensures h.0 != CPU
    {
      FlatMapMember(RawHoldsBlock, c.memory, h);
    }
  }

  lemma {:induction false} ContainerCpusHeld(index: map<string, map<string, int>>, guaranteed: bool, c: RawContainer, n: int, t: set<int>)
    requires CpuIndexIs(index, n, t) && NoCpuNames(c)
    ensures HeldAt(index, RawHoldsContainer(guaranteed)(c), n, CPU) == if guaranteed then CountIn(c.cpuIds, t) else 0
  {
    hide FlatMap, HeldAt, CpuIndexIs;
    var cpus := if guaranteed then FlatMap(NamedCpu, c.cpuIds) else [];
    var devices, blocks := FlatMap(RawHoldsDevice, c.devices), FlatMap(RawHoldsBlock, c.memory);
    OthersHoldNoCpu(c);
    NoneHeld(index, devices, n);
    NoneHeld(index, blocks, n);
    CpuListHeld(index, c.cpuIds, n, t);
    NoneHeld(index, [], n);
    HeldAtAppend(index, cpus + devices, blocks, n, CPU);
    HeldAtAppend(index, cpus, devices, n, CPU);
  }

  lemma {:induction false} PodCpusHeld(index: map<string, map<string, int>>, watch: string, api: ApiAnswers, pod: RawPod, n: int, t: set<int>)
    requires CpuIndexIs(index, n, t) && forall c :: 0 <= c < |pod.containers| ==> NoCpuNames(pod.containers[c])
    ensures HeldAt(index, RawHoldsPod(watch, api)(pod), n, CPU) == CountIn(ExclusiveCpusOf(watch, api)(pod), t)
  {
    hide FlatMap, HeldAt, CountIn, CpuIndexIs, NoCpuNames, RawHoldsContainer, WatchedPod, GuaranteedBy;
    var g := GuaranteedBy(api, pod);
    forall i | 0 <= i < |pod.containers|
      ensures HeldAt(index, RawHoldsContainer(g)(pod.containers[i]), n, CPU) == if g then CountIn(pod.containers[i].cpuIds, t) else 0
    {
      ContainerCpusHeld(index, g, pod.containers[i], n, t);
    }
    NoCpusHeld(index, n, t);
    if g {
      CpusAlign(RawHoldsContainer(g), ContainerCpus, pod.containers, index, n, t);
    } else {
      CpusAlign(RawHoldsContainer(g), NoCpus, pod.containers, index, n, t);
      NoCpusFlat(pod.containers);
    }
  }

  function NoCpus(c: RawContainer): seq<int> {
    []
  }

  lemma {:induction false} NoCpusFlat(cs: seq<RawContainer>)
    ensures FlatMap(NoCpus, cs) == []
  {
    if cs != [] {
      NoCpusFlat(cs[..|cs| - 1]);
    }
  }

  lemma {:induction false} NoCpusHeld(index: map<string, map<string, int>>, n: int, t: set<int>)
    ensures HeldAt(index, [], n, CPU) == 0 && CountIn([], t) == 0
  {
  }

  /** The holdings charged to the CPU counter of a node are the exclusive CPU holdings of its allocatable processors. */
  lemma {:induction false} CpusHeld(index: map<string, map<string, int>>, watch: string, api: ApiAnswers, raws: seq<RawPod>, n: int, t: set<int>)
    requires CpuIndexIs(index, n, t) && NoCpuDevices(raws)
    ensures HeldAt(index, RawHeld(watch, api, raws), n, CPU) == CountIn(ExclusiveCpus(watch, api, raws), t)
  {
    hide FlatMap, HeldAt, CountIn, CpuIndexIs, NoCpuNames, RawHoldsPod, ExclusiveCpusOf;
    forall i | 0 <= i < |raws|
      ensures HeldAt(index, RawHoldsPod(watch, api)(raws[i]), n, CPU) == CountIn(ExclusiveCpusOf(watch, api)(raws[i]), t)
    {
      PodCpusHeld(index, watch, api, raws[i], n, t);
    }
    CpusAlign(RawHoldsPod(watch, api), ExclusiveCpusOf(watch, api), raws, index, n, t);
  }

  /** The CPU row of a node in terms of the inputs alone: Capacity counts the logical processors, Allocatable those
      among the allocatable CPU IDs, and Available is short by the exclusive CPU holdings of these. */
  ghost function CpuRow(nodes: seq<TopologyNode>, resp: AllocatableResources, watch: string, api: ApiAnswers, raws: seq<RawPod>, n: int): ResourceRow
    requires 0 <= n < |nodes|
  {
    var usable := SetOf(resp.cpuIds) * SetOf(Processors(nodes[n]));
    ResourceRow(CPU, |usable| - CountIn(ExclusiveCpus(watch, api, raws), usable), |usable|, |Processors(nodes[n])|)
  }

  /** End to end for the CPU row of a node. */
  lemma {:induction false} CpuRowPublished(zones: seq<Zone>, d: NodeData, nodes: seq<TopologyNode>, resp: AllocatableResources,
                                           cap: map<int, map<string, int>>, exclude: set<string>,
                                           watch: string, api: ApiAnswers, raws: seq<RawPod>, n: int)
    requires Built(d, nodes, resp, cap, exclude) && WellFormedNode(nodes, resp)
    requires Distinct(resp.cpuIds) && |resp.cpuIds| < TWO_TO_63
    requires Renders(zones, d, d.Final(Scanned(watch, api, raws))) && NoCpuDevices(raws)
    requires 0 <= n < |nodes| && CPU in d.ListedNames(n)
    ensures PublishedRow(zones, n, CPU) == Some(CpuRow(nodes, resp, watch, api, raws, n))
  {
    hide FlatMap, HeldAt, RawHeld, Scanned, Renders, PublishedRow, NodeData.Start, NodeData.Final, Built, CountIn, Processors,
         ExclusiveCpus, FormatInt, Recorded, Wrap64, NoCpuDevices, WellFormedNode, IsRecorded, CpuIndexIs,
         NoRepeatIn, Distinct, SetOf, NodeData.ListedNames, NodeData.AllocatableOf, NodeData.CapacityOf;
    BuiltInputs(d, nodes, resp, cap, exclude);
    var ps := SetOf(Processors(nodes[n]));
    UsableIndexed(d, nodes, resp, cap, exclude, n);
    DeviceRowPublished(zones, d, watch, api, raws, n, CPU);
    CpusHeld(d.index, watch, api, raws, n, SetOf(resp.cpuIds) * ps);
    CpuCapacityExact(d, nodes, resp, cap, exclude, n);
    DistinctNoRepeat(resp.cpuIds, ps);
    CountInBounds(resp.cpuIds, ps);
    AllocatableIsRecorded(d, nodes, resp, cap, exclude, n, CPU);
    CpuRecorded(nodes, resp, n);
    FitsWrap(CountIn(resp.cpuIds, ps));
  }

  lemma {:induction false} DistinctNoRepeat(s: seq<int>, t: set<int>)
    requires Distinct(s)
    ensures NoRepeatIn(s, t)
  {
  }

  /** The index places at a node exactly the allocatable CPUs among its processors. */
  lemma {:induction false} UsableIndexed(d: NodeData, nodes: seq<TopologyNode>, resp: AllocatableResources,
                                         cap: map<int, map<string, int>>, exclude: set<string>, n: int)
    requires Built(d, nodes, resp, cap, exclude) && WellFormedNode(nodes, resp) && 0 <= n < |nodes|
    ensures CpuIndexIs(d.index, n, SetOf(resp.cpuIds) * SetOf(Processors(nodes[n])))
  {
    hide Built, WellFormedNode, FormatInt, Processors;
    forall c: int
      ensures IndexedTo(d.index, (CPU, FormatInt(c)), n, CPU) <==> c in SetOf(resp.cpuIds) * SetOf(Processors(nodes[n]))
    {
      CpuIndexedExactly(d, nodes, resp, cap, exclude, n, c);
    }
  }
}
