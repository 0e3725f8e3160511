/** The aggregator: per-node counters held in heap cells, the replay of pod holdings against them, and the zones. */
module Aggregator {
  import opened Common
  import opened Accumulate
  import opened Decimal
  import opened PodResourcesApi
  import opened Indexes
  import opened Ledger

  datatype CostInfo = CostInfo(name: string, value: int)

  datatype ResourceRow = ResourceRow(name: string, available: int, allocatable: int, capacity: int)

  datatype Zone = Zone(name: string, kind: string, costs: seq<CostInfo>, resources: seq<ResourceRow>)

  /** What the aggregator holds after construction; nothing in it changes later. */
  datatype NodeData = NodeData(
    nodes: seq<TopologyNode>,
    alloc: map<int, map<string, int>>,
    index: map<string, map<string, int>>,
    reserved: map<int, seq<string>>,
    memoryCapacity: map<int, map<string, int>>,
    exclude: set<string>)
  {
    /** The node IDs the counters use: positions in the topology's node list. */
    function Known(): set<int> {
      UpTo(|nodes|)
    }

    function ListedNames(n: int): set<string> {
      if n in alloc then alloc[n].Keys - exclude else {CPU}
    }

    function AllocatableOf(n: int, r: string): int {
      if n in alloc && r in alloc[n] then alloc[n][r] else 0
    }

    function ReservedCount(n: int): nat {
      if n in reserved then |reserved[n]| else 0
    }

    function CapacityOf(n: int, r: string): int {
      if n !in alloc then ReservedCount(n)
      else if r == CPU then AllocatableOf(n, r) + ReservedCount(n)
      else if IsMemoryLike(r) && n in memoryCapacity && r in memoryCapacity[n] then memoryCapacity[n][r]
      else AllocatableOf(n, r)
    }

    /** The Available counters before any pod is charged. */
    function Start(): Counters {
      map n, r | n in Known() && r in ListedNames(n) :: (n, r) := AllocatableOf(n, r)
    }

    function Final(pods: seq<PodResources>): Counters {
      Replay(Known(), Start(), ChargesOfPods(index, pods))
    }

    ghost predicate Panics(pods: seq<PodResources>) {
      exists q :: q in ChargesOfPods(index, pods) && Faults(Known(), Start().Keys, q)
    }
  }

  lemma {:induction false} StartHas(d: NodeData, n: int, r: string)
    ensures (n, r) in d.Start() <==> 0 <= n < |d.nodes| && r in d.ListedNames(n)
    ensures (n, r) in d.Start() ==> d.Start()[(n, r)] == d.AllocatableOf(n, r)
  {
  }

  // ---- Charges of pods ----

  function UnitFor(index: map<string, map<string, int>>, name: string): string -> seq<Charge> {
    id => if name in index && id in index[name] then [Unit(index[name][id], name)] else []
  }

  function UnitCharges(index: map<string, map<string, int>>, ri: ResourceInfo): seq<Charge> {
    FlatMap(UnitFor(index, ri.name), ri.data)
  }

  function MemoryCharges(ri: ResourceInfo): seq<Charge> {
    if ri.numaNodeIds == [] || |ri.data| != 1 then []
    else match ParseInt(ri.data[0])
      case Some(size) => [Memory(ri.name, ri.numaNodeIds, size)]
      case None => []
  }

  function ChargesOf(index: map<string, map<string, int>>): ResourceInfo -> seq<Charge> {
    (ri: ResourceInfo) => if IsMemoryLike(ri.name) then MemoryCharges(ri) else UnitCharges(index, ri)
  }

  function ChargesOfContainer(index: map<string, map<string, int>>): ContainerResources -> seq<Charge> {
    (c: ContainerResources) => FlatMap(ChargesOf(index), c.resources)
  }

  function ChargesOfPod(index: map<string, map<string, int>>): PodResources -> seq<Charge> {
    (p: PodResources) => FlatMap(ChargesOfContainer(index), p.containers)
  }

  function ChargesOfPods(index: map<string, map<string, int>>, pods: seq<PodResources>): seq<Charge> {
    FlatMap(ChargesOfPod(index), pods)
  }

  /** The outcome of charging qs: a panic exactly when one of them meets a missing counter, and otherwise the replay. */
  ghost predicate Charged(known: set<int>, before: Counters, qs: seq<Charge>, after: Counters, panicked: bool) {
    && (panicked <==> exists q :: q in qs && Faults(known, before.Keys, q))
    && (!panicked ==> after == Replay(known, before, qs))
  }

  lemma {:induction false} ChargedNone(known: set<int>, c: Counters)
    ensures Charged(known, c, [], c, false)
  {
  }

  lemma {:induction false} ChargedThen(known: set<int>, c0: Counters, a: seq<Charge>, c1: Counters, b: seq<Charge>, c2: Counters, panicked: bool)
    requires Charged(known, c0, a, c1, false) && Charged(known, c1, b, c2, panicked)
    ensures Charged(known, c0, a + b, c2, panicked)
  {
    ReplayAppend(known, c0, a, b);
    assert forall q :: q in a + b <==> q in a || q in b;
  }

  /** A panic while charging one element is a panic of the whole list. */
  lemma {:induction false} ChargedPanics<T>(known: set<int>, c0: Counters, f: T -> seq<Charge>, s: seq<T>, i: nat, c1: Counters, c2: Counters, c3: Counters)
    requires i < |s| && c1.Keys == c0.Keys && Charged(known, c1, f(s[i]), c2, true)
    ensures Charged(known, c0, FlatMap(f, s), c3, true)
  {
    var q :| q in f(s[i]) && Faults(known, c1.Keys, q);
    FlatMapMember(f, s, q);
  }

  lemma {:induction false} ChargedMemory(known: set<int>, c: Counters, ri: ResourceInfo, after: Counters)
    requires after == Replay(known, c, MemoryCharges(ri))
    ensures Charged(known, c, MemoryCharges(ri), after, false)
  {
  }

  // ---- Zones ----

  function ZoneName(n: int): string {
    "node-" + FormatInt(n)
  }

  function FindNode(nodes: seq<TopologyNode>, id: int): Option<TopologyNode> {
    if nodes == [] then None
    else if nodes[0].id == id then Some(nodes[0])
    else FindNode(nodes[1..], id)
  }

  /** The distances from a node to every node, or nothing when no node has that ID. */
  function CostsOf(nodes: seq<TopologyNode>, n: int): seq<CostInfo> {
    match FindNode(nodes, n)
    case None => []
    case Some(src) => seq(|src.distances|, i requires 0 <= i < |src.distances| => CostInfo(ZoneName(i), src.distances[i]))
  }

  function RowOf(d: NodeData, c: Counters, n: int, r: string): ResourceRow {
    ResourceRow(r, if (n, r) in c then c[(n, r)] else 0, d.AllocatableOf(n, r), d.CapacityOf(n, r))
  }

  /** rows shows every listed resource of node n exactly once, in some order. */
  ghost predicate RowsShow(rows: seq<ResourceRow>, d: NodeData, c: Counters, n: int) {
    exists order: seq<string> ::
      Visits(order, d.ListedNames(n)) && |rows| == |order| && forall i :: 0 <= i < |rows| ==> rows[i] == RowOf(d, c, n, order[i])
  }

  ghost predicate ZoneShows(z: Zone, d: NodeData, c: Counters, n: int) {
    z.name == ZoneName(n) && z.kind == "Node" && z.costs == CostsOf(d.nodes, n) && RowsShow(z.resources, d, c, n)
  }

  /** zones shows every node of the topology exactly once, in some order, with its final counters. */
  ghost predicate Renders(zones: seq<Zone>, d: NodeData, c: Counters) {
    exists order: seq<int> ::
      Visits(order, d.Known()) && |zones| == |order| && forall i :: 0 <= i < |zones| ==> ZoneShows(zones[i], d, c, order[i])
  }

  // ---- Counters in the heap ----

  class ResourceData {
    var available: int
    const allocatable: int
    const capacity: int

    constructor (allocatable: int, capacity: int)
      ensures available == allocatable && this.allocatable == allocatable && this.capacity == capacity
    {
      this.available := allocatable;
      this.allocatable := allocatable;
      this.capacity := capacity;
    }
  }

  type NumaData = map<int, map<string, ResourceData>>

  ghost function Cells(numaData: NumaData): set<ResourceData> {
    set n, r | n in numaData && r in numaData[n] :: numaData[n][r]
  }

  ghost predicate Unaliased(numaData: NumaData) {
    forall n, r, m, s :: n in numaData && r in numaData[n] && m in numaData && s in numaData[m] && (n, r) != (m, s)
      ==> numaData[n][r] != numaData[m][s]
  }

  /** The available amounts the cells hold. */
  ghost function View(numaData: NumaData): Counters
    reads Cells(numaData)
  {
    map n, r | n in numaData && r in numaData[n] :: (n, r) := numaData[n][r].available
  }

  lemma {:induction false} ViewHas(numaData: NumaData, n: int, r: string)
    ensures (n, r) in View(numaData) <==> n in numaData && r in numaData[n]
    ensures n in numaData && r in numaData[n] ==> View(numaData)[(n, r)] == numaData[n][r].available
    ensures n in numaData && r in numaData[n] ==> numaData[n][r] in Cells(numaData)
  {
  }

  /** Writing one cell changes one entry of the view. */
  method SetAvailable(numaData: NumaData, n: int, r: string, value: int)
    requires Unaliased(numaData) && n in numaData && r in numaData[n]
    modifies numaData[n][r]
    ensures View(numaData) == old(View(numaData))[(n, r) := value]
  {
    numaData[n][r].available := value;
    assert forall m, s :: m in numaData && s in numaData[m] && (m, s) != (n, r) ==> numaData[m][s] != numaData[n][r];
  }

  /** The constructed value follows the indexes of module Indexes, the CPU groups taken in some order. */
  ghost predicate Built(d: NodeData, nodes: seq<TopologyNode>, resp: AllocatableResources,
                        memoryCapacity: map<int, map<string, int>>, exclude: set<string>) {
    exists devs :: WithGroups(resp.devices, CpuGroups(nodes, resp.cpuIds), devs)
      && BuiltFrom(d, nodes, devs, resp.memory, memoryCapacity, exclude)
  }

  ghost predicate BuiltFrom(d: NodeData, nodes: seq<TopologyNode>, devs: seq<ContainerDevices>,
                            blocks: seq<ContainerMemory>,
                            memoryCapacity: map<int, map<string, int>>, exclude: set<string>) {
    && d.nodes == nodes && d.memoryCapacity == memoryCapacity && d.exclude == exclude
    && d.index.Keys == NamesOf(devs) && Flat(d.index) == LastWins(DevicePairs(devs))
    && Flat(d.alloc) == Tally(AmountPairs(devs, blocks)) && NoEmptyNode(d.alloc)
    && d.reserved == ReservedCPUs(nodes, ListedCPUs(devs))
  }

  lemma {:induction false} GroupsPlaced(raw: seq<ContainerDevices>, groups: map<int, seq<string>>, devs: seq<ContainerDevices>)
    requires CpuDevicesPlaced(raw) && WithGroups(raw, groups, devs)
    ensures CpuDevicesPlaced(devs)
  {
    var order :| Visits(order, groups.Keys) && devs == raw + GroupDevices(groups, order);
    forall i | |raw| <= i < |devs|
      ensures NodesOf(devs[i].topology) != []
    {
      FlatMapMember(GroupDevice(groups), order, devs[i]);
    }
  }

  class NodeResources {
    const topo: seq<TopologyNode>
    const perNUMAAllocatable: map<int, map<string, int>>
    const resourceID2NUMAID: map<string, map<string, int>>
    const reservedCPUIDPerNUMA: map<int, seq<string>>
    const memoryResourcesCapacityPerNUMA: map<int, map<string, int>>
    const excludeList: set<string>

    function Data(): NodeData {
      NodeData(topo, perNUMAAllocatable, resourceID2NUMAID, reservedCPUIDPerNUMA, memoryResourcesCapacityPerNUMA, excludeList)
    }

    constructor FromData(nodes: seq<TopologyNode>, resp: AllocatableResources,
                         memoryCapacity: map<int, map<string, int>>, exclude: set<string>)
      requires CpuDevicesPlaced(resp.devices)
      ensures Built(Data(), nodes, resp, memoryCapacity, exclude)
    {
      var allDevs := GetContainerDevicesFromAllocatableResources(resp, nodes);
      GroupsPlaced(resp.devices, CpuGroups(nodes, resp.cpuIds), allDevs);
      var resourceMap := MakeResourceMap(allDevs);
      var nodeAllocatable := MakeNodeAllocatable(allDevs, resp.memory);
      var reservedCPUs := MakeReservedCPUMap(nodes, allDevs);
      topo := nodes;
      resourceID2NUMAID := resourceMap;
      perNUMAAllocatable := nodeAllocatable;
      reservedCPUIDPerNUMA := reservedCPUs;
      memoryResourcesCapacityPerNUMA := memoryCapacity;
      excludeList := exclude;
      new;
      assert BuiltFrom(Data(), nodes, allDevs, resp.memory, memoryCapacity, exclude);
    }

    predicate IsExcluded(resource: string) {
      resource in excludeList
    }

    /** The cells of a node that has allocatable resources, made in map iteration order. */
    method NodeCells(n: int) returns (row: map<string, ResourceData>)
      requires n in perNUMAAllocatable
      ensures RowStarts(row, Data(), n) && fresh(row.Values)
    {
      row := map[];
      var nodeRes := perNUMAAllocatable[n];
      var remaining := nodeRes.Keys;
      while remaining != {}
        invariant remaining <= nodeRes.Keys && row.Keys == nodeRes.Keys - remaining - excludeList
        invariant forall r :: r in row ==> fresh(row[r]) && row[r].available == nodeRes[r] && row[r].allocatable == nodeRes[r]
                                           && row[r].capacity == Data().CapacityOf(n, r)
        invariant forall r, s :: r in row && s in row && r != s ==> row[r] != row[s]
        decreases remaining
      {
        var resName :| resName in remaining;
        remaining := remaining - {resName};
        var allocatable := nodeRes[resName];
        if IsExcluded(resName) {
          continue;
        }
        var capacity: int;
        if resName == CPU {
          capacity := allocatable + if n in reservedCPUIDPerNUMA then |reservedCPUIDPerNUMA[n]| else 0;
        } else if resName == MEMORY || HUGEPAGES_PREFIX <= resName {
          if n !in memoryResourcesCapacityPerNUMA {
            capacity := allocatable;
          } else if resName !in memoryResourcesCapacityPerNUMA[n] {
            capacity := allocatable;
          } else {
            capacity := memoryResourcesCapacityPerNUMA[n][resName];
          }
        } else {
          capacity := allocatable;
        }
        var cell := new ResourceData(allocatable, capacity);
        row := row[resName := cell];
      }
    }

    method NodeRow(n: int) returns (row: map<string, ResourceData>)
      ensures RowStarts(row, Data(), n) && fresh(row.Values)
    {
      if n in perNUMAAllocatable {
        row := NodeCells(n);
      } else {
        // Every CPU of a node without allocatable resources is reserved.
        var cell := new ResourceData(0, if n in reservedCPUIDPerNUMA then |reservedCPUIDPerNUMA[n]| else 0);
        row := map[CPU := cell];
      }
    }

    /** The first loop of Aggregate: fresh cells for every node of the topology. */
    method FreshCounters() returns (perNuma: NumaData)
      ensures Laid(perNuma, Data()) && View(perNuma) == Data().Start() && fresh(Cells(perNuma))
    {
      hide View, NodeData.Start, Cells, Laid, RowStarts, Unaliased, UpTo;
      perNuma := map[];
      ghost var cells: set<ResourceData> := {};
      NoCells();
      for nodeID := 0 to |topo|
        invariant perNuma.Keys == UpTo(nodeID) && Unaliased(perNuma) && cells == Cells(perNuma) && fresh(cells)
        invariant forall n :: n in perNuma ==> RowStarts(perNuma[n], Data(), n)
      {
        var row := NodeRow(nodeID);
        assert cells !! row.Values;
        AddRow(perNuma, nodeID, row, Data());
        perNuma := perNuma[nodeID := row];
        cells := cells + row.Values;
        UpToStep(nodeID);
      }
      RowsGiveStart(perNuma, Data());
    }

    method UpdateMemoryAvailable(numaData: NumaData, ri: ResourceInfo)
      requires Unaliased(numaData)
      modifies Cells(numaData)
      ensures View(numaData) == Replay(numaData.Keys, old(View(numaData)), MemoryCharges(ri))
    {
      hide View, Replay;
      if |ri.numaNodeIds| == 0 {
        ReplayNone(numaData.Keys, View(numaData));
        return;
      }
      if |ri.data| != 1 {
        ReplayNone(numaData.Keys, View(numaData));
        return;
      }
      var parsed := ParseInt(ri.data[0]);
      if parsed == None {
        ReplayNone(numaData.Keys, View(numaData));
        return;
      }
      var requestedSize := parsed.value;
      ReplayOne(numaData.Keys, View(numaData), Memory(ri.name, ri.numaNodeIds, requestedSize));
      ghost var target := Fill(numaData.Keys, View(numaData), ri.name, ri.numaNodeIds, requestedSize);

      assert ri.numaNodeIds[0..] == ri.numaNodeIds;
      for i := 0 to |ri.numaNodeIds|
        invariant Fill(numaData.Keys, View(numaData), ri.name, ri.numaNodeIds[i..], requestedSize) == target
      {
        var n := ri.numaNodeIds[i];
        assert ri.numaNodeIds[i..][0] == n && ri.numaNodeIds[i..][1..] == ri.numaNodeIds[i + 1..];
        if requestedSize == 0 {
          return;
        }
        ViewHas(numaData, n, ri.name);
        if n !in numaData {
          continue;
        }
        if ri.name !in numaData[n] {
          return;
        }
        if numaData[n][ri.name].available == 0 {
          continue;
        }
        if requestedSize >= numaData[n][ri.name].available {
          requestedSize := requestedSize - numaData[n][ri.name].available;
          SetAvailable(numaData, n, ri.name, 0);
        } else {
          SetAvailable(numaData, n, ri.name, numaData[n][ri.name].available - requestedSize);
          requestedSize := 0;
        }
      }
    }

    /** panicked reports the nil dereference of a counter that does not exist. */
    method UpdateAvailable(numaData: NumaData, ri: ResourceInfo) returns (panicked: bool)
      requires Unaliased(numaData)
      modifies Cells(numaData)
      ensures Charged(numaData.Keys, old(View(numaData)), UnitCharges(resourceID2NUMAID, ri), View(numaData), panicked)
      ensures View(numaData).Keys == old(View(numaData)).Keys
    {
      hide View, Replay, FlatMap;
      ghost var start := View(numaData);
      ghost var f := UnitFor(resourceID2NUMAID, ri.name);
      FlatMapNone(f, [], ri.data);
      ReplayNone(numaData.Keys, start);
      for i := 0 to |ri.data|
        invariant View(numaData) == Replay(numaData.Keys, start, FlatMap(f, ri.data[..i]))
        invariant forall q :: q in FlatMap(f, ri.data[..i]) ==> !Faults(numaData.Keys, start.Keys, q)
      {
        var resID := ri.data[i];
        FlatMapStep(f, ri.data, i);
        assert FlatMap(f, ri.data[..i]) + [] == FlatMap(f, ri.data[..i]);
        if ri.name !in resourceID2NUMAID {
          continue;
        }
        var resMap := resourceID2NUMAID[ri.name];
        if resID !in resMap {
          continue;
        }
        var nodeID := resMap[resID];
        ReplayLast(numaData.Keys, start, FlatMap(f, ri.data[..i]), Unit(nodeID, ri.name));
        ViewHas(numaData, nodeID, ri.name);
        if nodeID !in numaData {
          continue;
        }
        if ri.name !in numaData[nodeID] {
          var q := Unit(nodeID, ri.name);
          assert q in f(ri.data[i]);
          FlatMapMember(f, ri.data, q);
          assert Faults(numaData.Keys, start.Keys, q);
          return true;
        }
        SetAvailable(numaData, nodeID, ri.name, numaData[nodeID][ri.name].available - 1);
      }
      assert ri.data[..|ri.data|] == ri.data;
      return false;
    }

    /** The loop over the resources of a container. */
    method ChargeContainer(numaData: NumaData, c: ContainerResources) returns (panicked: bool)
      requires Unaliased(numaData)
      modifies Cells(numaData)
      ensures Charged(numaData.Keys, old(View(numaData)), ChargesOfContainer(resourceID2NUMAID)(c), View(numaData), panicked)
      ensures View(numaData).Keys == old(View(numaData)).Keys
    {
      hide View, Replay, FlatMap, Charged, MemoryCharges, UnitCharges, Unaliased, Cells;
      ghost var known, start := numaData.Keys, View(numaData);
      ghost var f := ChargesOf(resourceID2NUMAID);
      FlatMapNone(f, [], c.resources);
      ChargedNone(known, start);
      for i := 0 to |c.resources|
        invariant View(numaData).Keys == start.Keys
        invariant Charged(known, start, FlatMap(f, c.resources[..i]), View(numaData), false)
      {
        var res := c.resources[i];
        ghost var mid := View(numaData);
        FlatMapStep(f, c.resources, i);
        if res.name == MEMORY || HUGEPAGES_PREFIX <= res.name {
          UpdateMemoryAvailable(numaData, res);
          ChargedMemory(known, mid, res, View(numaData));
          ChargedThen(known, start, FlatMap(f, c.resources[..i]), mid, f(res), View(numaData), false);
          continue;
        }
        panicked := UpdateAvailable(numaData, res);
        if panicked {
          ChargedPanics(known, start, f, c.resources, i, mid, View(numaData), View(numaData));
          return;
        }
        ChargedThen(known, start, FlatMap(f, c.resources[..i]), mid, f(res), View(numaData), false);
      }
      assert c.resources[..|c.resources|] == c.resources;
      return false;
    }

    /** The loop over the containers of a pod. */
    method ChargePod(numaData: NumaData, pod: PodResources) returns (panicked: bool)
      requires Unaliased(numaData)
      modifies Cells(numaData)
      ensures Charged(numaData.Keys, old(View(numaData)), ChargesOfPod(resourceID2NUMAID)(pod), View(numaData), panicked)
      ensures View(numaData).Keys == old(View(numaData)).Keys
    {
      hide View, Replay, FlatMap, Charged, Unaliased, Cells;
      ghost var known, start := numaData.Keys, View(numaData);
      ghost var f := ChargesOfContainer(resourceID2NUMAID);
      FlatMapNone(f, [], pod.containers);
      ChargedNone(known, start);
      for i := 0 to |pod.containers|
        invariant View(numaData).Keys == start.Keys
        invariant Charged(known, start, FlatMap(f, pod.containers[..i]), View(numaData), false)
      {
        ghost var mid := View(numaData);
        FlatMapStep(f, pod.containers, i);
        panicked := ChargeContainer(numaData, pod.containers[i]);
        if panicked {
          ChargedPanics(known, start, f, pod.containers, i, mid, View(numaData), View(numaData));
          return;
        }
        ChargedThen(known, start, FlatMap(f, pod.containers[..i]), mid, f(pod.containers[i]), View(numaData), false);
      }
      assert pod.containers[..|pod.containers|] == pod.containers;
      return false;
    }

    /** The second loop of Aggregate: the replay of all pods. */
    method ChargePods(numaData: NumaData, pods: seq<PodResources>) returns (panicked: bool)
      requires Unaliased(numaData)
      modifies Cells(numaData)
      ensures Charged(numaData.Keys, old(View(numaData)), ChargesOfPods(resourceID2NUMAID, pods), View(numaData), panicked)
    {
      hide View, Replay, FlatMap, Charged, Unaliased, Cells;
      ghost var known, start := numaData.Keys, View(numaData);
      ghost var f := ChargesOfPod(resourceID2NUMAID);
      FlatMapNone(f, [], pods);
      ChargedNone(known, start);
      for i := 0 to |pods|
        invariant View(numaData).Keys == start.Keys
        invariant Charged(known, start, FlatMap(f, pods[..i]), View(numaData), false)
      {
        ghost var mid := View(numaData);
        FlatMapStep(f, pods, i);
        panicked := ChargePod(numaData, pods[i]);
        if panicked {
          ChargedPanics(known, start, f, pods, i, mid, View(numaData), View(numaData));
          return;
        }
        ChargedThen(known, start, FlatMap(f, pods[..i]), mid, f(pods[i]), View(numaData), false);
      }
      assert pods[..|pods|] == pods;
      return false;
    }

    /** The rows of one zone, in map iteration order. */
    method RenderRows(resList: map<string, ResourceData>, n: int, ghost c: Counters) returns (rows: seq<ResourceRow>)
      requires resList.Keys == Data().ListedNames(n)
      requires forall r :: r in resList ==> (n, r) in c && c[(n, r)] == resList[r].available
      requires forall r :: r in resList ==> resList[r].allocatable == Data().AllocatableOf(n, r)
      requires forall r :: r in resList ==> resList[r].capacity == Data().CapacityOf(n, r)
      ensures RowsShow(rows, Data(), c, n)
    {
      rows := [];
      ghost var order: seq<string> := [];
      var remaining := resList.Keys;
      while remaining != {}
        invariant remaining <= resList.Keys && Visits(order, resList.Keys - remaining)
        invariant |rows| == |order| && forall i :: 0 <= i < |rows| ==> rows[i] == RowOf(Data(), c, n, order[i])
        decreases remaining
      {
        var name :| name in remaining;
        var resData := resList[name];
        rows := rows + [ResourceRow(name, resData.available, resData.allocatable, resData.capacity)];
        order := order + [name];
        remaining := remaining - {name};
      }
    }

    /** The zone of one node. */
    method RenderZone(perNuma: NumaData, nodeID: int, ghost c: Counters) returns (zone: Zone)
      requires Laid(perNuma, Data()) && nodeID in perNuma && c == View(perNuma)
      ensures ZoneShows(zone, Data(), c, nodeID)
    {
      hide View, RowsShow, CostsOf, NodeData.Known, NodeData.CapacityOf, NodeData.AllocatableOf, Unaliased, Cells;
      forall r | r in perNuma[nodeID]
        ensures (nodeID, r) in c && c[(nodeID, r)] == perNuma[nodeID][r].available
      {
        ViewHas(perNuma, nodeID, r);
      }
      var costs := MakeCostsPerNumaNode(topo, nodeID);
      var rows := RenderRows(perNuma[nodeID], nodeID, c);
      zone := Zone(ZoneName(nodeID), "Node", costs, rows);
    }

    /** The third loop of Aggregate: one zone per node, in map iteration order. */
    method RenderZones(perNuma: NumaData, ghost c: Counters) returns (zones: seq<Zone>)
      requires Laid(perNuma, Data()) && c == View(perNuma)
      ensures Renders(zones, Data(), c)
    {
      hide ZoneShows, NodeData.Known, Unaliased, Cells, Laid;
      LaidKeys(perNuma, Data());
      zones := [];
      ghost var order: seq<int> := [];
      var remaining := perNuma.Keys;
      while remaining != {}
        invariant remaining <= perNuma.Keys && Visits(order, perNuma.Keys - remaining)
        invariant |zones| == |order| && forall i :: 0 <= i < |zones| ==> ZoneShows(zones[i], Data(), c, order[i])
        invariant View(perNuma) == c
        decreases remaining
      {
        HasMember(remaining);
        var nodeID: int :| nodeID in remaining;
        var zone := RenderZone(perNuma, nodeID, c);
        zones := zones + [zone];
        order := order + [nodeID];
        remaining := remaining - {nodeID};
      }
      assert Visits(order, Data().Known());
    }

    /** panicked is the crash of the replay on a missing counter; otherwise the zones show the final counters. */
    method Aggregate(pods: seq<PodResources>) returns (panicked: bool, zones: seq<Zone>)
      ensures panicked <==> Data().Panics(pods)
      ensures !panicked ==> Renders(zones, Data(), Data().Final(pods))
    {
      hide View, Replay, FlatMap, Renders, ChargesOfPods, NodeData.Start, Unaliased, Cells;
      zones := [];
      var perNuma := FreshCounters();
      panicked := ChargePods(perNuma, pods);
      if !panicked {
        zones := RenderZones(perNuma, View(perNuma));
      }
    }
  }

  method FindNodeByID(nodes: seq<TopologyNode>, id: int) returns (node: Option<TopologyNode>)
    ensures node == FindNode(nodes, id)
  {
    assert nodes[0..] == nodes;
    for i := 0 to |nodes|
      invariant FindNode(nodes, id) == FindNode(nodes[i..], id)
    {
      assert nodes[i..][1..] == nodes[i + 1..];
      if nodes[i].id == id {
        return Some(nodes[i]);
      }
    }
    return None;
  }

  /** An unknown node is the error case, which leaves a zone without costs. */
  method MakeCostsPerNumaNode(nodes: seq<TopologyNode>, src: int) returns (costs: seq<CostInfo>)
    ensures costs == CostsOf(nodes, src)
  {
    var node := FindNodeByID(nodes, src);
    costs := [];
    if node == None {
      return;
    }
    var distances := node.value.distances;
    for i := 0 to |distances|
      invariant costs == seq(i, k requires 0 <= k < i => CostInfo(ZoneName(k), distances[k]))
    {
      costs := costs + [CostInfo(ZoneName(i), distances[i])];
    }
  }

  /** The cells of one node before any charge: one per listed resource, all different. */
  ghost predicate RowStarts(row: map<string, ResourceData>, d: NodeData, n: int)
    reads row.Values
  {
    && row.Keys == d.ListedNames(n)
    && (forall r :: r in row ==> row[r].available == d.AllocatableOf(n, r) && row[r].allocatable == d.AllocatableOf(n, r)
                                 && row[r].capacity == d.CapacityOf(n, r))
    && (forall r, s :: r in row && s in row && r != s ==> row[r] != row[s])
  }

  /** The cells of all nodes: what never changes once they are made. */
  ghost predicate Laid(numaData: NumaData, d: NodeData) {
    && numaData.Keys == d.Known()
    && (forall n :: n in numaData ==> numaData[n].Keys == d.ListedNames(n))
    && (forall n, r :: n in numaData && r in numaData[n]
          ==> numaData[n][r].allocatable == d.AllocatableOf(n, r) && numaData[n][r].capacity == d.CapacityOf(n, r))
    && Unaliased(numaData)
  }

  lemma {:induction false} NoCells()
    ensures Cells(map[]) == {} && Unaliased(map[]) && UpTo(0) == {}
  {
  }

  lemma {:induction false} UpToStep(n: nat)
    ensures UpTo(n + 1) == UpTo(n) + {n}
  {
  }

  lemma {:induction false} AddRow(numaData: NumaData, n: int, row: map<string, ResourceData>, d: NodeData)
    requires n !in numaData && Unaliased(numaData) && RowStarts(row, d, n) && Cells(numaData) !! row.Values
    ensures Unaliased(numaData[n := row]) && Cells(numaData[n := row]) == Cells(numaData) + row.Values
  {
    var next := numaData[n := row];
    forall c
      ensures c in Cells(next) <==> c in Cells(numaData) + row.Values
    {
      if c in row.Values {
        var r :| r in row && row[r] == c;
        assert next[n][r] == c;
      }
      if c in Cells(numaData) {
        var m, s :| m in numaData && s in numaData[m] && numaData[m][s] == c;
        assert next[m][s] == c;
      }
    }
    forall m, s, p, r | m in next && s in next[m] && p in next && r in next[p] && (m, s) != (p, r)
      ensures next[m][s] != next[p][r]
    {
      ViewHas(numaData, m, s);
      ViewHas(numaData, p, r);
      assert m == n ==> next[m][s] in row.Values;
      assert p == n ==> next[p][r] in row.Values;
    }
  }

  lemma {:induction false} RowsGiveStart(numaData: NumaData, d: NodeData)
    requires numaData.Keys == d.Known() && Unaliased(numaData)
    requires forall n :: n in numaData ==> RowStarts(numaData[n], d, n)
    ensures Laid(numaData, d) && View(numaData) == d.Start()
  {
    hide View, NodeData.Start, NodeData.ListedNames, NodeData.AllocatableOf, NodeData.CapacityOf, NodeData.Known, Unaliased;
    RowsView(numaData, d);
  }

  lemma {:induction false} RowsView(numaData: NumaData, d: NodeData)
    requires numaData.Keys == d.Known()
    requires forall n :: n in numaData ==> RowStarts(numaData[n], d, n)
    ensures View(numaData) == d.Start()
  {
    hide View, NodeData.Start, NodeData.ListedNames, NodeData.AllocatableOf, NodeData.CapacityOf;
    forall k: Cell
      ensures Get(View(numaData), k) == Get(d.Start(), k)
    {
      ViewHas(numaData, k.0, k.1);
      StartHas(d, k.0, k.1);
    }
    SameLookups(View(numaData), d.Start());
  }

  lemma {:induction false} LaidKeys(numaData: NumaData, d: NodeData)
    requires Laid(numaData, d)
    ensures numaData.Keys == d.Known()
  {
  }

  lemma {:induction false} ReplayNone(known: set<int>, c: Counters)
    ensures Replay(known, c, []) == c
  {
  }

  lemma {:induction false} ReplayOne(known: set<int>, c: Counters, q: Charge)
    ensures Replay(known, c, [q]) == Apply(known, c, q)
  {
  }
}
