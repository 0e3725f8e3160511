/** The indexes the aggregator builds once from the topology and the allocatable response.
    Each loop nest is proved equal to a fold (module Accumulate) over the flat list of pairs it visits. */
module Indexes {
  import opened Common
  import opened Accumulate
  import opened Decimal
  import opened PodResourcesApi

  // ---- Logical processor -> NUMA node ----

  function Tag<A, B>(xs: seq<A>, b: B): seq<(A, B)> {
    seq(|xs|, i requires 0 <= i < |xs| => (xs[i], b))
  }

  function ProcPairsOf(node: TopologyNode): seq<(int, int)> {
    Tag(Processors(node), node.id)
  }

  function ProcPairs(nodes: seq<TopologyNode>): seq<(int, int)> {
    FlatMap(ProcPairsOf, nodes)
  }

  function CoreToNode(nodes: seq<TopologyNode>): map<int, int> {
    LastWins(ProcPairs(nodes))
  }

  method MakeLogicalCoreIDToNodeIDMap(nodes: seq<TopologyNode>) returns (core2node: map<int, int>)
    ensures core2node == CoreToNode(nodes)
  {
    hide LastWins, FlatMap;
    core2node := map[];
    NothingYet<int, int>();
    FlatMapNone(ProcPairsOf, [], nodes);
    for i := 0 to |nodes|
      invariant core2node == CoreToNode(nodes[..i])
    {
      var node := nodes[i];
      ghost var before := ProcPairs(nodes[..i]);
      FlatMapNone(Same, [], node.cores);
      assert before + Tag([], node.id) == before;
      for j := 0 to |node.cores|
        invariant core2node == LastWins(before + Tag(FlatMap(Same, node.cores[..j]), node.id))
      {
        var core := node.cores[j];
        ghost var done := FlatMap(Same, node.cores[..j]);
        assert done + core[..0] == done;
        for k := 0 to |core|
          invariant core2node == LastWins(before + Tag(done + core[..k], node.id))
        {
          core2node := core2node[core[k] := node.id];
          LastWinsSnoc(before + Tag(done + core[..k], node.id), core[k], node.id);
          assert before + Tag(done + core[..k + 1], node.id)
              == before + Tag(done + core[..k], node.id) + [(core[k], node.id)];
        }
        assert core[..|core|] == core;
        FlatMapStep(Same, node.cores, j);
      }
      assert node.cores[..|node.cores|] == node.cores;
      FlatMapStep(ProcPairsOf, nodes, i);
    }
    assert nodes[..|nodes|] == nodes;
  }

  // ---- Allocatable CPUs as devices ----

  function Placed(core2node: map<int, int>): int -> seq<(int, string)> {
    c => if c in core2node then [(core2node[c], FormatInt(c))] else []
  }

  /** The allocatable CPU IDs, formatted and grouped by the NUMA node of the topology that has them. */
  function CpuGroups(nodes: seq<TopologyNode>, cpuIds: seq<int>): map<int, seq<string>> {
    GroupBy(FlatMap(Placed(CoreToNode(nodes)), cpuIds))
  }

  function GroupDevice(groups: map<int, seq<string>>): int -> seq<ContainerDevices> {
    n => if n in groups then [ContainerDevices(CPU, groups[n], Some([n]))] else []
  }

  /** One pseudo-device per CPU group, in the given order of the groups. */
  function GroupDevices(groups: map<int, seq<string>>, order: seq<int>): seq<ContainerDevices> {
    FlatMap(GroupDevice(groups), order)
  }

  /** order visits every key exactly once, as ranging over a Go map does. */
  ghost predicate Visits<T(!new)>(order: seq<T>, keys: set<T>) {
    Distinct(order) && forall x :: x in order <==> x in keys
  }

  /** contDevs is raw followed by one pseudo-device per CPU group, the groups in some order. */
  ghost predicate WithGroups(raw: seq<ContainerDevices>, groups: map<int, seq<string>>, contDevs: seq<ContainerDevices>) {
    exists order :: Visits(order, groups.Keys) && contDevs == raw + GroupDevices(groups, order)
  }

  /** The loop that turns CPU groups into devices; its order is Go's map iteration order, hence arbitrary. */
  method AppendGroups(raw: seq<ContainerDevices>, cpusPerNuma: map<int, seq<string>>)
    returns (contDevs: seq<ContainerDevices>)
    ensures WithGroups(raw, cpusPerNuma, contDevs)
  {
    contDevs := raw;
    ghost var order: seq<int> := [];
    var remaining := cpusPerNuma.Keys;
    while remaining != {}
      invariant remaining <= cpusPerNuma.Keys
      invariant Visits(order, cpusPerNuma.Keys - remaining)
      invariant contDevs == raw + GroupDevices(cpusPerNuma, order)
      decreases remaining
    {
      HasMember(remaining);
      var nodeID :| nodeID in remaining;
      contDevs := contDevs + [ContainerDevices(CPU, cpusPerNuma[nodeID], Some([nodeID]))];
      FlatMapSnoc(GroupDevice(cpusPerNuma), order, nodeID);
      order := order + [nodeID];
      remaining := remaining - {nodeID};
    }
  }

  method GetContainerDevicesFromAllocatableResources(resp: AllocatableResources, nodes: seq<TopologyNode>)
    returns (contDevs: seq<ContainerDevices>)
    ensures WithGroups(resp.devices, CpuGroups(nodes, resp.cpuIds), contDevs)
  {
    hide GroupBy, FlatMap, LastWins;
    var core2node := MakeLogicalCoreIDToNodeIDMap(nodes);

    var cpusPerNuma: map<int, seq<string>> := map[];
    NothingYet<int, string>();
    FlatMapNone(Placed(core2node), [], resp.cpuIds);
    for i := 0 to |resp.cpuIds|
      invariant cpusPerNuma == GroupBy(FlatMap(Placed(core2node), resp.cpuIds[..i]))
    {
      FlatMapStep(Placed(core2node), resp.cpuIds, i);
      var cpuID := resp.cpuIds[i];
      if cpuID !in core2node {
        assert FlatMap(Placed(core2node), resp.cpuIds[..i + 1]) == FlatMap(Placed(core2node), resp.cpuIds[..i]);
        continue;
      }
      var nodeID := core2node[cpuID];
      var cpuIDList := if nodeID in cpusPerNuma then cpusPerNuma[nodeID] else [];
      cpuIDList := cpuIDList + [FormatInt(cpuID)];
      cpusPerNuma := cpusPerNuma[nodeID := cpuIDList];
      GroupBySnoc(FlatMap(Placed(core2node), resp.cpuIds[..i]), nodeID, FormatInt(cpuID));
    }
    assert resp.cpuIds[..|resp.cpuIds|] == resp.cpuIds;
    contDevs := AppendGroups(resp.devices, cpusPerNuma);
  }

  // ---- Resource name -> device ID -> NUMA node ----

  function AtNode(name: string, ids: seq<string>, node: int): seq<((string, string), int)> {
    seq(|ids|, k requires 0 <= k < |ids| => ((name, ids[k]), node))
  }

  function Spread(d: ContainerDevices): int -> seq<((string, string), int)> {
    node => AtNode(d.resourceName, d.deviceIds, node)
  }

  function DevicePairsOf(d: ContainerDevices): seq<((string, string), int)> {
    FlatMap(Spread(d), NodesOf(d.topology))
  }

  function DevicePairs(devices: seq<ContainerDevices>): seq<((string, string), int)> {
    FlatMap(DevicePairsOf, devices)
  }

  /** The loop over the device IDs of one device at one NUMA node. */
  method RecordDeviceIDs(resourceMap: map<string, map<string, int>>, name: string, ids: seq<string>, nodeID: int,
                         ghost pairs: seq<((string, string), int)>)
    returns (next: map<string, map<string, int>>)
    requires name in resourceMap && Flat(resourceMap) == LastWins(pairs)
    ensures next.Keys == resourceMap.Keys && Flat(next) == LastWins(pairs + AtNode(name, ids, nodeID))
  {
    hide Flat, LastWins;
    next := resourceMap;
    assert pairs + AtNode(name, ids[..0], nodeID) == pairs;
    for k := 0 to |ids|
      invariant next.Keys == resourceMap.Keys
      invariant Flat(next) == LastWins(pairs + AtNode(name, ids[..k], nodeID))
    {
      FlatStep(next, name, ids[k], nodeID);
      next := next[name := next[name][ids[k] := nodeID]];
      LastWinsSnoc(pairs + AtNode(name, ids[..k], nodeID), (name, ids[k]), nodeID);
      assert pairs + AtNode(name, ids[..k + 1], nodeID)
          == pairs + AtNode(name, ids[..k], nodeID) + [((name, ids[k]), nodeID)];
    }
    assert ids[..|ids|] == ids;
  }

  /** The loop over the NUMA nodes of one device. */
  method RecordDevice(resourceMap: map<string, map<string, int>>, d: ContainerDevices,
                      ghost pairs: seq<((string, string), int)>)
    returns (next: map<string, map<string, int>>)
    requires Flat(resourceMap) == LastWins(pairs)
    ensures next.Keys == resourceMap.Keys + {d.resourceName} && Flat(next) == LastWins(pairs + DevicePairsOf(d))
  {
    hide Flat, LastWins, FlatMap, AtNode;
    next := resourceMap;
    if d.resourceName !in next {
      FlatNewRow(next, d.resourceName);
      next := next[d.resourceName := map[]];
    }
    var nodes := NodesOf(d.topology);
    FlatMapNone(Spread(d), pairs, nodes);
    for j := 0 to |nodes|
      invariant next.Keys == resourceMap.Keys + {d.resourceName}
      invariant Flat(next) == LastWins(pairs + FlatMap(Spread(d), nodes[..j]))
    {
      next := RecordDeviceIDs(next, d.resourceName, d.deviceIds, nodes[j], pairs + FlatMap(Spread(d), nodes[..j]));
      FlatMapStep(Spread(d), nodes, j);
      assert pairs + FlatMap(Spread(d), nodes[..j + 1])
          == pairs + FlatMap(Spread(d), nodes[..j]) + AtNode(d.resourceName, d.deviceIds, nodes[j]);
    }
    assert nodes[..|nodes|] == nodes;
  }

  function NamesOf(devices: seq<ContainerDevices>): set<string> {
    set d | d in devices :: d.resourceName
  }

  method MakeResourceMap(devices: seq<ContainerDevices>) returns (resourceMap: map<string, map<string, int>>)
    ensures Flat(resourceMap) == LastWins(DevicePairs(devices)) && resourceMap.Keys == NamesOf(devices)
  {
    hide Flat, LastWins, FlatMap, DevicePairsOf;
    resourceMap := map[];
    FlatOfEmpty<string, string, int>();
    NothingYet<(string, string), int>();
    FlatMapNone(DevicePairsOf, [], devices);
    for i := 0 to |devices|
      invariant Flat(resourceMap) == LastWins(DevicePairs(devices[..i]))
      invariant resourceMap.Keys == NamesOf(devices[..i])
    {
      resourceMap := RecordDevice(resourceMap, devices[i], DevicePairs(devices[..i]));
      FlatMapStep(DevicePairsOf, devices, i);
      assert devices[..i + 1] == devices[..i] + [devices[i]];
    }
    assert devices[..|devices|] == devices;
  }

  // ---- NUMA node -> resource name -> allocatable amount ----

  function CountAt(name: string, amount: int): int -> seq<((int, string), int)> {
    node => [((node, name), amount)]
  }

  function CountPairsOf(d: ContainerDevices): seq<((int, string), int)> {
    FlatMap(CountAt(d.resourceName, |d.deviceIds|), NodesOf(d.topology))
  }

  function CountPairs(devices: seq<ContainerDevices>): seq<((int, string), int)> {
    FlatMap(CountPairsOf, devices)
  }

  function BlockPairsOf(b: ContainerMemory): seq<((int, string), int)> {
    FlatMap(CountAt(b.memoryType, b.size), NodesOf(b.topology))
  }

  function BlockPairs(blocks: seq<ContainerMemory>): seq<((int, string), int)> {
    FlatMap(BlockPairsOf, blocks)
  }

  function AmountPairs(devices: seq<ContainerDevices>, blocks: seq<ContainerMemory>): seq<((int, string), int)> {
    CountPairs(devices) + BlockPairs(blocks)
  }

  ghost predicate NoEmptyNode(alloc: map<int, map<string, int>>) {
    forall n :: n in alloc ==> alloc[n] != map[]
  }

  /** The loop over the NUMA nodes of one device. */
  method CountDevice(alloc: map<int, map<string, int>>, d: ContainerDevices, ghost pairs: seq<((int, string), int)>)
    returns (next: map<int, map<string, int>>)
    requires Flat(alloc) == Tally(pairs) && NoEmptyNode(alloc)
    ensures Flat(next) == Tally(pairs + CountPairsOf(d)) && NoEmptyNode(next)
  {
    hide Flat, Tally, FlatMap;
    next := alloc;
    var nodes := NodesOf(d.topology);
    ghost var at := CountAt(d.resourceName, |d.deviceIds|);
    FlatMapNone(at, pairs, nodes);
    for j := 0 to |nodes|
      invariant Flat(next) == Tally(pairs + FlatMap(at, nodes[..j])) && NoEmptyNode(next)
    {
      AddAmount(next, pairs + FlatMap(at, nodes[..j]), nodes[j], d.resourceName, |d.deviceIds|);
      var nodeRes := if nodes[j] in next then next[nodes[j]] else map[];
      var amount := if d.resourceName in nodeRes then nodeRes[d.resourceName] else 0;
      nodeRes := nodeRes[d.resourceName := Wrap64(amount + |d.deviceIds|)];
      assert d.resourceName in nodeRes;
      next := next[nodes[j] := nodeRes];
      FlatMapStep(at, nodes, j);
      assert pairs + FlatMap(at, nodes[..j + 1])
          == pairs + FlatMap(at, nodes[..j]) + [((nodes[j], d.resourceName), |d.deviceIds|)];
    }
    assert nodes[..|nodes|] == nodes;
  }

  /** The loop over the NUMA nodes of one memory block. */
  method CountBlock(alloc: map<int, map<string, int>>, b: ContainerMemory, ghost pairs: seq<((int, string), int)>)
    returns (next: map<int, map<string, int>>)
    requires Flat(alloc) == Tally(pairs) && NoEmptyNode(alloc)
    ensures Flat(next) == Tally(pairs + BlockPairsOf(b)) && NoEmptyNode(next)
  {
    hide Flat, Tally, FlatMap;
    next := alloc;
    FlatMapNone(CountAt(b.memoryType, b.size), pairs, []);
    if b.topology == None {
      return;
    }
    var nodes := b.topology.value;
    ghost var at := CountAt(b.memoryType, b.size);
    FlatMapNone(at, pairs, nodes);
    for j := 0 to |nodes|
      invariant Flat(next) == Tally(pairs + FlatMap(at, nodes[..j])) && NoEmptyNode(next)
    {
      ghost var row := Row(next, nodes[j]);
      ghost var amount := if b.memoryType in row then row[b.memoryType] else 0;
      AddAmount(next, pairs + FlatMap(at, nodes[..j]), nodes[j], b.memoryType, b.size);
      WrapOfCastSummand(amount, b.size);
      ghost var expected := next[nodes[j] := row[b.memoryType := Wrap64(amount + b.size)]];
      if nodes[j] !in next {
        next := next[nodes[j] := map[]];
      }
      if b.memoryType !in next[nodes[j]] {
        next := next[nodes[j] := next[nodes[j]][b.memoryType := 0]];
      }
      next := next[nodes[j] := next[nodes[j]][b.memoryType := Wrap64(next[nodes[j]][b.memoryType] + Wrap64(b.size))]];
      assert next[nodes[j]] == expected[nodes[j]];
      assert next == expected;
      assert b.memoryType in next[nodes[j]];
      FlatMapStep(at, nodes, j);
      assert pairs + FlatMap(at, nodes[..j + 1])
          == pairs + FlatMap(at, nodes[..j]) + [((nodes[j], b.memoryType), b.size)];
    }
    assert nodes[..|nodes|] == nodes;
  }

  method MakeNodeAllocatable(devices: seq<ContainerDevices>, blocks: seq<ContainerMemory>)
    returns (alloc: map<int, map<string, int>>)
    ensures Flat(alloc) == Tally(AmountPairs(devices, blocks)) && NoEmptyNode(alloc)
  {
    hide Flat, Tally, FlatMap, CountPairsOf, BlockPairsOf;
    alloc := map[];
    FlatOfEmpty<int, string, int>();
    NothingYet<(int, string), int>();
    FlatMapNone(CountPairsOf, [], devices);
    for i := 0 to |devices|
      invariant Flat(alloc) == Tally(CountPairs(devices[..i])) && NoEmptyNode(alloc)
    {
      alloc := CountDevice(alloc, devices[i], CountPairs(devices[..i]));
      FlatMapStep(CountPairsOf, devices, i);
    }
    assert devices[..|devices|] == devices;

    FlatMapNone(BlockPairsOf, CountPairs(devices), blocks);
    for i := 0 to |blocks|
      invariant Flat(alloc) == Tally(CountPairs(devices) + BlockPairs(blocks[..i])) && NoEmptyNode(alloc)
    {
      alloc := CountBlock(alloc, blocks[i], CountPairs(devices) + BlockPairs(blocks[..i]));
      FlatMapStep(BlockPairsOf, blocks, i);
      assert CountPairs(devices) + BlockPairs(blocks[..i]) + BlockPairsOf(blocks[i])
          == CountPairs(devices) + BlockPairs(blocks[..i + 1]);
    }
    assert blocks[..|blocks|] == blocks;
  }

  /** Adding an amount to one entry of the nested map, whether or not the entry was there. */
  lemma {:induction false} AddAmount(alloc: map<int, map<string, int>>, pairs: seq<((int, string), int)>, n: int, r: string, v: int)
    requires Flat(alloc) == Tally(pairs)
    ensures
      var row := Row(alloc, n);
      Flat(alloc[n := row[r := Wrap64((if r in row then row[r] else 0) + v)]]) == Tally(pairs + [((n, r), v)])
  {
    TallySnoc(pairs, (n, r), v);
    var row := Row(alloc, n);
    FlatStep(alloc, n, r, Wrap64((if r in row then row[r] else 0) + v));
    assert (n, r) in Flat(alloc) <==> r in row;
  }

  // ---- Reserved CPUs ----

  /** Every raw device called "cpu" that has IDs also names a NUMA node: GetCPUs reads its first node. */
  predicate CpuDevicesPlaced(devices: seq<ContainerDevices>) {
    forall i :: 0 <= i < |devices| && devices[i].resourceName == CPU && devices[i].deviceIds != []
      ==> NodesOf(devices[i].topology) != []
  }

  function CpuIDsOf(d: ContainerDevices): seq<string> {
    if d.resourceName == CPU then d.deviceIds else []
  }

  method GetCPUs(devices: seq<ContainerDevices>) returns (cpuMap: map<string, int>)
    requires CpuDevicesPlaced(devices)
    ensures forall id :: id in cpuMap <==> id in FlatMap(CpuIDsOf, devices)
    ensures forall id :: id in cpuMap ==> exists d :: d in devices && id in CpuIDsOf(d) && NodesOf(d.topology) != []
                                                      && cpuMap[id] == NodesOf(d.topology)[0]
  {
    cpuMap := map[];
    for i := 0 to |devices|
      invariant forall id :: id in cpuMap <==> id in FlatMap(CpuIDsOf, devices[..i])
      invariant forall id :: id in cpuMap ==> exists d :: d in devices && id in CpuIDsOf(d) && NodesOf(d.topology) != []
                                                          && cpuMap[id] == NodesOf(d.topology)[0]
    {
      FlatMapStep(CpuIDsOf, devices, i);
      var d := devices[i];
      if d.resourceName == CPU {
        for k := 0 to |d.deviceIds|
          invariant forall id :: id in cpuMap <==> id in FlatMap(CpuIDsOf, devices[..i]) || id in d.deviceIds[..k]
          invariant forall id :: id in cpuMap ==> exists d :: d in devices && id in CpuIDsOf(d) && NodesOf(d.topology) != []
                                                              && cpuMap[id] == NodesOf(d.topology)[0]
        {
          cpuMap := cpuMap[d.deviceIds[k] := NodesOf(d.topology)[0]];
        }
      }
    }
    assert devices[..|devices|] == devices;
  }

  function Unlisted(cpus: set<string>, nodeID: int): int -> seq<(int, string)> {
    cpu => if FormatInt(cpu) in cpus then [] else [(nodeID, FormatInt(cpu))]
  }

  function ReservedOf(cpus: set<string>): TopologyNode -> seq<(int, string)> {
    (node: TopologyNode) => FlatMap(Unlisted(cpus, node.id), Processors(node))
  }

  /** NUMA node -> the processors of that node which no CPU device lists. */
  function ReservedCPUs(nodes: seq<TopologyNode>, cpus: set<string>): map<int, seq<string>> {
    GroupBy(FlatMap(ReservedOf(cpus), nodes))
  }

  function ListedCPUs(devices: seq<ContainerDevices>): set<string> {
    set id | id in FlatMap(CpuIDsOf, devices)
  }

  method MakeReservedCPUMap(nodes: seq<TopologyNode>, devices: seq<ContainerDevices>)
    returns (reserved: map<int, seq<string>>)
    requires CpuDevicesPlaced(devices)
    ensures reserved == ReservedCPUs(nodes, ListedCPUs(devices))
  {
    hide GroupBy, FlatMap;
    reserved := map[];
    var cpus := GetCPUs(devices);
    ghost var listed := ListedCPUs(devices);
    NothingYet<int, string>();
    FlatMapNone(ReservedOf(listed), [], nodes);
    for i := 0 to |nodes|
      invariant reserved == ReservedCPUs(nodes[..i], listed)
    {
      var node := nodes[i];
      ghost var before := FlatMap(ReservedOf(listed), nodes[..i]);
      ghost var keep := Unlisted(listed, node.id);
      FlatMapNone(Same, [], node.cores);
      FlatMapNone(keep, before, []);
      for j := 0 to |node.cores|
        invariant reserved == GroupBy(before + FlatMap(keep, FlatMap(Same, node.cores[..j])))
      {
        var core := node.cores[j];
        ghost var done := FlatMap(Same, node.cores[..j]);
        assert done + core[..0] == done;
        for k := 0 to |core|
          invariant reserved == GroupBy(before + FlatMap(keep, done + core[..k]))
        {
          var cpuID := FormatInt(core[k]);
          assert done + core[..k + 1] == done + core[..k] + [core[k]];
          assert cpuID in cpus <==> cpuID in listed;
          FlatMapSnoc(keep, done + core[..k], core[k]);
          if cpuID !in cpus {
            var cpuIDList := if node.id in reserved then reserved[node.id] else [];
            cpuIDList := cpuIDList + [cpuID];
            reserved := reserved[node.id := cpuIDList];
            GroupBySnoc(before + FlatMap(keep, done + core[..k]), node.id, cpuID);
            assert before + FlatMap(keep, done + core[..k + 1])
                == before + FlatMap(keep, done + core[..k]) + [(node.id, cpuID)];
          } else {
            assert FlatMap(keep, done + core[..k + 1]) == FlatMap(keep, done + core[..k]);
          }
        }
        assert core[..|core|] == core;
        FlatMapStep(Same, node.cores, j);
      }
      assert node.cores[..|node.cores|] == node.cores;
      FlatMapStep(ReservedOf(listed), nodes, i);
    }
    assert nodes[..|nodes|] == nodes;
  }
}
