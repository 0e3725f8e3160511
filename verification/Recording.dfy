/** What the inputs say, element by element: which node the indexes give a processor or a device ID, and how much of a
    resource they record at a node, in terms of positions in the input lists alone. */
module Recording {
  import opened Common
  import opened Accumulate
  import opened Decimal
  import opened PodResourcesApi
  import opened Indexes
  import opened IndexFacts
  import opened Aggregator
  import opened Accounting
  import opened BuiltFacts
  import opened Scanner
  import opened EndToEnd
  import opened Published
  import opened DeviceRows

  // ---- The last element with an answer ----

  function LastSome<T, V>(g: T -> Option<V>, s: seq<T>): Option<V> {
    if s == [] then None
    else if g(s[|s| - 1]).Some? then g(s[|s| - 1])
    else LastSome(g, s[..|s| - 1])
  }

  lemma {:induction false} LastSomeExactly<T, V>(g: T -> Option<V>, s: seq<T>, v: V)
    ensures LastSome(g, s) == Some(v)
       <==> exists i :: 0 <= i < |s| && g(s[i]) == Some(v) && forall j :: i < j < |s| ==> g(s[j]) == None
  {
    if s != [] {
      var front, last := s[..|s| - 1], s[|s| - 1];
      LastSomeExactly(g, front, v);
      if g(last) == None && LastSome(g, s) == Some(v) {
        var i :| 0 <= i < |front| && g(front[i]) == Some(v) && forall j :: i < j < |front| ==> g(front[j]) == None;
        assert g(s[i]) == Some(v) && forall j :: i < j < |s| ==> g(s[j]) == None;
      }
      if i :| 0 <= i < |s| && g(s[i]) == Some(v) && forall j :: i < j < |s| ==> g(s[j]) == None {
        if i < |front| {
          assert g(s[|front|]) == None;
          assert g(front[i]) == Some(v) && forall j :: i < j < |front| ==> g(front[j]) == None;
        }
      }
    }
  }

  /** Looking a key up in pairs joined from a list: the last element that has the key decides. */
  lemma {:induction false} LastOfJoined<T, K, V>(f: T -> seq<(K, V)>, g: T -> Option<V>, s: seq<T>, k: K)
    requires forall i :: 0 <= i < |s| ==> Get(LastWins(f(s[i])), k) == g(s[i])
    ensures Get(LastWins(FlatMap(f, s)), k) == LastSome(g, s)
  {
    if s != [] {
      var front, last := s[..|s| - 1], s[|s| - 1];
      LastOfJoined(f, g, front, k);
      LastWinsAppend(FlatMap(f, front), f(last), k);
    }
  }

  // ---- Processors ----

  function CoreSize(core: seq<int>): int {
    |core|
  }

  /** The processors of a node are those of its cores one after the other, none dropped and none repeated. */
  lemma {:induction false} ProcessorsExactly(cores: seq<seq<int>>, j: nat, k: nat)
    requires j < |cores| && k < |cores[j]|
    ensures |FlatMap(Same, cores)| == SumOver(CoreSize, cores)
    ensures
      var at := SumOver(CoreSize, cores[..j]) + k;
      0 <= at < |FlatMap(Same, cores)| && FlatMap(Same, cores)[at] == cores[j][k]
  {
    var front := cores[..|cores| - 1];
    JoinedSize(front);
    JoinedSize(cores[..j]);
    if j < |front| {
      assert front[..j] == cores[..j];
      ProcessorsExactly(front, j, k);
    } else {
      assert cores[..j] == front;
    }
  }

  lemma {:induction false} JoinedSize(cores: seq<seq<int>>)
    ensures |FlatMap(Same, cores)| == SumOver(CoreSize, cores)
  {
    if cores != [] {
      JoinedSize(cores[..|cores| - 1]);
    }
  }

  predicate HasProcessor(node: TopologyNode, p: int) {
    exists j, k :: 0 <= j < |node.cores| && 0 <= k < |node.cores[j]| && node.cores[j][k] == p
  }

  /** n is the ID of the last topology node that has the processor. */
  ghost predicate LastNodeWith(nodes: seq<TopologyNode>, p: int, n: int) {
    exists i :: 0 <= i < |nodes| && nodes[i].id == n && HasProcessor(nodes[i], p)
                && forall j :: i < j < |nodes| ==> !HasProcessor(nodes[j], p)
  }

  function NodeIfHas(p: int): TopologyNode -> Option<int> {
    (node: TopologyNode) => if HasProcessor(node, p) then Some(node.id) else None
  }

  lemma {:induction false} ProcessorListed(node: TopologyNode, p: int)
    ensures p in Processors(node) <==> HasProcessor(node, p)
  {
    FlatMapMember(Same, node.cores, p);
    if p in Processors(node) {
      var j :| 0 <= j < |node.cores| && p in Same(node.cores[j]);
      var k :| 0 <= k < |node.cores[j]| && node.cores[j][k] == p;
    }
    if HasProcessor(node, p) {
      var j, k :| 0 <= j < |node.cores| && 0 <= k < |node.cores[j]| && node.cores[j][k] == p;
      assert p in Same(node.cores[j]);
    }
  }

  lemma {:induction false} TagLookup(xs: seq<int>, id: int, p: int)
    ensures Get(LastWins(Tag(xs, id)), p) == if p in xs then Some(id) else None
  {
    hide LastWins;
    LastWinsMember(Tag(xs, id), p);
    if p in xs {
      var i :| 0 <= i < |xs| && xs[i] == p;
      assert Tag(xs, id)[i] == (p, id);
      LastWinsUnanimous(Tag(xs, id), p, id);
    }
  }

  /** The processor map gives the last node of the topology that has the processor, repeats or not. */
  lemma {:induction false} CoreToNodeExactly(nodes: seq<TopologyNode>, p: int, n: int)
    ensures Get(CoreToNode(nodes), p) == Some(n) <==> LastNodeWith(nodes, p, n)
  {
    hide LastWins, FlatMap, HasProcessor;
    forall i | 0 <= i < |nodes|
      ensures Get(LastWins(ProcPairsOf(nodes[i])), p) == NodeIfHas(p)(nodes[i])
    {
      ProcessorListed(nodes[i], p);
      TagLookup(Processors(nodes[i]), nodes[i].id, p);
    }
    LastOfJoined(ProcPairsOf, NodeIfHas(p), nodes, p);
    LastSomeExactly(NodeIfHas(p), nodes, n);
  }

  // ---- Devices ----

  /** The device lists the ID under this resource name and names some node. */
  predicate Places(d: ContainerDevices, name: string, id: string) {
    d.resourceName == name && id in d.deviceIds && d.topology.Some? && d.topology.value != []
  }

  /** n is the last node of the last device that places the ID. */
  ghost predicate LastPlacedAt(devs: seq<ContainerDevices>, name: string, id: string, n: int) {
    exists i :: 0 <= i < |devs| && Places(devs[i], name, id) && devs[i].topology.value[|devs[i].topology.value| - 1] == n
                && forall j :: i < j < |devs| ==> !Places(devs[j], name, id)
  }

  function PlaceOf(name: string, id: string): ContainerDevices -> Option<int> {
    (d: ContainerDevices) => if Places(d, name, id) then Some(d.topology.value[|d.topology.value| - 1]) else None
  }

  function NodeIf(listed: bool): int -> Option<int> {
    n => if listed then Some(n) else None
  }

  lemma {:induction false} AtNodeLookup(d: ContainerDevices, node: int, name: string, id: string)
    ensures Get(LastWins(Spread(d)(node)), (name, id)) == if d.resourceName == name && id in d.deviceIds then Some(node) else None
  {
    hide LastWins;
    var pairs := AtNode(d.resourceName, d.deviceIds, node);
    LastWinsMember(pairs, (name, id));
    if d.resourceName == name && id in d.deviceIds {
      var k :| 0 <= k < |d.deviceIds| && d.deviceIds[k] == id;
      assert pairs[k] == ((name, id), node);
      LastWinsUnanimous(pairs, (name, id), node);
    }
  }

  lemma {:induction false} DeviceLookup(d: ContainerDevices, name: string, id: string)
    ensures Get(LastWins(DevicePairsOf(d)), (name, id)) == PlaceOf(name, id)(d)
  {
    hide LastWins, FlatMap;
    var listed := d.resourceName == name && id in d.deviceIds;
    var nodes := match d.topology case Some(ns) => ns case None => [];
    forall i | 0 <= i < |nodes|
      ensures Get(LastWins(Spread(d)(nodes[i])), (name, id)) == NodeIf(listed)(nodes[i])
    {
      AtNodeLookup(d, nodes[i], name, id);
    }
    LastOfJoined(Spread(d), NodeIf(listed), nodes, (name, id));
    if !listed {
      NeverSome(nodes);
    }
  }

  lemma {:induction false} NeverSome(nodes: seq<int>)
    ensures LastSome(NodeIf(false), nodes) == None
  {
    if nodes != [] {
      NeverSome(nodes[..|nodes| - 1]);
    }
  }

  /** The device index gives the last node of the last device that lists the ID with a node. */
  lemma {:induction false} DevicePlaceExactly(devs: seq<ContainerDevices>, name: string, id: string, n: int)
    ensures Get(LastWins(DevicePairs(devs)), (name, id)) == Some(n) <==> LastPlacedAt(devs, name, id, n)
  {
    hide LastWins, FlatMap, DevicePairsOf, Places;
    forall i | 0 <= i < |devs|
      ensures Get(LastWins(DevicePairsOf(devs[i])), (name, id)) == PlaceOf(name, id)(devs[i])
    {
      DeviceLookup(devs[i], name, id);
    }
    LastOfJoined(DevicePairsOf, PlaceOf(name, id), devs, (name, id));
    LastSomeExactly(PlaceOf(name, id), devs, n);
  }

  /** The ID is the text of an allocatable CPU that the topology has at node n. */
  ghost predicate CpuPlacedAt(nodes: seq<TopologyNode>, cpuIds: seq<int>, id: string, n: int) {
    exists i :: 0 <= i < |cpuIds| && FormatInt(cpuIds[i]) == id && LastNodeWith(nodes, cpuIds[i], n)
  }

  lemma {:induction false} CpuPlaceExactly(nodes: seq<TopologyNode>, cpuIds: seq<int>, id: string, n: int)
    ensures id in PlacedAt(nodes, cpuIds, n) <==> CpuPlacedAt(nodes, cpuIds, id, n)
  {
    hide PlacedAt, CoreToNode, FormatInt, LastNodeWith;
    GroupMember(nodes, cpuIds, n, id);
    forall i | 0 <= i < |cpuIds|
      ensures Get(CoreToNode(nodes), cpuIds[i]) == Some(n) <==> LastNodeWith(nodes, cpuIds[i], n)
    {
      CoreToNodeExactly(nodes, cpuIds[i], n);
    }
  }

  /** Where the inputs place a held ID, element by element. */
  lemma {:induction false} LocatedExactly(nodes: seq<TopologyNode>, resp: AllocatableResources, name: string, id: string, n: int)
    ensures LocatedAt(nodes, resp, (name, id), n)
       <==> if name == "cpu" && exists k :: CpuPlacedAt(nodes, resp.cpuIds, id, k) then CpuPlacedAt(nodes, resp.cpuIds, id, n)
            else LastPlacedAt(resp.devices, name, id, n)
  {
    hide PlacedAt, LastWins, LastPlacedAt, CpuPlacedAt;
    forall k
      ensures id in PlacedAt(nodes, resp.cpuIds, k) <==> CpuPlacedAt(nodes, resp.cpuIds, id, k)
    {
      CpuPlaceExactly(nodes, resp.cpuIds, id, k);
    }
    DevicePlaceExactly(resp.devices, name, id, n);
  }

  // ---- Amounts ----

  /** How often a topology names node n. */
  function TimesNamed(topology: Option<seq<int>>, n: int): nat {
    match topology
    case Some(ns) => multiset(ns)[n]
    case None => 0
  }

  /** What a device adds at node n: its number of IDs, each time it names the node. */
  function DeviceAmount(n: int, r: string): ContainerDevices -> int {
    (d: ContainerDevices) => if d.resourceName == r then |d.deviceIds| * TimesNamed(d.topology, n) else 0
  }

  /** What a block adds at node n: its size, each time it names the node. */
  function BlockAmount(n: int, r: string): ContainerMemory -> int {
    (b: ContainerMemory) => if b.memoryType == r then b.size * TimesNamed(b.topology, n) else 0
  }

  ghost function CpuAmount(nodes: seq<TopologyNode>, n: int): int -> int {
    c => if LastNodeWith(nodes, c, n) then 1 else 0
  }

  lemma {:induction false} TotalOfJoined<T, K>(f: T -> seq<(K, int)>, g: T -> int, s: seq<T>, k: K)
    requires forall i :: 0 <= i < |s| ==> Total(f(s[i]), k) == g(s[i])
    ensures Total(FlatMap(f, s), k) == SumOver(g, s)
  {
    if s != [] {
      TotalOfJoined(f, g, s[..|s| - 1], k);
      TotalAppend(FlatMap(f, s[..|s| - 1]), f(s[|s| - 1]), k);
    }
  }

  lemma {:induction false} CountAtExactly(name: string, amount: int, ns: seq<int>, n: int, r: string)
    ensures Total(FlatMap(CountAt(name, amount), ns), (n, r)) == if name == r then amount * multiset(ns)[n] else 0
  {
    if ns != [] {
      var front, last := ns[..|ns| - 1], ns[|ns| - 1];
      CountAtExactly(name, amount, front, n, r);
      assert ns == front + [last];
      TotalAppend(FlatMap(CountAt(name, amount), front), CountAt(name, amount)(last), (n, r));
      TotalOfOne((last, name), amount, (n, r));
      Distribute(amount, multiset(front)[n]);
    }
  }

  lemma {:induction false} Distribute(a: int, b: int)
    ensures a * (b + 1) == a * b + a
  {
  }

  lemma {:induction false} NoTimes(a: int)
    ensures a * 0 == 0
  {
  }

  lemma {:induction false} DevicesTotal(devs: seq<ContainerDevices>, n: int, r: string)
    ensures Total(CountPairs(devs), (n, r)) == SumOver(DeviceAmount(n, r), devs)
  {
    hide FlatMap, Total;
    forall i | 0 <= i < |devs|
      ensures Total(CountPairsOf(devs[i]), (n, r)) == DeviceAmount(n, r)(devs[i])
    {
      CountAtExactly(devs[i].resourceName, |devs[i].deviceIds|, NodesOf(devs[i].topology), n, r);
      NoTimes(|devs[i].deviceIds|);
    }
    TotalOfJoined(CountPairsOf, DeviceAmount(n, r), devs, (n, r));
  }

  lemma {:induction false} BlocksTotal(blocks: seq<ContainerMemory>, n: int, r: string)
    ensures Total(BlockPairs(blocks), (n, r)) == SumOver(BlockAmount(n, r), blocks)
  {
    hide FlatMap, Total;
    forall i | 0 <= i < |blocks|
      ensures Total(BlockPairsOf(blocks[i]), (n, r)) == BlockAmount(n, r)(blocks[i])
    {
      CountAtExactly(blocks[i].memoryType, blocks[i].size, NodesOf(blocks[i].topology), n, r);
      NoTimes(blocks[i].size);
    }
    TotalOfJoined(BlockPairsOf, BlockAmount(n, r), blocks, (n, r));
  }

  lemma {:induction false} PlacedTotal(nodes: seq<TopologyNode>, cpuIds: seq<int>, n: int)
    ensures |PlacedAt(nodes, cpuIds, n)| == SumOver(CpuAmount(nodes, n), cpuIds)
  {
    hide CoreToNode, LastNodeWith, FormatInt;
    if cpuIds != [] {
      var front, last := cpuIds[..|cpuIds| - 1], cpuIds[|cpuIds| - 1];
      PlacedTotal(nodes, front, n);
      CoreToNodeExactly(nodes, last, n);
      var f := Placed(CoreToNode(nodes));
      ValuesForAppend(FlatMap(f, front), f(last), n);
      OnePlaced(f(last), n);
    }
  }

  lemma {:induction false} OnePlaced(pairs: seq<(int, string)>, n: int)
    requires |pairs| <= 1
    ensures |ValuesFor(pairs, n)| == if pairs != [] && pairs[0].0 == n then 1 else 0
  {
  }

  /** The recorded amount of a resource at a node: the IDs of its devices and the sizes of its blocks, each as often as
      they name the node, and for CPUs the allocatable CPUs that the topology has there. */
  lemma {:induction false} RecordedExactly(nodes: seq<TopologyNode>, resp: AllocatableResources, n: int, r: string)
    ensures Recorded(nodes, resp, n, r)
         == SumOver(DeviceAmount(n, r), resp.devices) + SumOver(BlockAmount(n, r), resp.memory)
            + if r == "cpu" then SumOver(CpuAmount(nodes, n), resp.cpuIds) else 0
  {
    hide FlatMap, Total, SumOver, PlacedAt, LastNodeWith;
    TotalAppend(CountPairs(resp.devices), BlockPairs(resp.memory), (n, r));
    DevicesTotal(resp.devices, n, r);
    BlocksTotal(resp.memory, n, r);
    PlacedTotal(nodes, resp.cpuIds, n);
  }

  predicate Names(topology: Option<seq<int>>, n: int) {
    topology.Some? && n in topology.value
  }

  lemma {:induction false} DevicesMention(devs: seq<ContainerDevices>, n: int, r: string)
    ensures Mentions(CountPairs(devs), (n, r))
       <==> exists i :: 0 <= i < |devs| && devs[i].resourceName == r && Names(devs[i].topology, n)
  {
    hide FlatMap, Mentions;
    if devs == [] {
      FlatMapNone(CountPairsOf, [], devs);
      TotalOfNone((n, r));
      assert devs[..0] == devs;
    } else {
      var front, last := devs[..|devs| - 1], devs[|devs| - 1];
      DevicesMention(front, n, r);
      CountPairsLast(devs, n, r);
      CountAtMentions(last.resourceName, |last.deviceIds|, NodesOf(last.topology), n, r);
    }
  }

  lemma {:induction false} CountAtMentions(name: string, amount: nat, ns: seq<int>, n: int, r: string)
    ensures Mentions(FlatMap(CountAt(name, amount), ns), (n, r)) <==> name == r && n in ns
  {
    CountAtTotal(name, amount, ns, n, r);
  }

  lemma {:induction false} BlocksMention(blocks: seq<ContainerMemory>, n: int, r: string)
    ensures Mentions(BlockPairs(blocks), (n, r))
       <==> exists i :: 0 <= i < |blocks| && blocks[i].memoryType == r && Names(blocks[i].topology, n)
  {
    hide FlatMap, Mentions;
    if blocks == [] {
      FlatMapNone(BlockPairsOf, [], blocks);
      TotalOfNone((n, r));
      assert blocks[..0] == blocks;
    } else {
      var front, last := blocks[..|blocks| - 1], blocks[|blocks| - 1];
      BlocksMention(front, n, r);
      assert blocks == front + [last];
      FlatMapSnoc(BlockPairsOf, front, last);
      MentionsAppend(BlockPairs(front), BlockPairsOf(last), (n, r));
      CountAtMentions(last.memoryType, last.size, NodesOf(last.topology), n, r);
    }
  }

  /** A resource is recorded at a node exactly when a device or a block of that name names the node, with or without
      an amount, or an allocatable CPU is there. */
  lemma {:induction false} IsRecordedExactly(nodes: seq<TopologyNode>, resp: AllocatableResources, n: int, r: string)
    ensures IsRecorded(nodes, resp, n, r)
       <==> || (exists i :: 0 <= i < |resp.devices| && resp.devices[i].resourceName == r && Names(resp.devices[i].topology, n))
            || (exists i :: 0 <= i < |resp.memory| && resp.memory[i].memoryType == r && Names(resp.memory[i].topology, n))
            || (r == "cpu" && exists i :: 0 <= i < |resp.cpuIds| && LastNodeWith(nodes, resp.cpuIds[i], n))
  {
    hide FlatMap, Mentions, PlacedAt, LastNodeWith;
    MentionsAppend(CountPairs(resp.devices), BlockPairs(resp.memory), (n, r));
    DevicesMention(resp.devices, n, r);
    BlocksMention(resp.memory, n, r);
    if PlacedAt(nodes, resp.cpuIds, n) != [] {
      var id := PlacedAt(nodes, resp.cpuIds, n)[0];
      CpuPlaceExactly(nodes, resp.cpuIds, id, n);
    }
    if i :| 0 <= i < |resp.cpuIds| && LastNodeWith(nodes, resp.cpuIds[i], n) {
      CpuPlaceExactly(nodes, resp.cpuIds, FormatInt(resp.cpuIds[i]), n);
    }
  }

  // ---- Reserved CPUs and the CPU row of any machine ----

  /** Some raw device called "cpu" lists the processor, or it is an allocatable CPU that the topology has. */
  ghost predicate ListedCpu(nodes: seq<TopologyNode>, resp: AllocatableResources, id: string) {
    || (exists i :: 0 <= i < |resp.devices| && resp.devices[i].resourceName == "cpu" && id in resp.devices[i].deviceIds)
    || (exists n :: CpuPlacedAt(nodes, resp.cpuIds, id, n))
  }

  ghost function OneIfReserved(nodes: seq<TopologyNode>, resp: AllocatableResources): int -> int {
    p => if ListedCpu(nodes, resp, FormatInt(p)) then 0 else 1
  }

  ghost function ReservedInCore(nodes: seq<TopologyNode>, resp: AllocatableResources): seq<int> -> int {
    (core: seq<int>) => SumOver(OneIfReserved(nodes, resp), core)
  }

  /** The processors of a node with this ID that nothing lists. */
  ghost function ReservedInNode(nodes: seq<TopologyNode>, resp: AllocatableResources, n: int): TopologyNode -> int {
    (node: TopologyNode) => if node.id == n then SumOver(ReservedInCore(nodes, resp), node.cores) else 0
  }

  lemma {:induction false} ListedExactly(nodes: seq<TopologyNode>, resp: AllocatableResources, devs: seq<ContainerDevices>, id: string)
    requires WithGroups(resp.devices, CpuGroups(nodes, resp.cpuIds), devs)
    ensures id in ListedCPUs(devs) <==> ListedCpu(nodes, resp, id)
  {
    hide FlatMap, GroupBy, PlacedAt, CpuGroups, CpuPlacedAt;
    var groups := CpuGroups(nodes, resp.cpuIds);
    var order :| Visits(order, groups.Keys) && devs == resp.devices + GroupDevices(groups, order);
    FlatMapAppend(CpuIDsOf, resp.devices, GroupDevices(groups, order));
    FlatMapMember(CpuIDsOf, resp.devices, id);
    forall n
      ensures (n in groups && id in groups[n]) <==> CpuPlacedAt(nodes, resp.cpuIds, id, n)
    {
      GroupHas(nodes, resp.cpuIds, n);
      CpuPlaceExactly(nodes, resp.cpuIds, id, n);
    }
    GroupsList(groups, order, id);
  }

  ghost predicate InSomeGroup(groups: map<int, seq<string>>, id: string) {
    exists n :: n in groups && id in groups[n]
  }

  lemma {:induction false} GroupsList(groups: map<int, seq<string>>, order: seq<int>, id: string)
    requires Visits(order, groups.Keys)
    ensures id in FlatMap(CpuIDsOf, GroupDevices(groups, order)) <==> InSomeGroup(groups, id)
  {
    hide FlatMap, Lists;
    var devs := GroupDevices(groups, order);
    FlatMapMember(CpuIDsOf, devs, id);
    if id in FlatMap(CpuIDsOf, devs) {
      var i :| 0 <= i < |devs| && id in CpuIDsOf(devs[i]);
      FlatMapMember(GroupDevice(groups), order, devs[i]);
      var j :| 0 <= j < |order| && devs[i] in GroupDevice(groups)(order[j]);
      var n := order[j];
      assert n in groups && id in groups[n];
    }
    if InSomeGroup(groups, id) {
      var n :| n in groups && id in groups[n];
      GroupDeviceLists(groups, order, CPU, id, n);
      var i :| 0 <= i < |devs| && Lists(devs[i], CPU, id, n);
      assert id in CpuIDsOf(devs[i]) by { ListsId(devs[i], id, n); }
    }
  }

  lemma {:induction false} ListsId(d: ContainerDevices, id: string, n: int)
    requires Lists(d, CPU, id, n)
    ensures id in CpuIDsOf(d)
  {
  }

  lemma {:induction false} SumOverJoined<T, U>(f: T -> seq<U>, k: U -> int, g: T -> int, s: seq<T>)
    requires forall i :: 0 <= i < |s| ==> SumOver(k, f(s[i])) == g(s[i])
    ensures SumOver(k, FlatMap(f, s)) == SumOver(g, s)
  {
    if s != [] {
      SumOverJoined(f, k, g, s[..|s| - 1]);
      SumOverAppend(k, FlatMap(f, s[..|s| - 1]), f(s[|s| - 1]));
    }
  }

  lemma {:induction false} SumOverAppend<T>(k: T -> int, a: seq<T>, b: seq<T>)
    ensures SumOver(k, a + b) == SumOver(k, a) + SumOver(k, b)
  {
    if b == [] {
      assert a + b == a;
    } else {
      assert (a + b)[..|a + b| - 1] == a + b[..|b| - 1];
      SumOverAppend(k, a, b[..|b| - 1]);
    }
  }

  lemma {:induction false} ValuesJoined<T>(f: T -> seq<(int, string)>, g: T -> int, s: seq<T>, n: int)
    requires forall i :: 0 <= i < |s| ==> |ValuesFor(f(s[i]), n)| == g(s[i])
    ensures |ValuesFor(FlatMap(f, s), n)| == SumOver(g, s)
  {
    if s != [] {
      ValuesJoined(f, g, s[..|s| - 1], n);
      ValuesForAppend(FlatMap(f, s[..|s| - 1]), f(s[|s| - 1]), n);
    }
  }

  ghost function ZeroUnless(same: bool, k: int -> int): int -> int {
    p => if same then k(p) else 0
  }

  lemma {:induction false} SumOverNothing(k: int -> int, ps: seq<int>, same: bool)
    ensures SumOver(ZeroUnless(same, k), ps) == if same then SumOver(k, ps) else 0
  {
    if ps != [] {
      SumOverNothing(k, ps[..|ps| - 1], same);
    }
  }

  lemma {:induction false} NodeReserved(nodes: seq<TopologyNode>, resp: AllocatableResources, listed: set<string>, node: TopologyNode, n: int)
    requires forall id :: id in listed <==> ListedCpu(nodes, resp, id)
    ensures |ValuesFor(ReservedOf(listed)(node), n)| == ReservedInNode(nodes, resp, n)(node)
  {
    hide FlatMap, ValuesFor, SumOver, ListedCpu, FormatInt;
    var one := OneIfReserved(nodes, resp);
    var ps := Processors(node);
    forall i | 0 <= i < |ps|
      ensures |ValuesFor(Unlisted(listed, node.id)(ps[i]), n)| == ZeroUnless(node.id == n, one)(ps[i])
    {
      OnePlaced(Unlisted(listed, node.id)(ps[i]), n);
    }
    ValuesJoined(Unlisted(listed, node.id), ZeroUnless(node.id == n, one), ps, n);
    SumOverNothing(one, ps, node.id == n);
    SumOverJoined(Same, one, ReservedInCore(nodes, resp), node.cores);
  }

  /** The reserved CPUs of a node, on any machine: the processors of the topology nodes with its ID that nothing lists. */
  lemma {:induction false} ReservedExactly(d: NodeData, nodes: seq<TopologyNode>, resp: AllocatableResources,
                                           cap: map<int, map<string, int>>, exclude: set<string>, n: int)
    requires Built(d, nodes, resp, cap, exclude)
    ensures d.ReservedCount(n) == SumOver(ReservedInNode(nodes, resp, n), nodes)
  {
    hide FlatMap, LastWins, Tally, GroupBy, CpuGroups, WithGroups, ListedCPUs, ValuesFor, SumOver, ListedCpu, ReservedOf;
    var devs :| WithGroups(resp.devices, CpuGroups(nodes, resp.cpuIds), devs) && BuiltFrom(d, nodes, devs, resp.memory, cap, exclude);
    var listed := ListedCPUs(devs);
    forall id
      ensures id in listed <==> ListedCpu(nodes, resp, id)
    {
      ListedExactly(nodes, resp, devs, id);
    }
    forall i | 0 <= i < |nodes|
      ensures |ValuesFor(ReservedOf(listed)(nodes[i]), n)| == ReservedInNode(nodes, resp, n)(nodes[i])
    {
      NodeReserved(nodes, resp, listed, nodes[i], n);
    }
    ValuesJoined(ReservedOf(listed), ReservedInNode(nodes, resp, n), nodes, n);
    GroupByValues(FlatMap(ReservedOf(listed), nodes), n);
  }

  /** End to end for the CPU row of any machine and any pods: Allocatable is the recorded amount, Capacity adds the
      reserved CPUs, and Available is short by the watched holdings placed at the node. */
  lemma {:induction false} AnyCpuRowPublished(zones: seq<Zone>, d: NodeData, nodes: seq<TopologyNode>, resp: AllocatableResources,
                                              cap: map<int, map<string, int>>, exclude: set<string>,
                                              watch: string, api: ApiAnswers, raws: seq<RawPod>, n: int)
    requires Built(d, nodes, resp, cap, exclude) && Renders(zones, d, d.Final(Scanned(watch, api, raws)))
    requires 0 <= n < |nodes| && "cpu" in d.ListedNames(n)
    ensures
      var allocatable := Wrap64(Recorded(nodes, resp, n, "cpu"));
      PublishedRow(zones, n, "cpu")
        == Some(ResourceRow("cpu", allocatable - HoldingsAt(nodes, resp, RawHeld(watch, api, raws), n, "cpu"), allocatable,
                            allocatable + SumOver(ReservedInNode(nodes, resp, n), nodes)))
  {
    hide Built, Renders, PublishedRow, RawHeld, Scanned, Recorded, IsRecorded, Wrap64, HeldAt, HoldingsAt, SumOver,
         NodeData.ListedNames, NodeData.ReservedCount;
    BuiltInputs(d, nodes, resp, cap, exclude);
    AllocatableIsRecorded(d, nodes, resp, cap, exclude, n, "cpu");
    ReservedExactly(d, nodes, resp, cap, exclude, n);
    DeviceRowPublished(zones, d, watch, api, raws, n, "cpu");
    HeldIsHoldings(d, nodes, resp, cap, exclude, RawHeld(watch, api, raws), n, "cpu");
  }
}
