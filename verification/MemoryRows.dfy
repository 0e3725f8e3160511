/** The published memory rows in terms of the inputs alone: the requests of watched pods, replayed in order on the
    recorded amounts, and their closed form on a list of nodes that no other request names. */
module MemoryRows {
  import opened Common
  import opened Decimal
  import opened PodResourcesApi
  import opened Ledger
  import opened Aggregator
  import opened Accounting
  import opened BuiltFacts
  import opened Scanner
  import opened EndToEnd
  import opened Published

  // ---- Charges straight from raw pods ----

  function RawContainerCharges(index: map<string, map<string, int>>, guaranteed: bool): RawContainer -> seq<Charge> {
    (c: RawContainer) => FlatMap(ChargesOf(index), EntriesOf(guaranteed, c))
  }

  function RawPodCharges(index: map<string, map<string, int>>, watch: string, api: ApiAnswers): RawPod -> seq<Charge> {
    (pod: RawPod) =>
      if WatchedPod(watch, api, pod) then FlatMap(RawContainerCharges(index, GuaranteedBy(api, pod)), pod.containers) else []
  }

  lemma {:induction false} KeptContainerCharges(index: map<string, map<string, int>>, guaranteed: bool, c: RawContainer)
    ensures FlatMap(ChargesOfContainer(index), KeptContainer(guaranteed)(c)) == RawContainerCharges(index, guaranteed)(c)
  {
  }

  lemma {:induction false} KeptPodCharges(index: map<string, map<string, int>>, watch: string, api: ApiAnswers, pod: RawPod)
    ensures FlatMap(ChargesOfPod(index), KeptPod(watch, api)(pod)) == RawPodCharges(index, watch, api)(pod)
  {
    hide FlatMap, EntriesOf, ChargesOfContainer, RawContainerCharges, WatchedPod, GuaranteedBy;
    var g := GuaranteedBy(api, pod);
    var containers := FlatMap(KeptContainer(g), pod.containers);
    forall i | 0 <= i < |pod.containers|
      ensures FlatMap(ChargesOfContainer(index), KeptContainer(g)(pod.containers[i])) == RawContainerCharges(index, g)(pod.containers[i])
    {
      KeptContainerCharges(index, g, pod.containers[i]);
    }
    Fuse(KeptContainer(g), ChargesOfContainer(index), RawContainerCharges(index, g), pod.containers);
    FlatMapOne(ChargesOfPod(index), PodResources(pod.name, pod.namespace, containers));
    FlatMapOne(ChargesOfContainer(index), ContainerResources("", []));
  }

  /** The scanner's filtering does not show in the charges. */
  lemma {:induction false} ScannedCharges(index: map<string, map<string, int>>, watch: string, api: ApiAnswers, raws: seq<RawPod>)
    ensures ChargesOfPods(index, Scanned(watch, api, raws)) == FlatMap(RawPodCharges(index, watch, api), raws)
  {
    hide FlatMap, ChargesOfPod, KeptPod, RawPodCharges;
    forall i | 0 <= i < |raws|
      ensures FlatMap(ChargesOfPod(index), KeptPod(watch, api)(raws[i])) == RawPodCharges(index, watch, api)(raws[i])
    {
      KeptPodCharges(index, watch, api, raws[i]);
    }
    Fuse(KeptPod(watch, api), ChargesOfPod(index), RawPodCharges(index, watch, api), raws);
  }

  // ---- The memory requests of raw pods ----

  /** A device called like the memory type is replayed as a request, its one ID read as a size. */
  function DeviceRequest(r: string): ContainerDevices -> seq<Charge> {
    (d: ContainerDevices) =>
      if d.resourceName == r then MemoryCharges(ResourceInfo(r, d.deviceIds, NodesOf(d.topology))) else []
  }

  /** A block with nodes asks for its size; sizes of 2^63 and more cannot be read back. */
  function BlockRequest(r: string): ContainerMemory -> seq<Charge> {
    (b: ContainerMemory) =>
      if b.memoryType == r && NodesOf(b.topology) != [] && 0 < b.size < TWO_TO_63
      then [Memory(r, NodesOf(b.topology), b.size)] else []
  }

  function ContainerRequests(r: string): RawContainer -> seq<Charge> {
    (c: RawContainer) => FlatMap(DeviceRequest(r), c.devices) + FlatMap(BlockRequest(r), c.memory)
  }

  function PodRequests(watch: string, api: ApiAnswers, r: string): RawPod -> seq<Charge> {
    (pod: RawPod) => if WatchedPod(watch, api, pod) then FlatMap(ContainerRequests(r), pod.containers) else []
  }

  /** What watched pods ask of a memory type, in the order of the listing. */
  function MemoryRequests(watch: string, api: ApiAnswers, raws: seq<RawPod>, r: string): seq<Charge> {
    FlatMap(PodRequests(watch, api, r), raws)
  }

  lemma {:induction false} UnitsAreOther(qs: seq<Charge>, r: string)
    requires forall i :: 0 <= i < |qs| ==> qs[i].Unit?
    ensures FlatMap(OfType(r), qs) == []
  {
    if qs != [] {
      UnitsAreOther(qs[..|qs| - 1], r);
    }
  }

  /** The requests of one type among the charges of one entry. */
  lemma {:induction false} EntryOfType(index: map<string, map<string, int>>, ri: ResourceInfo, r: string)
    requires IsMemoryLike(r)
    ensures FlatMap(OfType(r), ChargesOf(index)(ri)) == if ri.name == r then MemoryCharges(ri) else []
  {
    if IsMemoryLike(ri.name) {
      assert |MemoryCharges(ri)| <= 1;
      FlatMapOne(OfType(r), if MemoryCharges(ri) == [] then Unit(0, r) else MemoryCharges(ri)[0]);
    } else {
      var qs := UnitCharges(index, ri);
      forall i | 0 <= i < |qs|
        ensures qs[i].Unit?
      {
        FlatMapMember(UnitFor(index, ri.name), ri.data, qs[i]);
      }
      UnitsAreOther(qs, r);
    }
  }

  function EntryRequest(r: string): ResourceInfo -> seq<Charge> {
    (ri: ResourceInfo) => if ri.name == r then MemoryCharges(ri) else []
  }

  lemma {:induction false} BlockEntryRequest(b: ContainerMemory, r: string)
    requires IsMemoryLike(r)
    ensures FlatMap(EntryRequest(r), MemoryEntry(b)) == BlockRequest(r)(b)
  {
    hide FormatInt, ParseInt;
    ParseFormat(b.size);
    FlatMapOne(EntryRequest(r), ResourceInfo(b.memoryType, [FormatInt(b.size)], NodesOf(b.topology)));
  }

  /** The requests of one type among the charges of a container are those of its raw devices and blocks. */
  lemma {:induction false} ContainerOfType(index: map<string, map<string, int>>, guaranteed: bool, c: RawContainer, r: string)
    requires IsMemoryLike(r)
    ensures FlatMap(OfType(r), RawContainerCharges(index, guaranteed)(c)) == ContainerRequests(r)(c)
  {
    hide FlatMap, OfType, ChargesOf, MemoryCharges, MemoryEntry, IsMemoryLike;
    var entries := EntriesOf(guaranteed, c);
    var cpus, devices, blocks := CpuEntry(guaranteed, c), FlatMap(DeviceEntry, c.devices), FlatMap(MemoryEntry, c.memory);
    forall i | 0 <= i < |entries|
      ensures FlatMap(OfType(r), ChargesOf(index)(entries[i])) == EntryRequest(r)(entries[i])
    {
      EntryOfType(index, entries[i], r);
    }
    Fuse(ChargesOf(index), OfType(r), EntryRequest(r), entries);
    FlatMapAppend(EntryRequest(r), cpus + devices, blocks);
    FlatMapAppend(EntryRequest(r), cpus, devices);
    CpuRequestsNone(guaranteed, c, r);
    forall i | 0 <= i < |c.devices|
      ensures FlatMap(EntryRequest(r), DeviceEntry(c.devices[i])) == DeviceRequest(r)(c.devices[i])
    {
      FlatMapOne(EntryRequest(r), DeviceEntry(c.devices[i])[0]);
    }
    Fuse(DeviceEntry, EntryRequest(r), DeviceRequest(r), c.devices);
    forall i | 0 <= i < |c.memory|
      ensures FlatMap(EntryRequest(r), MemoryEntry(c.memory[i])) == BlockRequest(r)(c.memory[i])
    {
      BlockEntryRequest(c.memory[i], r);
    }
    Fuse(MemoryEntry, EntryRequest(r), BlockRequest(r), c.memory);
  }

  lemma {:induction false} CpuRequestsNone(guaranteed: bool, c: RawContainer, r: string)
    requires IsMemoryLike(r)
    ensures FlatMap(EntryRequest(r), CpuEntry(guaranteed, c)) == []
  {
    FlatMapOne(EntryRequest(r), ResourceInfo(CPU, Formatted(c.cpuIds), []));
  }

  lemma {:induction false} PodOfType(index: map<string, map<string, int>>, watch: string, api: ApiAnswers, pod: RawPod, r: string)
    requires IsMemoryLike(r)
    ensures FlatMap(OfType(r), RawPodCharges(index, watch, api)(pod)) == PodRequests(watch, api, r)(pod)
  {
    hide FlatMap, RawContainerCharges, ContainerRequests, WatchedPod, GuaranteedBy, OfType, IsMemoryLike;
    var g := GuaranteedBy(api, pod);
    forall i | 0 <= i < |pod.containers|
      ensures FlatMap(OfType(r), RawContainerCharges(index, g)(pod.containers[i])) == ContainerRequests(r)(pod.containers[i])
    {
      ContainerOfType(index, g, pod.containers[i], r);
    }
    Fuse(RawContainerCharges(index, g), OfType(r), ContainerRequests(r), pod.containers);
    FlatMapOne(OfType(r), Unit(0, r));
  }

  /** The requests of one type that the replay meets are those of the watched raw pods, in order. */
  lemma {:induction false} RawRequests(index: map<string, map<string, int>>, watch: string, api: ApiAnswers,
                                       raws: seq<RawPod>, r: string)
    requires IsMemoryLike(r)
    ensures FlatMap(OfType(r), ChargesOfPods(index, Scanned(watch, api, raws))) == MemoryRequests(watch, api, raws, r)
  {
    hide FlatMap, RawPodCharges, PodRequests, ChargesOfPods, Scanned, OfType, IsMemoryLike;
    ScannedCharges(index, watch, api, raws);
    forall i | 0 <= i < |raws|
      ensures FlatMap(OfType(r), RawPodCharges(index, watch, api)(raws[i])) == PodRequests(watch, api, r)(raws[i])
    {
      PodOfType(index, watch, api, raws[i], r);
    }
    Fuse(RawPodCharges(index, watch, api), OfType(r), PodRequests(watch, api, r), raws);
  }

  // ---- Published memory rows ----

  /** What every node of the topology records of a memory type, as an int64. */
  ghost function InputCounters(nodes: seq<TopologyNode>, resp: AllocatableResources, r: string): Counters {
    map n: int | 0 <= n < |nodes| && IsRecorded(nodes, resp, n, r) :: (n, r) := Wrap64(Recorded(nodes, resp, n, r))
  }

  lemma {:induction false} InputCountersHas(nodes: seq<TopologyNode>, resp: AllocatableResources, r: string, k: Cell)
    ensures k in InputCounters(nodes, resp, r) <==> 0 <= k.0 < |nodes| && k.1 == r && IsRecorded(nodes, resp, k.0, r)
    ensures k in InputCounters(nodes, resp, r) ==> InputCounters(nodes, resp, r)[k] == Wrap64(Recorded(nodes, resp, k.0, r))
  {
  }

  /** A memory row in terms of the inputs alone: Allocatable is the recorded amount, Available what the requests leave
      of it when they are served in order, and Capacity what the machine reports, if it does. */
  ghost function MemoryRow(nodes: seq<TopologyNode>, resp: AllocatableResources, cap: map<int, map<string, int>>,
                           watch: string, api: ApiAnswers, raws: seq<RawPod>, n: int, r: string): ResourceRow
    requires 0 <= n < |nodes| && IsRecorded(nodes, resp, n, r)
  {
    var allocatable := Wrap64(Recorded(nodes, resp, n, r));
    ResourceRow(r, MemoryLeft(nodes, resp, watch, api, raws, n, r), allocatable,
                if n in cap && r in cap[n] then cap[n][r] else allocatable)
  }

  /** What the requests leave of a memory type at a node. */
  ghost function MemoryLeft(nodes: seq<TopologyNode>, resp: AllocatableResources, watch: string, api: ApiAnswers, raws: seq<RawPod>,
                            n: int, r: string): int
    requires 0 <= n < |nodes| && IsRecorded(nodes, resp, n, r)
  {
    InputCountersHas(nodes, resp, r, (n, r));
    Replay(UpTo(|nodes|), InputCounters(nodes, resp, r), MemoryRequests(watch, api, raws, r))[(n, r)]
  }

  lemma {:induction false} StartIsInput(d: NodeData, nodes: seq<TopologyNode>, resp: AllocatableResources,
                                        cap: map<int, map<string, int>>, exclude: set<string>, r: string)
    requires Built(d, nodes, resp, cap, exclude) && IsMemoryLike(r) && r !in exclude
    ensures AgreeOn(d.Start(), InputCounters(nodes, resp, r), r)
  {
    hide Built, Recorded, IsRecorded, Wrap64, InputCounters, NodeData.Start;
    BuiltInputs(d, nodes, resp, cap, exclude);
    forall k: Cell | k.1 == r
      ensures k in d.Start() <==> k in InputCounters(nodes, resp, r)
      ensures k in d.Start() ==> d.Start()[k] == InputCounters(nodes, resp, r)[k]
    {
      StartHas(d, k.0, k.1);
      InputCountersHas(nodes, resp, r, k);
      AllocatableIsRecorded(d, nodes, resp, cap, exclude, k.0, r);
    }
  }

  /** End to end for a memory row, whatever nodes the requests name. */
  lemma {:induction false} MemoryRowRight(zones: seq<Zone>, d: NodeData, nodes: seq<TopologyNode>, resp: AllocatableResources,
                                          cap: map<int, map<string, int>>, exclude: set<string>,
                                          watch: string, api: ApiAnswers, raws: seq<RawPod>, n: int, r: string)
    requires Built(d, nodes, resp, cap, exclude) && Renders(zones, d, d.Final(Scanned(watch, api, raws)))
    requires 0 <= n < |nodes| && IsMemoryLike(r) && r !in exclude && IsRecorded(nodes, resp, n, r)
    ensures PublishedRow(zones, n, r) == Some(MemoryRow(nodes, resp, cap, watch, api, raws, n, r))
  {
    hide FlatMap, Scanned, Renders, PublishedRow, NodeData.Start, Built, Recorded, IsRecorded, Wrap64, ChargesOfPods, Replay,
         InputCounters, MemoryRequests, UpTo;
    BuiltInputs(d, nodes, resp, cap, exclude);
    var pods := Scanned(watch, api, raws);
    var qs := ChargesOfPods(d.index, pods);
    AllocatableIsRecorded(d, nodes, resp, cap, exclude, n, r);
    StartIsInput(d, nodes, resp, cap, exclude, r);
    ChargesTyped(d.index, pods);
    ReplayOfType(d.Known(), d.Start(), qs, r);
    RawRequests(d.index, watch, api, raws, r);
    ReplayAgrees(d.Known(), d.Start(), InputCounters(nodes, resp, r), MemoryRequests(watch, api, raws, r), r);
    InputCountersHas(nodes, resp, r, (n, r));
    StartHas(d, n, r);
    RowsPublished(zones, d, d.Final(pods), n, r);
    assert r != CPU;
  }

  // ---- Closed forms ----

  ghost predicate TypeFits(nodes: seq<TopologyNode>, resp: AllocatableResources, r: string) {
    forall n :: Recorded(nodes, resp, n, r) < TWO_TO_63
  }

  lemma {:induction false} RecordedNonNegative(nodes: seq<TopologyNode>, resp: AllocatableResources, n: int, r: string)
    ensures Recorded(nodes, resp, n, r) >= 0
  {
    AmountNonNegative(resp.devices, resp.memory, n, r);
  }

  lemma {:induction false} InputsNonNegative(nodes: seq<TopologyNode>, resp: AllocatableResources, r: string)
    requires IsMemoryLike(r) && TypeFits(nodes, resp, r)
    ensures MemoryNonNegative(InputCounters(nodes, resp, r))
    ensures forall k :: k in InputCounters(nodes, resp, r) ==> InputCounters(nodes, resp, r)[k] == Recorded(nodes, resp, k.0, r)
  {
    hide Recorded, IsRecorded, Wrap64, InputCounters;
    forall k | k in InputCounters(nodes, resp, r)
      ensures InputCounters(nodes, resp, r)[k] == Recorded(nodes, resp, k.0, r) >= 0
    {
      InputCountersHas(nodes, resp, r, k);
      RecordedNonNegative(nodes, resp, k.0, r);
      FitsWrap(Recorded(nodes, resp, k.0, r));
    }
  }

  lemma {:induction false} ContainerRequestsProper(c: RawContainer, r: string)
    requires IsMemoryLike(r) && forall i :: 0 <= i < |c.devices| ==> !IsMemoryLike(c.devices[i].resourceName)
    ensures forall q :: q in ContainerRequests(r)(c) ==> Proper(q)
  {
    hide IsMemoryLike;
    forall q | q in ContainerRequests(r)(c)
      ensures Proper(q)
    {
      FlatMapMember(DeviceRequest(r), c.devices, q);
      FlatMapMember(BlockRequest(r), c.memory, q);
    }
  }

  /** Without devices called like memory, every request is for a non-negative amount. */
  lemma {:induction false} RequestsProper(watch: string, api: ApiAnswers, raws: seq<RawPod>, r: string)
    requires IsMemoryLike(r) && NoMemoryDevices(raws)
    ensures AllProper(MemoryRequests(watch, api, raws, r))
  {
    hide FlatMap, ContainerRequests, WatchedPod, GuaranteedBy, Proper, IsMemoryLike;
    var qs := MemoryRequests(watch, api, raws, r);
    forall i | 0 <= i < |qs|
      ensures Proper(qs[i])
    {
      assert qs[i] in qs;
      FlatMapMember(PodRequests(watch, api, r), raws, qs[i]);
      var p :| 0 <= p < |raws| && qs[i] in PodRequests(watch, api, r)(raws[p]);
      FlatMapMember(ContainerRequests(r), raws[p].containers, qs[i]);
      var c :| 0 <= c < |raws[p].containers| && qs[i] in ContainerRequests(r)(raws[p].containers[c]);
      ContainerRequestsProper(raws[p].containers[c], r);
    }
  }

  /** The nodes of a list that requests over it take from. */
  ghost function ListNodes(nodes: seq<TopologyNode>, resp: AllocatableResources, r: string, l: seq<int>): (p: seq<int>)
    ensures forall i :: 0 <= i < |p| ==> 0 <= p[i] < |nodes| && IsRecorded(nodes, resp, p[i], r)
    ensures OnPath(InputCounters(nodes, resp, r), r, p)
  {
    var c := InputCounters(nodes, resp, r);
    var p := Path(UpTo(|nodes|), c.Keys, r, l, {});
    assert forall i :: 0 <= i < |p| ==> (p[i], r) in c.Keys;
    p
  }

  /** When every request of the type is over this list or outside it, the k-th node of the list keeps its recorded
      amount less what the summed requests still want after emptying the nodes before it. */
  lemma {:induction false} ListClosed(nodes: seq<TopologyNode>, resp: AllocatableResources,
                                      watch: string, api: ApiAnswers, raws: seq<RawPod>, r: string, l: seq<int>, k: nat)
    requires IsMemoryLike(r) && TypeFits(nodes, resp, r)
    requires AllProper(MemoryRequests(watch, api, raws, r)) && ListOwned(MemoryRequests(watch, api, raws, r), r, l)
    requires k < |ListNodes(nodes, resp, r, l)|
    ensures
      var path := ListNodes(nodes, resp, r, l);
      var wanted := RequestedOn(MemoryRequests(watch, api, raws, r), l, r);
      MemoryLeft(nodes, resp, watch, api, raws, path[k], r)
        == Max(0, Recorded(nodes, resp, path[k], r) - Max(0, wanted - Before(InputCounters(nodes, resp, r), r, path, k)))
  {
    hide Recorded, IsRecorded, InputCounters, MemoryRequests, Replay, Path, Before, RequestedOn, AllProper, ListOwned, UpTo,
         MemoryNonNegative;
    InputsNonNegative(nodes, resp, r);
    ListClosedForm(UpTo(|nodes|), InputCounters(nodes, resp, r), MemoryRequests(watch, api, raws, r), r, l, k);
  }

  /** When no request of the type names this node along with others, the node keeps its recorded amount less the sum
      of the requests for it. */
  lemma {:induction false} SingleNodeClosed(nodes: seq<TopologyNode>, resp: AllocatableResources,
                                            watch: string, api: ApiAnswers, raws: seq<RawPod>, r: string, n: int)
    requires IsMemoryLike(r) && TypeFits(nodes, resp, r)
    requires AllProper(MemoryRequests(watch, api, raws, r)) && ListOwned(MemoryRequests(watch, api, raws, r), r, [n])
    requires 0 <= n < |nodes| && IsRecorded(nodes, resp, n, r)
    ensures
      MemoryLeft(nodes, resp, watch, api, raws, n, r)
        == Max(0, Recorded(nodes, resp, n, r) - RequestedOn(MemoryRequests(watch, api, raws, r), [n], r))
  {
    hide Recorded, IsRecorded, InputCounters, MemoryRequests, RequestedOn, AllProper, ListOwned, Path;
    InputCountersHas(nodes, resp, r, (n, r));
    PathNext(UpTo(|nodes|), InputCounters(nodes, resp, r).Keys, r, [n], {});
    RequestedNonNegative(MemoryRequests(watch, api, raws, r), [n], r);
    RecordedNonNegative(nodes, resp, n, r);
    assert ListNodes(nodes, resp, r, [n])[0] == n;
    BeforeNone(InputCounters(nodes, resp, r), r, ListNodes(nodes, resp, r, [n]));
    ListClosed(nodes, resp, watch, api, raws, r, [n], 0);
  }

  /** End to end for the memory rows of a list that no other request of the type overlaps. */
  lemma {:induction false} ListRowPublished(zones: seq<Zone>, d: NodeData, nodes: seq<TopologyNode>, resp: AllocatableResources,
                                            cap: map<int, map<string, int>>, exclude: set<string>,
                                            watch: string, api: ApiAnswers, raws: seq<RawPod>, r: string, l: seq<int>, k: nat)
    requires Built(d, nodes, resp, cap, exclude) && Renders(zones, d, d.Final(Scanned(watch, api, raws)))
    requires IsMemoryLike(r) && r !in exclude && TypeFits(nodes, resp, r)
    requires AllProper(MemoryRequests(watch, api, raws, r)) && ListOwned(MemoryRequests(watch, api, raws, r), r, l)
    requires k < |ListNodes(nodes, resp, r, l)|
    ensures
      var path := ListNodes(nodes, resp, r, l);
      var wanted := RequestedOn(MemoryRequests(watch, api, raws, r), l, r);
      var n, recorded := path[k], Recorded(nodes, resp, path[k], r);
      PublishedRow(zones, n, r)
        == Some(ResourceRow(r, Max(0, recorded - Max(0, wanted - Before(InputCounters(nodes, resp, r), r, path, k))), recorded,
                            if n in cap && r in cap[n] then cap[n][r] else recorded))
  {
    hide Built, Renders, Scanned, NodeData.Final, Recorded, IsRecorded, InputCounters, MemoryRequests, RequestedOn, AllProper, ListOwned,
         Before, MemoryLeft, PublishedRow, ListNodes, Wrap64;
    var n := ListNodes(nodes, resp, r, l)[k];
    MemoryRowRight(zones, d, nodes, resp, cap, exclude, watch, api, raws, n, r);
    ListClosed(nodes, resp, watch, api, raws, r, l, k);
    RecordedNonNegative(nodes, resp, n, r);
    FitsWrap(Recorded(nodes, resp, n, r));
  }
}
