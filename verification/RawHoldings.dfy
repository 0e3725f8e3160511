/** What a listing holds and asks for, pod by pod: which pods are watched, how often an ID is held, and how many bytes are
    requested, in terms of the fields of the listing and of the API's answers alone. */
module RawHoldings {
  import opened Common
  import opened Decimal
  import opened PodResourcesApi
  import opened Ledger
  import opened Accounting
  import opened Scanner
  import opened EndToEnd
  import opened Published
  import opened MemoryRows

  // ---- Watched pods ----

  predicate ExclusiveBy(api: ApiAnswers, pod: RawPod) {
    var answer := api(pod.namespace, pod.name);
    answer.Some? && Exclusive(answer.value)
  }

  /** The pod is in a watched namespace and has exclusive CPUs or some device. */
  predicate Watches(watch: string, api: ApiAnswers, pod: RawPod) {
    && (watch == "*" || watch == pod.namespace)
    && (ExclusiveBy(api, pod) || exists j :: 0 <= j < |pod.containers| && |pod.containers[j].devices| > 0)
  }

  lemma {:induction false} WatchedExactly(watch: string, api: ApiAnswers, pod: RawPod)
    ensures WatchedPod(watch, api, pod) <==> Watches(watch, api, pod)
    ensures GuaranteedBy(api, pod) <==> ExclusiveBy(api, pod)
  {
  }

  // ---- Scanned pods ----

  /** The scanned pods are the watched ones with some entry, under their own name and namespace. */
  lemma {:induction false} ScannedPodsExactly(watch: string, api: ApiAnswers, raws: seq<RawPod>, p: PodResources)
    ensures p in Scanned(watch, api, raws)
       <==> exists i :: 0 <= i < |raws| && Watches(watch, api, raws[i]) && p.name == raws[i].name && p.namespace == raws[i].namespace
                        && p.containers == FlatMap(KeptContainer(ExclusiveBy(api, raws[i])), raws[i].containers) && p.containers != []
  {
    hide FlatMap, KeptContainer, WatchedPod, GuaranteedBy, Watches, ExclusiveBy;
    FlatMapMember(KeptPod(watch, api), raws, p);
    forall i | 0 <= i < |raws|
      ensures WatchedPod(watch, api, raws[i]) <==> Watches(watch, api, raws[i])
      ensures GuaranteedBy(api, raws[i]) <==> ExclusiveBy(api, raws[i])
    {
      WatchedExactly(watch, api, raws[i]);
    }
  }

  /** The scanned containers are those with some entry, under their own name. */
  lemma {:induction false} KeptContainersExactly(guaranteed: bool, cs: seq<RawContainer>, c: ContainerResources)
    ensures c in FlatMap(KeptContainer(guaranteed), cs)
       <==> exists j :: 0 <= j < |cs| && c.name == cs[j].name && c.resources == EntriesOf(guaranteed, cs[j]) && c.resources != []
  {
    hide FlatMap, EntriesOf;
    FlatMapMember(KeptContainer(guaranteed), cs, c);
  }

  predicate CpuEntryOf(c: RawContainer, e: ResourceInfo) {
    && e.name == "cpu" && c.cpuIds != [] && |e.data| == |c.cpuIds| && e.numaNodeIds == []
    && forall k :: 0 <= k < |c.cpuIds| ==> e.data[k] == FormatInt(c.cpuIds[k])
  }

  predicate NodesAre(topology: Option<seq<int>>, nodes: seq<int>) {
    topology == Some(nodes) || (topology == None && nodes == [])
  }

  predicate DeviceEntryOf(d: ContainerDevices, e: ResourceInfo) {
    e.name == d.resourceName && e.data == d.deviceIds && NodesAre(d.topology, e.numaNodeIds)
  }

  predicate BlockEntryOf(b: ContainerMemory, e: ResourceInfo) {
    b.size != 0 && e.name == b.memoryType && e.data == [FormatInt(b.size)] && NodesAre(b.topology, e.numaNodeIds)
  }

  /** The entries of a container: its CPUs if they are exclusive, its devices, and its blocks that are not empty. */
  lemma {:induction false} EntriesExactly(guaranteed: bool, c: RawContainer, e: ResourceInfo)
    ensures e in EntriesOf(guaranteed, c)
       <==> || (guaranteed && CpuEntryOf(c, e))
            || (exists i :: 0 <= i < |c.devices| && DeviceEntryOf(c.devices[i], e))
            || (exists i :: 0 <= i < |c.memory| && BlockEntryOf(c.memory[i], e))
  {
    hide FlatMap, FormatInt;
    FlatMapMember(DeviceEntry, c.devices, e);
    FlatMapMember(MemoryEntry, c.memory, e);
    forall i | 0 <= i < |c.devices|
      ensures e in DeviceEntry(c.devices[i]) <==> DeviceEntryOf(c.devices[i], e)
    {
    }
    forall i | 0 <= i < |c.memory|
      ensures e in MemoryEntry(c.memory[i]) <==> BlockEntryOf(c.memory[i], e)
    {
    }
    assert e in CpuEntry(guaranteed, c) <==> guaranteed && CpuEntryOf(c, e) by {
      if guaranteed && CpuEntryOf(c, e) {
        assert e.data == Formatted(c.cpuIds);
      }
    }
  }

  // ---- Holdings ----

  function HeldInCpu(id: string): int -> int {
    c => if FormatInt(c) == id then 1 else 0
  }

  function HeldInDevice(h: (string, string)): ContainerDevices -> int {
    (d: ContainerDevices) => if d.resourceName == h.0 && !IsMemoryLike(h.0) then multiset(d.deviceIds)[h.1] else 0
  }

  /** A block of another type than memory counts as a device named by its size. */
  function HeldInBlock(h: (string, string)): ContainerMemory -> int {
    (b: ContainerMemory) =>
      if b.memoryType == h.0 && !IsMemoryLike(h.0) && b.size > 0 && FormatInt(b.size) == h.1 then 1 else 0
  }

  function HeldInContainer(exclusive: bool, h: (string, string)): RawContainer -> int {
    (c: RawContainer) =>
      (if exclusive && h.0 == "cpu" then SumOver(HeldInCpu(h.1), c.cpuIds) else 0)
      + SumOver(HeldInDevice(h), c.devices) + SumOver(HeldInBlock(h), c.memory)
  }

  function HeldInPod(watch: string, api: ApiAnswers, h: (string, string)): RawPod -> int {
    (pod: RawPod) => if Watches(watch, api, pod) then SumOver(HeldInContainer(ExclusiveBy(api, pod), h), pod.containers) else 0
  }

  lemma {:induction false} NamedCount(name: string, ids: seq<string>, h: (string, string))
    ensures multiset(FlatMap(Named(name), ids))[h] == if name == h.0 then multiset(ids)[h.1] else 0
  {
    if ids != [] {
      NamedCount(name, ids[..|ids| - 1], h);
      assert ids == ids[..|ids| - 1] + [ids[|ids| - 1]];
    }
  }

  lemma {:induction false} CpusCount(cpuIds: seq<int>, h: (string, string))
    ensures multiset(FlatMap(NamedCpu, cpuIds))[h] == if h.0 == "cpu" then SumOver(HeldInCpu(h.1), cpuIds) else 0
  {
    hide FormatInt;
    if cpuIds != [] {
      CpusCount(cpuIds[..|cpuIds| - 1], h);
    }
  }

  lemma {:induction false} ContainerCount(exclusive: bool, c: RawContainer, h: (string, string))
    ensures multiset(RawHoldsContainer(exclusive)(c))[h] == HeldInContainer(exclusive, h)(c)
  {
    hide FlatMap, SumOver, NamedCpu, FormatInt;
    CpusCount(c.cpuIds, h);
    forall i | 0 <= i < |c.devices|
      ensures multiset(RawHoldsDevice(c.devices[i]))[h] == HeldInDevice(h)(c.devices[i])
    {
      NamedCount(c.devices[i].resourceName, c.devices[i].deviceIds, h);
    }
    FlatMapCount(RawHoldsDevice, HeldInDevice(h), c.devices, h);
    forall i | 0 <= i < |c.memory|
      ensures multiset(RawHoldsBlock(c.memory[i]))[h] == HeldInBlock(h)(c.memory[i])
    {
    }
    FlatMapCount(RawHoldsBlock, HeldInBlock(h), c.memory, h);
  }

  /** How often an ID is held under a resource: by watched pods, in CPUs when they are exclusive, and in devices. */
  lemma {:induction false} RawHeldExactly(watch: string, api: ApiAnswers, raws: seq<RawPod>, h: (string, string))
    ensures multiset(RawHeld(watch, api, raws))[h] == SumOver(HeldInPod(watch, api, h), raws)
  {
    hide FlatMap, SumOver, RawHoldsContainer, HeldInContainer, WatchedPod, GuaranteedBy, Watches, ExclusiveBy;
    forall i | 0 <= i < |raws|
      ensures multiset(RawHoldsPod(watch, api)(raws[i]))[h] == HeldInPod(watch, api, h)(raws[i])
    {
      PodCount(watch, api, raws[i], h);
    }
    FlatMapCount(RawHoldsPod(watch, api), HeldInPod(watch, api, h), raws, h);
  }

  lemma {:induction false} PodCount(watch: string, api: ApiAnswers, pod: RawPod, h: (string, string))
    ensures multiset(RawHoldsPod(watch, api)(pod))[h] == HeldInPod(watch, api, h)(pod)
  {
    hide FlatMap, SumOver, RawHoldsContainer, HeldInContainer, WatchedPod, GuaranteedBy, Watches, ExclusiveBy;
    WatchedExactly(watch, api, pod);
    var g := GuaranteedBy(api, pod);
    forall i | 0 <= i < |pod.containers|
      ensures multiset(RawHoldsContainer(g)(pod.containers[i]))[h] == HeldInContainer(g, h)(pod.containers[i])
    {
      ContainerCount(g, pod.containers[i], h);
    }
    FlatMapCount(RawHoldsContainer(g), HeldInContainer(g, h), pod.containers, h);
  }

  function CpuTimes(c: int): RawContainer -> int {
    (container: RawContainer) => multiset(container.cpuIds)[c]
  }

  function PodCpuTimes(watch: string, api: ApiAnswers, c: int): RawPod -> int {
    (pod: RawPod) => if Watches(watch, api, pod) && ExclusiveBy(api, pod) then SumOver(CpuTimes(c), pod.containers) else 0
  }

  /** How often a CPU is held by watched pods with exclusive CPUs. */
  lemma {:induction false} ExclusiveCpusExactly(watch: string, api: ApiAnswers, raws: seq<RawPod>, c: int)
    ensures multiset(ExclusiveCpus(watch, api, raws))[c] == SumOver(PodCpuTimes(watch, api, c), raws)
  {
    hide FlatMap, SumOver, WatchedPod, GuaranteedBy, Watches, ExclusiveBy;
    forall i | 0 <= i < |raws|
      ensures multiset(ExclusiveCpusOf(watch, api)(raws[i]))[c] == PodCpuTimes(watch, api, c)(raws[i])
    {
      WatchedExactly(watch, api, raws[i]);
      FlatMapCount(ContainerCpus, CpuTimes(c), raws[i].containers, c);
    }
    FlatMapCount(ExclusiveCpusOf(watch, api), PodCpuTimes(watch, api, c), raws, c);
  }

  // ---- Memory requests ----

  /** What a block of type r asks of exactly this list of nodes; sizes of 2^63 and more cannot be read back. */
  function BlockAsks(r: string, l: seq<int>): ContainerMemory -> int {
    (b: ContainerMemory) => if b.memoryType == r && b.topology == Some(l) && b.size < TWO_TO_63 then b.size else 0
  }

  function ContainerAsks(r: string, l: seq<int>): RawContainer -> int {
    (c: RawContainer) => SumOver(BlockAsks(r, l), c.memory)
  }

  function PodAsks(watch: string, api: ApiAnswers, r: string, l: seq<int>): RawPod -> int {
    (pod: RawPod) => if Watches(watch, api, pod) then SumOver(ContainerAsks(r, l), pod.containers) else 0
  }

  lemma {:induction false} RequestedAppend(a: seq<Charge>, b: seq<Charge>, l: seq<int>, r: string)
    ensures RequestedOn(a + b, l, r) == RequestedOn(a, l, r) + RequestedOn(b, l, r)
  {
    if b == [] {
      assert a + b == a;
    } else {
      assert (a + b)[..|a + b| - 1] == a + b[..|b| - 1];
      RequestedAppend(a, b[..|b| - 1], l, r);
    }
  }

  lemma {:induction false} RequestedJoined<T>(f: T -> seq<Charge>, g: T -> int, s: seq<T>, l: seq<int>, r: string)
    requires forall i :: 0 <= i < |s| ==> RequestedOn(f(s[i]), l, r) == g(s[i])
    ensures RequestedOn(FlatMap(f, s), l, r) == SumOver(g, s)
  {
    if s != [] {
      var front, last := s[..|s| - 1], s[|s| - 1];
      RequestedJoined(f, g, front, l, r);
      RequestedAppend(FlatMap(f, front), f(last), l, r);
    }
  }

  lemma {:induction false} BlockAsked(b: ContainerMemory, l: seq<int>, r: string)
    requires l != []
    ensures RequestedOn(BlockRequest(r)(b), l, r) == BlockAsks(r, l)(b)
  {
    RequestedOne(Memory(r, NodesOf(b.topology), b.size), l, r);
  }

  lemma {:induction false} RequestedOne(q: Charge, l: seq<int>, r: string)
    ensures RequestedOn([q], l, r) == if q.Memory? && q.name == r && q.nodes == l then q.size else 0
    ensures RequestedOn([], l, r) == 0
  {
  }

  lemma {:induction false} NoDeviceAsks(devices: seq<ContainerDevices>, r: string)
    requires forall i :: 0 <= i < |devices| ==> devices[i].resourceName != r
    ensures FlatMap(DeviceRequest(r), devices) == []
  {
    if devices != [] {
      NoDeviceAsks(devices[..|devices| - 1], r);
    }
  }

  lemma {:induction false} ContainerAsked(c: RawContainer, l: seq<int>, r: string)
    requires l != [] && forall i :: 0 <= i < |c.devices| ==> c.devices[i].resourceName != r
    ensures RequestedOn(ContainerRequests(r)(c), l, r) == ContainerAsks(r, l)(c)
  {
    hide FlatMap, SumOver, RequestedOn, BlockRequest, BlockAsks;
    NoDeviceAsks(c.devices, r);
    forall i | 0 <= i < |c.memory|
      ensures RequestedOn(BlockRequest(r)(c.memory[i]), l, r) == BlockAsks(r, l)(c.memory[i])
    {
      BlockAsked(c.memory[i], l, r);
    }
    RequestedJoined(BlockRequest(r), BlockAsks(r, l), c.memory, l, r);
    assert [] + FlatMap(BlockRequest(r), c.memory) == FlatMap(BlockRequest(r), c.memory);
  }

  /** How many bytes of a type are requested over a list of nodes: the readable blocks of watched pods with exactly this
      list. */
  lemma {:induction false} RequestedExactly(watch: string, api: ApiAnswers, raws: seq<RawPod>, r: string, l: seq<int>)
    requires l != [] && IsMemoryLike(r) && NoMemoryDevices(raws)
    ensures RequestedOn(MemoryRequests(watch, api, raws, r), l, r) == SumOver(PodAsks(watch, api, r, l), raws)
  {
    hide FlatMap, SumOver, RequestedOn, ContainerRequests, ContainerAsks, WatchedPod, GuaranteedBy, Watches, IsMemoryLike;
    forall p | 0 <= p < |raws|
      ensures RequestedOn(PodRequests(watch, api, r)(raws[p]), l, r) == PodAsks(watch, api, r, l)(raws[p])
    {
      WatchedExactly(watch, api, raws[p]);
      RequestedOne(Unit(0, r), l, r);
      forall i | 0 <= i < |raws[p].containers|
        ensures RequestedOn(ContainerRequests(r)(raws[p].containers[i]), l, r) == ContainerAsks(r, l)(raws[p].containers[i])
      {
        ContainerAsked(raws[p].containers[i], l, r);
      }
      RequestedJoined(ContainerRequests(r), ContainerAsks(r, l), raws[p].containers, l, r);
    }
    RequestedJoined(PodRequests(watch, api, r), PodAsks(watch, api, r, l), raws, l, r);
  }

  /** Requests come in the order of pods, of containers in a pod, and of blocks in a container. */
  lemma {:induction false} RequestsInOrder(watch: string, api: ApiAnswers, raws: seq<RawPod>, raws': seq<RawPod>,
                                           pod: RawPod, a: seq<RawContainer>, b: seq<RawContainer>,
                                           c: RawContainer, m: seq<ContainerMemory>, m': seq<ContainerMemory>, r: string)
    requires Watches(watch, api, pod.(containers := a)) && Watches(watch, api, pod.(containers := b))
    requires Watches(watch, api, pod.(containers := a + b))
    ensures MemoryRequests(watch, api, raws + raws', r) == MemoryRequests(watch, api, raws, r) + MemoryRequests(watch, api, raws', r)
    ensures PodRequests(watch, api, r)(pod.(containers := a + b))
         == PodRequests(watch, api, r)(pod.(containers := a)) + PodRequests(watch, api, r)(pod.(containers := b))
    ensures ContainerRequests(r)(c.(devices := [], memory := m + m'))
         == ContainerRequests(r)(c.(devices := [], memory := m)) + ContainerRequests(r)(c.(devices := [], memory := m'))
  {
    hide FlatMap, Watches, WatchedPod, BlockRequest, DeviceRequest;
    FlatMapAppend(PodRequests(watch, api, r), raws, raws');
    WatchedExactly(watch, api, pod.(containers := a));
    WatchedExactly(watch, api, pod.(containers := b));
    WatchedExactly(watch, api, pod.(containers := a + b));
    FlatMapAppend(ContainerRequests(r), a, b);
    FlatMapAppend(BlockRequest(r), m, m');
    FlatMapOne(DeviceRequest(r), ContainerDevices("", [], None));
  }
}
