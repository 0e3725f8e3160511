/** Accounting from the raw pod list of the kubelet to the published counters, across the scanner's filtering and its
    decimal hand-off. */
module EndToEnd {
  import opened Common
  import opened Decimal
  import opened PodResourcesApi
  import opened Ledger
  import opened Aggregator
  import opened Accounting
  import opened Scanner

  // ---- Raw holdings ----

  function NamedCpu(c: int): seq<(string, string)> {
    [(CPU, FormatInt(c))]
  }

  function RawHoldsDevice(d: ContainerDevices): seq<(string, string)> {
    if IsMemoryLike(d.resourceName) then [] else FlatMap(Named(d.resourceName), d.deviceIds)
  }

  /** A block whose type is not a memory type is replayed as a device named by its size. */
  function RawHoldsBlock(b: ContainerMemory): seq<(string, string)> {
    if b.size == 0 || IsMemoryLike(b.memoryType) then [] else [(b.memoryType, FormatInt(b.size))]
  }

  /** What a container of a watched pod holds: its CPUs when the pod has exclusive ones, and its devices. */
  function RawHoldsContainer(guaranteed: bool): RawContainer -> seq<(string, string)> {
    (c: RawContainer) =>
      (if guaranteed then FlatMap(NamedCpu, c.cpuIds) else [])
      + FlatMap(RawHoldsDevice, c.devices)
      + FlatMap(RawHoldsBlock, c.memory)
  }

  function RawHoldsPod(watch: string, api: ApiAnswers): RawPod -> seq<(string, string)> {
    (pod: RawPod) =>
      if WatchedPod(watch, api, pod) then FlatMap(RawHoldsContainer(GuaranteedBy(api, pod)), pod.containers) else []
  }

  function RawHeld(watch: string, api: ApiAnswers, raws: seq<RawPod>): seq<(string, string)> {
    FlatMap(RawHoldsPod(watch, api), raws)
  }

  lemma {:induction false} Fuse<S, T, U>(f: S -> seq<T>, g: T -> seq<U>, h: S -> seq<U>, s: seq<S>)
    requires forall i :: 0 <= i < |s| ==> FlatMap(g, f(s[i])) == h(s[i])
    ensures FlatMap(g, FlatMap(f, s)) == FlatMap(h, s)
  {
    if s != [] {
      var front, last := s[..|s| - 1], s[|s| - 1];
      Fuse(f, g, h, front);
      FlatMapAppend(g, FlatMap(f, front), f(last));
    }
  }

  lemma {:induction false} FlatMapOne<T, U>(f: T -> seq<U>, x: T)
    ensures FlatMap(f, [x]) == f(x) && FlatMap(f, []) == []
  {
  }

  lemma {:induction false} FormattedHeld(ids: seq<int>)
    ensures FlatMap(Named(CPU), Formatted(ids)) == FlatMap(NamedCpu, ids)
  {
    if ids != [] {
      var front, last := ids[..|ids| - 1], ids[|ids| - 1];
      FormattedHeld(front);
      assert Formatted(ids)[..|ids| - 1] == Formatted(front);
    }
  }

  /** The entries of a container hold what the raw container holds. */
  lemma {:induction false} EntriesHold(guaranteed: bool, c: RawContainer)
    ensures FlatMap(Holds, EntriesOf(guaranteed, c)) == RawHoldsContainer(guaranteed)(c)
  {
    hide FlatMap, Holds, RawHoldsDevice, RawHoldsBlock;
    var cpus, devices, blocks := CpuEntry(guaranteed, c), FlatMap(DeviceEntry, c.devices), FlatMap(MemoryEntry, c.memory);
    FlatMapAppend(Holds, cpus + devices, blocks);
    FlatMapAppend(Holds, cpus, devices);
    CpuEntryHolds(guaranteed, c);
    forall i | 0 <= i < |c.devices|
      ensures FlatMap(Holds, DeviceEntry(c.devices[i])) == RawHoldsDevice(c.devices[i])
    {
      DeviceEntryHolds(c.devices[i]);
    }
    Fuse(DeviceEntry, Holds, RawHoldsDevice, c.devices);
    forall i | 0 <= i < |c.memory|
      ensures FlatMap(Holds, MemoryEntry(c.memory[i])) == RawHoldsBlock(c.memory[i])
    {
      MemoryEntryHolds(c.memory[i]);
    }
    Fuse(MemoryEntry, Holds, RawHoldsBlock, c.memory);
  }

  lemma {:induction false} CpuEntryHolds(guaranteed: bool, c: RawContainer)
    ensures FlatMap(Holds, CpuEntry(guaranteed, c)) == if guaranteed then FlatMap(NamedCpu, c.cpuIds) else []
  {
    FormattedHeld(c.cpuIds);
    FlatMapOne(Holds, ResourceInfo(CPU, Formatted(c.cpuIds), []));
  }

  lemma {:induction false} DeviceEntryHolds(d: ContainerDevices)
    ensures FlatMap(Holds, DeviceEntry(d)) == RawHoldsDevice(d)
  {
  }

  lemma {:induction false} MemoryEntryHolds(b: ContainerMemory)
    ensures FlatMap(Holds, MemoryEntry(b)) == RawHoldsBlock(b)
  {
    if b.size != 0 {
      FlatMapOne(Holds, ResourceInfo(b.memoryType, [FormatInt(b.size)], NodesOf(b.topology)));
      FlatMapOne(Named(b.memoryType), FormatInt(b.size));
    }
  }

  /** Dropping empty containers, empty pods and unwatched pods loses no holding: the scanned pods hold exactly what
      the watched raw pods hold, in the same order. */
  lemma {:induction false} ScannedHold(watch: string, api: ApiAnswers, raws: seq<RawPod>)
    ensures Held(Scanned(watch, api, raws)) == RawHeld(watch, api, raws)
  {
    hide FlatMap, EntriesOf, HoldsContainer, HoldsPod, WatchedPod, GuaranteedBy, RawHoldsContainer;
    forall i | 0 <= i < |raws|
      ensures FlatMap(HoldsPod, KeptPod(watch, api)(raws[i])) == RawHoldsPod(watch, api)(raws[i])
    {
      PodHolds(watch, api, raws[i]);
    }
    Fuse(KeptPod(watch, api), HoldsPod, RawHoldsPod(watch, api), raws);
  }

  lemma {:induction false} PodHolds(watch: string, api: ApiAnswers, pod: RawPod)
    ensures FlatMap(HoldsPod, KeptPod(watch, api)(pod)) == RawHoldsPod(watch, api)(pod)
  {
    hide FlatMap, EntriesOf, HoldsContainer, WatchedPod, GuaranteedBy, RawHoldsContainer;
    var g := GuaranteedBy(api, pod);
    var containers := FlatMap(KeptContainer(g), pod.containers);
    forall i | 0 <= i < |pod.containers|
      ensures FlatMap(HoldsContainer, KeptContainer(g)(pod.containers[i])) == RawHoldsContainer(g)(pod.containers[i])
    {
      ContainerHolds(g, pod.containers[i]);
    }
    Fuse(KeptContainer(g), HoldsContainer, RawHoldsContainer(g), pod.containers);
    FlatMapOne(HoldsPod, PodResources(pod.name, pod.namespace, containers));
    FlatMapOne(HoldsContainer, ContainerResources("", []));
  }

  lemma {:induction false} ContainerHolds(guaranteed: bool, c: RawContainer)
    ensures FlatMap(HoldsContainer, KeptContainer(guaranteed)(c)) == RawHoldsContainer(guaranteed)(c)
  {
    hide FlatMap, EntriesOf, RawHoldsContainer;
    EntriesHold(guaranteed, c);
    FlatMapOne(HoldsContainer, ContainerResources(c.name, EntriesOf(guaranteed, c)));
    FlatMapOne(Holds, ResourceInfo("", [], []));
  }

  // ---- Memory sizes across the decimal hand-off ----

  /** A scanned memory block becomes a request of exactly its size when it is below 2^63, and nothing otherwise. */
  lemma {:induction false} MemoryHandOff(b: ContainerMemory)
    requires b.size > 0 && NodesOf(b.topology) != []
    ensures |MemoryEntry(b)| == 1
    ensures MemoryCharges(MemoryEntry(b)[0])
         == if b.size < TWO_TO_63 then [Memory(b.memoryType, NodesOf(b.topology), b.size)] else []
  {
    ParseFormat(b.size);
  }

  /** No raw device carries the name of a memory resource. */
  ghost predicate NoMemoryDevices(raws: seq<RawPod>) {
    forall p, c, i :: 0 <= p < |raws| && 0 <= c < |raws[p].containers| && 0 <= i < |raws[p].containers[c].devices|
      ==> !IsMemoryLike(raws[p].containers[c].devices[i].resourceName)
  }

  lemma {:induction false} EntryReadable(guaranteed: bool, c: RawContainer, ri: ResourceInfo)
    requires ri in EntriesOf(guaranteed, c)
    requires forall i :: 0 <= i < |c.devices| ==> !IsMemoryLike(c.devices[i].resourceName)
    ensures ReadableSizeNonNegative(ri)
  {
    FlatMapMember(DeviceEntry, c.devices, ri);
    FlatMapMember(MemoryEntry, c.memory, ri);
    if ri in FlatMap(MemoryEntry, c.memory) {
      var i :| 0 <= i < |c.memory| && ri in MemoryEntry(c.memory[i]);
      ParseFormat(c.memory[i].size);
    }
  }

  /** Scanned pods never ask for a negative amount of memory. */
  lemma {:induction false} ScannedSizes(watch: string, api: ApiAnswers, raws: seq<RawPod>)
    requires NoMemoryDevices(raws)
    ensures SizesNonNegative(Scanned(watch, api, raws))
  {
    hide FlatMap, EntriesOf, ReadableSizeNonNegative, WatchedPod, GuaranteedBy;
    var pods := Scanned(watch, api, raws);
    forall p, c, i | 0 <= p < |pods| && 0 <= c < |pods[p].containers| && 0 <= i < |pods[p].containers[c].resources|
      ensures ReadableSizeNonNegative(pods[p].containers[c].resources[i])
    {
      FlatMapMember(KeptPod(watch, api), raws, pods[p]);
      var rp :| 0 <= rp < |raws| && pods[p] in KeptPod(watch, api)(raws[rp]);
      var g := GuaranteedBy(api, raws[rp]);
      FlatMapMember(KeptContainer(g), raws[rp].containers, pods[p].containers[c]);
      var rc :| 0 <= rc < |raws[rp].containers| && pods[p].containers[c] in KeptContainer(g)(raws[rp].containers[rc]);
      EntryReadable(g, raws[rp].containers[rc], pods[p].containers[c].resources[i]);
    }
  }

  // ---- From raw pods to Available ----

  /** End to end: Available of a device or CPU counter is Allocatable less the raw holdings of watched pods that are
      indexed to it. */
  lemma {:induction false} RawDeviceAvailable(d: NodeData, watch: string, api: ApiAnswers, raws: seq<RawPod>, n: int, r: string)
    requires (n, r) in d.Start() && !IsMemoryLike(r)
    ensures d.Final(Scanned(watch, api, raws))[(n, r)] == d.AllocatableOf(n, r) - HeldAt(d.index, RawHeld(watch, api, raws), n, r)
  {
    hide HeldAt, FlatMap, Held, Scanned, RawHeld, NodeData.Start;
    ScannedHold(watch, api, raws);
    DeviceAvailable(d, Scanned(watch, api, raws), n, r);
  }

  /** A raw pod inserted anywhere in the listing, watched or not, raises no Available value on any node. */
  lemma {:induction false} RawPodLowers(d: NodeData, watch: string, api: ApiAnswers, a: seq<RawPod>, p: RawPod, b: seq<RawPod>)
    requires MemoryStartsNonNegative(d) && NoMemoryDevices(a) && NoMemoryDevices([p]) && NoMemoryDevices(b)
    ensures AtMost(d.Final(Scanned(watch, api, a + [p] + b)), d.Final(Scanned(watch, api, a + b)))
  {
    hide FlatMap, NodeData.Final, NoMemoryDevices, MemoryStartsNonNegative, SizesNonNegative;
    ScannedSizes(watch, api, a);
    ScannedSizes(watch, api, [p]);
    ScannedSizes(watch, api, b);
    FlatMapAppend(KeptPod(watch, api), a + [p], b);
    FlatMapAppend(KeptPod(watch, api), a, [p]);
    FlatMapAppend(KeptPod(watch, api), a, b);
    InsertedPodsLower(d, Scanned(watch, api, a), Scanned(watch, api, [p]), Scanned(watch, api, b));
  }

  lemma {:induction false} HeldAtPermutes(index: map<string, map<string, int>>, a: seq<(string, string)>, b: seq<(string, string)>, n: int, r: string)
    requires multiset(a) == multiset(b)
    ensures HeldAt(index, a, n, r) == HeldAt(index, b, n, r)
    decreases |a|
  {
    if a == [] {
      NoneInPermutation(a, b);
    } else {
      var last := a[|a| - 1];
      var i := LastInPermutation(a, b);
      HeldAtPermutes(index, a[..|a| - 1], b[..i] + b[i + 1..], n, r);
      HeldAtAppend(index, b[..i], b[i + 1..], n, r);
      HeldAtAppend(index, b[..i] + [last], b[i + 1..], n, r);
      HeldAtAppend(index, b[..i], [last], n, r);
      HeldAtOne(index, last, n, r);
    }
  }

  /** Pod lists with the same holdings, in any order and grouping, give every device counter the same Available. */
  lemma {:induction false} AvailableByHoldings(d: NodeData, watch: string, api: ApiAnswers, raws: seq<RawPod>, raws': seq<RawPod>, n: int, r: string)
    requires (n, r) in d.Start() && !IsMemoryLike(r)
    requires multiset(RawHeld(watch, api, raws)) == multiset(RawHeld(watch, api, raws'))
    ensures d.Final(Scanned(watch, api, raws))[(n, r)] == d.Final(Scanned(watch, api, raws'))[(n, r)]
  {
    hide HeldAt, FlatMap, Scanned, RawHeld, NodeData.Start, NodeData.Final;
    RawDeviceAvailable(d, watch, api, raws, n, r);
    RawDeviceAvailable(d, watch, api, raws', n, r);
    HeldAtPermutes(d.index, RawHeld(watch, api, raws), RawHeld(watch, api, raws'), n, r);
  }
}
