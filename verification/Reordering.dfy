/** The kubelet lists pods, their containers and their devices in no particular order. Reordering them, at every level
    at once, changes no device or CPU row, no decision whether a publication crashes, and no memory row whose requests
    may be swapped. */
module Reordering {
  import opened Common
  import opened Decimal
  import opened PodResourcesApi
  import opened Ledger
  import opened LedgerOrder
  import opened Aggregator
  import opened Determinism
  import opened Accounting
  import opened BuiltFacts
  import opened CpuCapacity
  import opened Scanner
  import opened EndToEnd
  import opened Published
  import opened DeviceRows
  import opened MemoryRows
  import opened Pipeline

  /** t is s in some order, each element replaced by one that counts as the same. */
  ghost predicate Rearranged<T(!new)>(same: (T, T) -> bool, s: seq<T>, t: seq<T>) {
    exists mid :: Aligned(same, s, mid, t)
  }

  ghost predicate Aligned<T>(same: (T, T) -> bool, s: seq<T>, mid: seq<T>, t: seq<T>) {
    multiset(s) == multiset(mid) && |mid| == |t| && forall i :: 0 <= i < |t| ==> same(mid[i], t[i])
  }

  /** The same device entry with its IDs in any order. */
  predicate SameDevice(d: ContainerDevices, e: ContainerDevices) {
    d.resourceName == e.resourceName && d.topology == e.topology && multiset(d.deviceIds) == multiset(e.deviceIds)
  }

  ghost predicate SameContainer(c: RawContainer, d: RawContainer) {
    && multiset(c.cpuIds) == multiset(d.cpuIds)
    && Rearranged(SameDevice, c.devices, d.devices)
    && multiset(c.memory) == multiset(d.memory)
  }

  ghost predicate SamePod(p: RawPod, q: RawPod) {
    p.name == q.name && p.namespace == q.namespace && Rearranged(SameContainer, p.containers, q.containers)
  }

  /** The same listing with pods, containers, devices, CPUs and memory blocks in any order. */
  ghost predicate Reordered(raws: seq<RawPod>, raws': seq<RawPod>) {
    Rearranged(SamePod, raws, raws')
  }

  /** What is computed element by element, up to order, survives the rearrangement up to order. */
  lemma {:induction false} FlatMapAligned<T, U>(f: T -> seq<U>, s: seq<T>, mid: seq<T>, t: seq<T>)
    requires multiset(s) == multiset(mid) && |mid| == |t|
    requires forall i :: 0 <= i < |t| ==> multiset(f(mid[i])) == multiset(f(t[i]))
    ensures multiset(FlatMap(f, s)) == multiset(FlatMap(f, t))
  {
    hide FlatMap;
    FlatMapPermutes(f, s, mid);
    FlatMapPointwise(f, mid, t);
  }

  lemma {:induction false} FlatMapPointwise<T, U>(f: T -> seq<U>, s: seq<T>, t: seq<T>)
    requires |s| == |t| && forall i :: 0 <= i < |t| ==> multiset(f(s[i])) == multiset(f(t[i]))
    ensures multiset(FlatMap(f, s)) == multiset(FlatMap(f, t))
  {
    if s != [] {
      FlatMapPointwise(f, s[..|s| - 1], t[..|t| - 1]);
    }
  }

  // ---- Whether a pod is watched ----

  lemma {:induction false} SamePodDevices(p: RawPod, q: RawPod)
    requires SamePod(p, q)
    ensures HoldsDevice(p) <==> HoldsDevice(q)
  {
    hide SameContainer;
    var mid: seq<RawContainer> :| Aligned(SameContainer, p.containers, mid, q.containers);
    SameMembers(p.containers, mid);
    forall i | 0 <= i < |mid|
      ensures mid[i].devices == [] <==> q.containers[i].devices == []
    {
      SameContainerDevices(mid[i], q.containers[i]);
    }
    if HoldsDevice(p) {
      var i :| 0 <= i < |p.containers| && p.containers[i].devices != [];
      assert p.containers[i] in mid;
      var j :| 0 <= j < |mid| && mid[j] == p.containers[i];
      assert q.containers[j].devices != [];
    }
    if HoldsDevice(q) {
      var j :| 0 <= j < |q.containers| && q.containers[j].devices != [];
      assert mid[j] in p.containers;
    }
  }

  lemma {:induction false} SameContainerDevices(c: RawContainer, d: RawContainer)
    requires SameContainer(c, d)
    ensures c.devices == [] <==> d.devices == []
  {
    var mid: seq<ContainerDevices> :| Aligned(SameDevice, c.devices, mid, d.devices);
    assert |multiset(c.devices)| == |c.devices| && |multiset(mid)| == |mid|;
  }

  // ---- Holdings ----

  lemma {:induction false} ContainerHoldingsReordered(guaranteed: bool, c: RawContainer, d: RawContainer)
    requires SameContainer(c, d)
    ensures multiset(RawHoldsContainer(guaranteed)(c)) == multiset(RawHoldsContainer(guaranteed)(d))
  {
    hide FlatMap, NamedCpu, RawHoldsBlock;
    FlatMapPermutes(NamedCpu, c.cpuIds, d.cpuIds);
    FlatMapPermutes(RawHoldsBlock, c.memory, d.memory);
    var mid: seq<ContainerDevices> :| Aligned(SameDevice, c.devices, mid, d.devices);
    forall i | 0 <= i < |mid|
      ensures multiset(RawHoldsDevice(mid[i])) == multiset(RawHoldsDevice(d.devices[i]))
    {
      assert SameDevice(mid[i], d.devices[i]);
      FlatMapPermutes(Named(mid[i].resourceName), mid[i].deviceIds, d.devices[i].deviceIds);
    }
    FlatMapAligned(RawHoldsDevice, c.devices, mid, d.devices);
  }

  lemma {:induction false} PodHoldingsReordered(watch: string, api: ApiAnswers, p: RawPod, q: RawPod)
    requires SamePod(p, q)
    ensures multiset(RawHoldsPod(watch, api)(p)) == multiset(RawHoldsPod(watch, api)(q))
  {
    hide FlatMap, SameContainer, RawHoldsContainer, HoldsDevice;
    SamePodDevices(p, q);
    var g := GuaranteedBy(api, p);
    var mid: seq<RawContainer> :| Aligned(SameContainer, p.containers, mid, q.containers);
    forall i | 0 <= i < |mid|
      ensures multiset(RawHoldsContainer(g)(mid[i])) == multiset(RawHoldsContainer(g)(q.containers[i]))
    {
      ContainerHoldingsReordered(g, mid[i], q.containers[i]);
    }
    FlatMapAligned(RawHoldsContainer(g), p.containers, mid, q.containers);
  }

  /** A reordered listing holds the same. */
  lemma {:induction false} HoldingsReordered(watch: string, api: ApiAnswers, raws: seq<RawPod>, raws': seq<RawPod>)
    requires Reordered(raws, raws')
    ensures multiset(RawHeld(watch, api, raws)) == multiset(RawHeld(watch, api, raws'))
  {
    hide FlatMap, SamePod, RawHoldsPod;
    var mid: seq<RawPod> :| Aligned(SamePod, raws, mid, raws');
    forall i | 0 <= i < |mid|
      ensures multiset(RawHoldsPod(watch, api)(mid[i])) == multiset(RawHoldsPod(watch, api)(raws'[i]))
    {
      PodHoldingsReordered(watch, api, mid[i], raws'[i]);
    }
    FlatMapAligned(RawHoldsPod(watch, api), raws, mid, raws');
  }

  // ---- Exclusive CPUs ----

  lemma {:induction false} SameCpus(c: RawContainer, d: RawContainer)
    requires SameContainer(c, d)
    ensures multiset(ContainerCpus(c)) == multiset(ContainerCpus(d))
  {
  }

  lemma {:induction false} PodCpusReordered(watch: string, api: ApiAnswers, p: RawPod, q: RawPod)
    requires SamePod(p, q)
    ensures multiset(ExclusiveCpusOf(watch, api)(p)) == multiset(ExclusiveCpusOf(watch, api)(q))
  {
    hide FlatMap, HoldsDevice, SameContainer;
    SamePodDevices(p, q);
    var mid: seq<RawContainer> :| Aligned(SameContainer, p.containers, mid, q.containers);
    forall i | 0 <= i < |mid|
      ensures multiset(ContainerCpus(mid[i])) == multiset(ContainerCpus(q.containers[i]))
    {
      SameCpus(mid[i], q.containers[i]);
    }
    FlatMapAligned(ContainerCpus, p.containers, mid, q.containers);
  }

  lemma {:induction false} CpusReordered(watch: string, api: ApiAnswers, raws: seq<RawPod>, raws': seq<RawPod>)
    requires Reordered(raws, raws')
    ensures multiset(ExclusiveCpus(watch, api, raws)) == multiset(ExclusiveCpus(watch, api, raws'))
  {
    hide FlatMap, SamePod, ExclusiveCpusOf;
    var mid: seq<RawPod> :| Aligned(SamePod, raws, mid, raws');
    forall i | 0 <= i < |mid|
      ensures multiset(ExclusiveCpusOf(watch, api)(mid[i])) == multiset(ExclusiveCpusOf(watch, api)(raws'[i]))
    {
      PodCpusReordered(watch, api, mid[i], raws'[i]);
    }
    FlatMapAligned(ExclusiveCpusOf(watch, api), raws, mid, raws');
  }

  lemma {:induction false} CountInPermutes(a: seq<int>, b: seq<int>, t: set<int>)
    requires multiset(a) == multiset(b)
    ensures CountIn(a, t) == CountIn(b, t)
    decreases |a|
  {
    if a == [] {
      NoneInPermutation(a, b);
    } else {
      var i := LastInPermutation(a, b);
      CountInPermutes(a[..|a| - 1], b[..i] + b[i + 1..], t);
      CountInAppend(b[..i], b[i + 1..], t);
      CountInAppend(b[..i] + [a[|a| - 1]], b[i + 1..], t);
      assert (b[..i] + [a[|a| - 1]])[..i] == b[..i];
    }
  }

  // ---- Memory requests ----

  /** A device entry called like a memory type asks the same in any order of its IDs: there is exactly one, or it asks
      nothing. */
  lemma {:induction false} DeviceRequestReordered(r: string, d: ContainerDevices, e: ContainerDevices)
    requires SameDevice(d, e)
    ensures DeviceRequest(r)(d) == DeviceRequest(r)(e)
  {
    hide ParseInt;
    assert |multiset(d.deviceIds)| == |d.deviceIds| && |multiset(e.deviceIds)| == |e.deviceIds|;
    if |d.deviceIds| == 1 {
      assert d.deviceIds[0] in multiset(d.deviceIds) && d.deviceIds[0] in multiset(e.deviceIds);
      assert d.deviceIds == e.deviceIds;
    }
  }

  lemma {:induction false} ContainerRequestsReordered(r: string, c: RawContainer, d: RawContainer)
    requires SameContainer(c, d)
    ensures multiset(ContainerRequests(r)(c)) == multiset(ContainerRequests(r)(d))
  {
    hide FlatMap, DeviceRequest, BlockRequest;
    FlatMapPermutes(BlockRequest(r), c.memory, d.memory);
    var mid: seq<ContainerDevices> :| Aligned(SameDevice, c.devices, mid, d.devices);
    forall i | 0 <= i < |mid|
      ensures multiset(DeviceRequest(r)(mid[i])) == multiset(DeviceRequest(r)(d.devices[i]))
    {
      DeviceRequestReordered(r, mid[i], d.devices[i]);
    }
    FlatMapAligned(DeviceRequest(r), c.devices, mid, d.devices);
  }

  lemma {:induction false} PodRequestsReordered(watch: string, api: ApiAnswers, r: string, p: RawPod, q: RawPod)
    requires SamePod(p, q)
    ensures multiset(PodRequests(watch, api, r)(p)) == multiset(PodRequests(watch, api, r)(q))
  {
    hide FlatMap, SameContainer, ContainerRequests, HoldsDevice;
    SamePodDevices(p, q);
    var mid: seq<RawContainer> :| Aligned(SameContainer, p.containers, mid, q.containers);
    forall i | 0 <= i < |mid|
      ensures multiset(ContainerRequests(r)(mid[i])) == multiset(ContainerRequests(r)(q.containers[i]))
    {
      ContainerRequestsReordered(r, mid[i], q.containers[i]);
    }
    FlatMapAligned(ContainerRequests(r), p.containers, mid, q.containers);
  }

  /** A reordered listing makes the same requests. */
  lemma {:induction false} RequestsReordered(watch: string, api: ApiAnswers, raws: seq<RawPod>, raws': seq<RawPod>, r: string)
    requires Reordered(raws, raws')
    ensures multiset(MemoryRequests(watch, api, raws, r)) == multiset(MemoryRequests(watch, api, raws', r))
  {
    hide FlatMap, SamePod, PodRequests;
    var mid: seq<RawPod> :| Aligned(SamePod, raws, mid, raws');
    forall i | 0 <= i < |mid|
      ensures multiset(PodRequests(watch, api, r)(mid[i])) == multiset(PodRequests(watch, api, r)(raws'[i]))
    {
      PodRequestsReordered(watch, api, r, mid[i], raws'[i]);
    }
    FlatMapAligned(PodRequests(watch, api, r), raws, mid, raws');
  }

  // ---- What is published ----

  /** The memory requests of a listing for one type may be served in any order. */
  ghost predicate AnyOrder(nodes: seq<TopologyNode>, resp: AllocatableResources, watch: string, api: ApiAnswers, raws: seq<RawPod>, r: string) {
    var qs := MemoryRequests(watch, api, raws, r);
    TypeFits(nodes, resp, r) && AllProper(qs) && PairwiseSwappable(UpTo(|nodes|), InputCounters(nodes, resp, r).Keys, qs)
  }

  /** Reordering the listing changes no row, for memory when its requests may be served in any order. */
  lemma {:induction false} RowsIgnoreReordering(nodes: seq<TopologyNode>, resp: AllocatableResources,
                                                cap: map<int, map<string, int>>,
                                                exclude: set<string>, watch: string, api: ApiAnswers,
                                                raws: seq<RawPod>, raws': seq<RawPod>, n: int, r: string)
    requires Reordered(raws, raws') && 0 <= n < |nodes| && Lists(nodes, resp, exclude, n, r)
    requires IsMemoryLike(r) ==> AnyOrder(nodes, resp, watch, api, raws, r)
    ensures InputRow(nodes, resp, cap, exclude, watch, api, raws, n, r) == InputRow(nodes, resp, cap, exclude, watch, api, raws', n, r)
  {
    hide Reordered, RawHeld, ExclusiveCpus, CountIn, MemoryRequests, HoldingsAt, Recorded, IsRecorded, Replay, InputCounters,
         PairwiseSwappable, AllProper, Wrap64, Processors, IsMemoryLike;
    if r == CPU {
      CpusReordered(watch, api, raws, raws');
      CountInPermutes(ExclusiveCpus(watch, api, raws), ExclusiveCpus(watch, api, raws'), SetOf(resp.cpuIds) * SetOf(Processors(nodes[n])));
    } else if IsMemoryLike(r) {
      RequestsReordered(watch, api, raws, raws', r);
      InputsNonNegative(nodes, resp, r);
      ReplayPermutes(UpTo(|nodes|), InputCounters(nodes, resp, r), MemoryRequests(watch, api, raws, r), MemoryRequests(watch, api, raws', r));
    } else {
      HoldingsReordered(watch, api, raws, raws');
      HoldingsPermute(nodes, resp, RawHeld(watch, api, raws), RawHeld(watch, api, raws'), n, r);
    }
  }

  /** Reordering the listing changes nothing about whether a publication succeeds. */
  lemma {:induction false} SuccessIgnoresReordering(nodes: seq<TopologyNode>, resp: AllocatableResources, exclude: set<string>,
                                                    watch: string, api: ApiAnswers, raws: seq<RawPod>, raws': seq<RawPod>)
    requires Reordered(raws, raws')
    ensures Answered(api, raws) <==> Answered(api, raws')
    ensures NoneCrashing(nodes, resp, exclude, watch, api, raws) <==> NoneCrashing(nodes, resp, exclude, watch, api, raws')
  {
    hide RawHeld, Crashing, Rearranged;
    HoldingsReordered(watch, api, raws, raws');
    forall h: (string, string)
      ensures h in RawHeld(watch, api, raws) <==> h in RawHeld(watch, api, raws')
    {
      assert h in RawHeld(watch, api, raws) <==> h in multiset(RawHeld(watch, api, raws));
      assert h in RawHeld(watch, api, raws') <==> h in multiset(RawHeld(watch, api, raws'));
    }
    AnsweredReordered(api, raws, raws');
  }

  lemma {:induction false} AnsweredReordered(api: ApiAnswers, raws: seq<RawPod>, raws': seq<RawPod>)
    requires Reordered(raws, raws')
    ensures Answered(api, raws) <==> Answered(api, raws')
  {
    var mid: seq<RawPod> :| Aligned(SamePod, raws, mid, raws');
    assert forall i :: 0 <= i < |mid| ==> SamePod(mid[i], raws'[i]);
    SameMembers(raws, mid);
    if Answered(api, raws) {
      forall i | 0 <= i < |raws'|
        ensures api(raws'[i].namespace, raws'[i].name).Some?
      {
        assert mid[i] in mid;
        var j :| 0 <= j < |raws| && raws[j] == mid[i];
      }
    }
    if Answered(api, raws') {
      forall j | 0 <= j < |raws|
        ensures api(raws[j].namespace, raws[j].name).Some?
      {
        assert raws[j] in raws;
        var i :| 0 <= i < |mid| && mid[i] == raws[j];
      }
    }
  }

  /** End to end: two publications from reordered listings show the same row, whatever the orders of pods, containers,
      devices and of every map iteration; for memory, when its requests may be served in any order. */
  lemma {:induction false} PublishedIgnoresReordering(zones: seq<Zone>, zones': seq<Zone>, d: NodeData, d': NodeData,
                                                      nodes: seq<TopologyNode>, resp: AllocatableResources, cap: map<int, map<string, int>>,
                                                      exclude: set<string>, watch: string, api: ApiAnswers,
                                                      raws: seq<RawPod>, raws': seq<RawPod>, n: int, r: string)
    requires Built(d, nodes, resp, cap, exclude) && Renders(zones, d, d.Final(Scanned(watch, api, raws)))
    requires Built(d', nodes, resp, cap, exclude) && Renders(zones', d', d'.Final(Scanned(watch, api, raws')))
    requires Reordered(raws, raws') && 0 <= n < |nodes|
    requires IsMemoryLike(r) && r !in exclude ==> AnyOrder(nodes, resp, watch, api, raws, r)
    ensures PublishedRow(zones, n, r) == PublishedRow(zones', n, r)
  {
    hide Built, Renders, NodeData.Final, Scanned, Reordered, PublishedRow, AnyOrder, NodeData.Start, NodeData.ListedNames,
         IsRecorded, Recorded, RawHeld, InputRow;
    BuiltUnique(d, d', nodes, resp, cap, exclude);
    BuiltInputs(d, nodes, resp, cap, exclude);
    if IsMemoryLike(r) {
      assert r != CPU;
      OtherRowRight(zones, d, nodes, resp, cap, exclude, watch, api, raws, n, r);
      OtherRowRight(zones', d, nodes, resp, cap, exclude, watch, api, raws', n, r);
      if Lists(nodes, resp, exclude, n, r) {
        RowsIgnoreReordering(nodes, resp, cap, exclude, watch, api, raws, raws', n, r);
      }
    } else {
      RowsPublished(zones, d, d.Final(Scanned(watch, api, raws)), n, r);
      RowsPublished(zones', d, d.Final(Scanned(watch, api, raws')), n, r);
      StartHas(d, n, r);
      if r in d.ListedNames(n) {
        HoldingsReordered(watch, api, raws, raws');
        AvailableByHoldings(d, watch, api, raws, raws', n, r);
        FinalKeys(d, Scanned(watch, api, raws));
        FinalKeys(d, Scanned(watch, api, raws'));
      }
    }
  }

  lemma {:induction false} FinalKeys(d: NodeData, pods: seq<PodResources>)
    ensures d.Final(pods).Keys == d.Start().Keys
  {
  }
}
