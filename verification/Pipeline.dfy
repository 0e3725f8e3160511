/** The whole path of one publication: construct the aggregator, scan the pods, aggregate. Its contract speaks of the
    inputs alone, and its body shows that what the theorems require is what the code establishes. */
module Pipeline {
  import opened Common
  import opened Accumulate
  import opened PodResourcesApi
  import opened Indexes
  import opened Aggregator
  import opened Determinism
  import opened Accounting
  import opened BuiltFacts
  import opened CpuCapacity
  import opened Scanner
  import opened EndToEnd
  import opened Published
  import opened DeviceRows
  import opened MemoryRows

  /** What the theorems ask of the machine and the kubelet's allocatable response. */
  ghost predicate GoodMachine(nodes: seq<TopologyNode>, resp: AllocatableResources) {
    WellFormedNode(nodes, resp) && Distinct(resp.cpuIds) && |resp.cpuIds| < TWO_TO_63
  }

  /** A node lists what the inputs record at it, unless excluded, and a node without any record lists "cpu" alone, as a
      placeholder, excluded or not. */
  ghost predicate Lists(nodes: seq<TopologyNode>, resp: AllocatableResources, exclude: set<string>, n: int, r: string) {
    if exists s :: IsRecorded(nodes, resp, n, s) then IsRecorded(nodes, resp, n, r) && r !in exclude else r == CPU
  }

  /** Each row in terms of the inputs alone. */
  ghost function InputRow(nodes: seq<TopologyNode>, resp: AllocatableResources, cap: map<int, map<string, int>>, exclude: set<string>,
                          watch: string, api: ApiAnswers, raws: seq<RawPod>, n: int, r: string): ResourceRow
    requires 0 <= n < |nodes| && Lists(nodes, resp, exclude, n, r)
  {
    if r == CPU then CpuRow(nodes, resp, watch, api, raws, n)
    else if IsMemoryLike(r) then MemoryRow(nodes, resp, cap, watch, api, raws, n, r)
    else DeviceRow(nodes, resp, watch, api, raws, n, r)
  }

  ghost predicate RowRight(zones: seq<Zone>, nodes: seq<TopologyNode>, resp: AllocatableResources, cap: map<int, map<string, int>>,
                           exclude: set<string>, watch: string, api: ApiAnswers, raws: seq<RawPod>, n: int, r: string)
    requires 0 <= n < |nodes|
  {
    PublishedRow(zones, n, r)
      == if Lists(nodes, resp, exclude, n, r) then Some(InputRow(nodes, resp, cap, exclude, watch, api, raws, n, r)) else None
  }

  /** Every node publishes exactly the rows of the inputs. */
  ghost predicate RowsRight(zones: seq<Zone>, nodes: seq<TopologyNode>, resp: AllocatableResources, cap: map<int, map<string, int>>,
                            exclude: set<string>, watch: string, api: ApiAnswers, raws: seq<RawPod>) {
    forall n, r :: 0 <= n < |nodes| ==> RowRight(zones, nodes, resp, cap, exclude, watch, api, raws, n, r)
  }

  /** None when the scan fails or the replay crashes. */
  method PublishOnce(nodes: seq<TopologyNode>, resp: AllocatableResources, cap: map<int, map<string, int>>, exclude: set<string>,
                     scanner: PodResourcesScanner, api: ApiAnswers, raws: seq<RawPod>, fingerprint: seq<RawPod> -> Option<string>)
    returns (published: Option<seq<Zone>>)
    requires GoodMachine(nodes, resp) && NoCpuDevices(raws)
    ensures published.Some? <==> Answered(api, raws) && NoneCrashing(nodes, resp, exclude, scanner.namespace, api, raws)
    ensures published.Some? ==> |published.value| == |nodes| && DistinctNames(published.value)
    ensures published.Some? ==> RowsRight(published.value, nodes, resp, cap, exclude, scanner.namespace, api, raws)
  {
    hide Built, Renders, NodeData.Final, NodeData.Panics, Scanned, DistinctNames, RowsRight, NoCpuDevices, Answered, NoneCrashing,
         WellFormedNode, Distinct;
    NoRawCpus(nodes, resp);
    var resAggr := new NodeResources.FromData(nodes, resp, cap, exclude);
    var scan := scanner.Scan(Some(raws), api, fingerprint);
    if scan == None {
      return None;
    }
    var panicked, zones := resAggr.Aggregate(scan.value.pods);
    ghost var d := resAggr.Data();
    CrashesExactly(d, nodes, resp, cap, exclude, scanner.namespace, api, raws);
    if panicked {
      return None;
    }
    AllRowsRight(zones, d, nodes, resp, cap, exclude, scanner.namespace, api, raws);
    return Some(zones);
  }

  lemma {:induction false} NoRawCpus(nodes: seq<TopologyNode>, resp: AllocatableResources)
    requires GoodMachine(nodes, resp)
    ensures CpuDevicesPlaced(resp.devices)
  {
  }

  /** Any rendering of any built aggregator publishes a row other than "cpu" exactly as the inputs say, whatever the
      machine, the allocatable response and the pods. */
  lemma {:induction false} OtherRowRight(zones: seq<Zone>, d: NodeData, nodes: seq<TopologyNode>, resp: AllocatableResources,
                                         cap: map<int, map<string, int>>, exclude: set<string>,
                                         watch: string, api: ApiAnswers, raws: seq<RawPod>, n: int, r: string)
    requires Built(d, nodes, resp, cap, exclude) && Renders(zones, d, d.Final(Scanned(watch, api, raws)))
    requires 0 <= n < |nodes| && r != CPU
    ensures RowRight(zones, nodes, resp, cap, exclude, watch, api, raws, n, r)
  {
    hide Built, Renders, NodeData.Final, Scanned, PublishedRow, CpuRow, MemoryRow, DeviceRow, IsRecorded, Recorded,
         NodeData.ListedNames, IsMemoryLike;
    BuiltInputs(d, nodes, resp, cap, exclude);
    ListsExactly(d, nodes, resp, cap, exclude, n, r);
    RowsPublished(zones, d, d.Final(Scanned(watch, api, raws)), n, r);
    if r in d.ListedNames(n) {
      if IsMemoryLike(r) {
        MemoryRowRight(zones, d, nodes, resp, cap, exclude, watch, api, raws, n, r);
      } else {
        DeviceRowRight(zones, d, nodes, resp, cap, exclude, watch, api, raws, n, r);
      }
    }
  }

  /** Any rendering of any built aggregator publishes one zone per node and exactly the rows of the inputs. */
  lemma {:induction false} AllRowsRight(zones: seq<Zone>, d: NodeData, nodes: seq<TopologyNode>, resp: AllocatableResources,
                                        cap: map<int, map<string, int>>, exclude: set<string>,
                                        watch: string, api: ApiAnswers, raws: seq<RawPod>)
    requires Built(d, nodes, resp, cap, exclude) && Renders(zones, d, d.Final(Scanned(watch, api, raws)))
    requires GoodMachine(nodes, resp) && NoCpuDevices(raws)
    ensures |zones| == |nodes| && DistinctNames(zones)
    ensures RowsRight(zones, nodes, resp, cap, exclude, watch, api, raws)
  {
    hide Built, Renders, NodeData.Final, Scanned, DistinctNames, PublishedRow, CpuRow, MemoryRow, DeviceRow, WellFormedNode, Distinct,
         NoCpuDevices, IsRecorded, Recorded, NodeData.ListedNames, IsMemoryLike;
    BuiltInputs(d, nodes, resp, cap, exclude);
    ZonesWellNamed(zones, d, d.Final(Scanned(watch, api, raws)));
    forall n, r | 0 <= n < |nodes|
      ensures RowRight(zones, nodes, resp, cap, exclude, watch, api, raws, n, r)
    {
      if r == CPU {
        ListsExactly(d, nodes, resp, cap, exclude, n, CPU);
        RowsPublished(zones, d, d.Final(Scanned(watch, api, raws)), n, CPU);
        if CPU in d.ListedNames(n) {
          CpuRowPublished(zones, d, nodes, resp, cap, exclude, watch, api, raws, n);
        }
      } else {
        OtherRowRight(zones, d, nodes, resp, cap, exclude, watch, api, raws, n, r);
      }
    }
  }

  /** The built aggregator lists at a node exactly what the inputs say. */
  lemma {:induction false} ListsExactly(d: NodeData, nodes: seq<TopologyNode>, resp: AllocatableResources,
                                        cap: map<int, map<string, int>>, exclude: set<string>, n: int, r: string)
    requires Built(d, nodes, resp, cap, exclude)
    ensures r in d.ListedNames(n) <==> Lists(nodes, resp, exclude, n, r)
  {
    hide Built, IsRecorded, Recorded;
    BuiltInputs(d, nodes, resp, cap, exclude);
    AllocatableIsRecorded(d, nodes, resp, cap, exclude, n, r);
  }

  /** Inputs that crash: a pod that was given a GPU keeps holding it after the operator excluded GPUs. */
  lemma {:induction false} ExcludedGpuCrashes(api: ApiAnswers)
    requires forall namespace, name :: api(namespace, name).Some?
    ensures
      var gpu := ContainerDevices("gpu", ["a"], Some([0]));
      var nodes, resp := [TopologyNode(0, [], [])], AllocatableResources([gpu], [], []);
      var raws := [RawPod("p", "ns", [RawContainer("c", [], [gpu], [])])];
      && GoodMachine(nodes, resp) && NoCpuDevices(raws) && Answered(api, raws)
      && !NoneCrashing(nodes, resp, {"gpu"}, "*", api, raws)
  {
    hide FlatMap, LastWins;
    var gpu := ContainerDevices("gpu", ["a"], Some([0]));
    var node, c := TopologyNode(0, [], []), RawContainer("c", [], [gpu], []);
    var pod := RawPod("p", "ns", [c]);
    var h := ("gpu", "a");
    FlatMapOne(Same, []);
    FlatMapOne(Processors, node);
    FlatMapOne(RawHoldsPod("*", api), pod);
    FlatMapOne(RawHoldsContainer(GuaranteedBy(api, pod)), c);
    FlatMapOne(RawHoldsDevice, gpu);
    FlatMapOne(Named("gpu"), "a");
    FlatMapMember(RawHoldsPod("*", api), [pod], h);
    assert HoldsDevice(pod) by { assert pod.containers[0].devices != []; }
    assert h in RawHeld("*", api, [pod]);
    FlatMapOne(DevicePairsOf, gpu);
    FlatMapOne(Spread(gpu), 0);
    var pairs := DevicePairs([gpu]);
    assert pairs == [(h, 0)];
    LastWinsUnanimous(pairs, h, 0);
    assert LocatedAt([node], AllocatableResources([gpu], [], []), h, 0);
  }
}
