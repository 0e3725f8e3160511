/** The published device rows in terms of the inputs alone: where the allocatable response places a held ID, how many
    watched holdings a node has, and exactly when a publication crashes. */
module DeviceRows {
  import opened Common
  import opened Accumulate
  import opened PodResourcesApi
  import opened Indexes
  import opened IndexFacts
  import opened Ledger
  import opened Aggregator
  import opened Accounting
  import opened BuiltFacts
  import opened Scanner
  import opened EndToEnd
  import opened Published

  /** Where the inputs place a held ID: a CPU of the allocatable list where the topology has it, any other ID at the
      last node of the last device that lists it. */
  ghost predicate LocatedAt(nodes: seq<TopologyNode>, resp: AllocatableResources, h: (string, string), n: int) {
    if h.0 == CPU && exists k :: h.1 in PlacedAt(nodes, resp.cpuIds, k) then h.1 in PlacedAt(nodes, resp.cpuIds, n)
    else Get(LastWins(DevicePairs(resp.devices)), h) == Some(n)
  }

  /** The built index agrees with the inputs, whatever order the CPU groups were visited in. */
  lemma {:induction false} IndexedIsLocated(d: NodeData, nodes: seq<TopologyNode>, resp: AllocatableResources,
                                            cap: map<int, map<string, int>>, exclude: set<string>, h: (string, string), n: int)
    requires Built(d, nodes, resp, cap, exclude)
    ensures IndexedTo(d.index, h, n, h.0) <==> LocatedAt(nodes, resp, h, n)
  {
    hide FlatMap, Tally, LastWins, GroupBy, CpuGroups, WithGroups, PlacedAt;
    var devs :| WithGroups(resp.devices, CpuGroups(nodes, resp.cpuIds), devs) && BuiltFrom(d, nodes, devs, resp.memory, cap, exclude);
    FlatEntry(d.index, h.0, h.1);
    if h.0 == CPU && exists k :: h.1 in PlacedAt(nodes, resp.cpuIds, k) {
      var k :| h.1 in PlacedAt(nodes, resp.cpuIds, k);
      IndexLookup(resp.devices, nodes, resp.cpuIds, devs, h.0, h.1, k);
      if h.1 in PlacedAt(nodes, resp.cpuIds, n) {
        GroupsDisjoint(nodes, resp.cpuIds, n, k, h.1);
      }
    } else {
      IndexLookup(resp.devices, nodes, resp.cpuIds, devs, h.0, h.1, n);
    }
  }

  /** How many holdings of resource r the inputs place at node n. */
  ghost function HoldingsAt(nodes: seq<TopologyNode>, resp: AllocatableResources, held: seq<(string, string)>, n: int, r: string): nat {
    if held == [] then 0
    else
      var h := held[|held| - 1];
      HoldingsAt(nodes, resp, held[..|held| - 1], n, r) + if h.0 == r && LocatedAt(nodes, resp, h, n) then 1 else 0
  }

  lemma {:induction false} HeldIsHoldings(d: NodeData, nodes: seq<TopologyNode>, resp: AllocatableResources,
                                          cap: map<int, map<string, int>>, exclude: set<string>, held: seq<(string, string)>, n: int, r: string)
    requires Built(d, nodes, resp, cap, exclude)
    ensures HeldAt(d.index, held, n, r) == HoldingsAt(nodes, resp, held, n, r)
  {
    hide Built, LocatedAt;
    if held != [] {
      HeldIsHoldings(d, nodes, resp, cap, exclude, held[..|held| - 1], n, r);
      IndexedIsLocated(d, nodes, resp, cap, exclude, held[|held| - 1], n);
    }
  }

  /** A device row in terms of the inputs alone: Allocatable and Capacity are the recorded amount, as an int64, and
      Available is short by the watched holdings placed at the node. */
  ghost function DeviceRow(nodes: seq<TopologyNode>, resp: AllocatableResources, watch: string, api: ApiAnswers, raws: seq<RawPod>,
                           n: int, r: string): ResourceRow {
    var allocatable := Wrap64(Recorded(nodes, resp, n, r));
    ResourceRow(r, allocatable - HoldingsAt(nodes, resp, RawHeld(watch, api, raws), n, r), allocatable, allocatable)
  }

  /** End to end for a device row. */
  lemma {:induction false} DeviceRowRight(zones: seq<Zone>, d: NodeData, nodes: seq<TopologyNode>, resp: AllocatableResources,
                                          cap: map<int, map<string, int>>, exclude: set<string>,
                                          watch: string, api: ApiAnswers, raws: seq<RawPod>, n: int, r: string)
    requires Built(d, nodes, resp, cap, exclude) && Renders(zones, d, d.Final(Scanned(watch, api, raws)))
    requires 0 <= n < |nodes| && r != CPU && !IsMemoryLike(r) && r !in exclude && IsRecorded(nodes, resp, n, r)
    ensures PublishedRow(zones, n, r) == Some(DeviceRow(nodes, resp, watch, api, raws, n, r))
  {
    hide Built, Renders, PublishedRow, RawHeld, Scanned, Recorded, IsRecorded, Wrap64, HeldAt, HoldingsAt;
    BuiltInputs(d, nodes, resp, cap, exclude);
    AllocatableIsRecorded(d, nodes, resp, cap, exclude, n, r);
    DeviceRowPublished(zones, d, watch, api, raws, n, r);
    HeldIsHoldings(d, nodes, resp, cap, exclude, RawHeld(watch, api, raws), n, r);
  }

  /** When no ID is held twice, a published device row has 0 <= Available <= Allocatable <= Capacity. */
  lemma {:induction false} DeviceRowBounded(d: NodeData, nodes: seq<TopologyNode>, resp: AllocatableResources,
                                            cap: map<int, map<string, int>>, exclude: set<string>,
                                            watch: string, api: ApiAnswers, raws: seq<RawPod>, n: int, r: string)
    requires Built(d, nodes, resp, cap, exclude) && Recorded(nodes, resp, n, r) < TWO_TO_63
    requires Distinct(RawHeld(watch, api, raws))
    ensures
      var row := DeviceRow(nodes, resp, watch, api, raws, n, r);
      0 <= row.available <= row.allocatable <= row.capacity
  {
    hide Built, RawHeld, Recorded, Wrap64, HeldAt, HoldingsAt, Distinct;
    AllocatableIsRecorded(d, nodes, resp, cap, exclude, n, r);
    FitsWrap(Recorded(nodes, resp, n, r));
    HeldAtMostRecorded(d, nodes, resp, cap, exclude, RawHeld(watch, api, raws), n, r);
    HeldIsHoldings(d, nodes, resp, cap, exclude, RawHeld(watch, api, raws), n, r);
  }

  lemma {:induction false} HoldingsPermute(nodes: seq<TopologyNode>, resp: AllocatableResources,
                                           a: seq<(string, string)>, b: seq<(string, string)>,
                                           n: int, r: string)
    requires multiset(a) == multiset(b)
    ensures HoldingsAt(nodes, resp, a, n, r) == HoldingsAt(nodes, resp, b, n, r)
    decreases |a|
  {
    hide LocatedAt;
    if a == [] {
      NoneInPermutation(a, b);
    } else {
      var last := a[|a| - 1];
      var i := LastInPermutation(a, b);
      HoldingsPermute(nodes, resp, a[..|a| - 1], b[..i] + b[i + 1..], n, r);
      HoldingsAppend(nodes, resp, b[..i], b[i + 1..], n, r);
      HoldingsAppend(nodes, resp, b[..i] + [last], b[i + 1..], n, r);
      assert (b[..i] + [last])[..i] == b[..i];
    }
  }

  lemma {:induction false} HoldingsAppend(nodes: seq<TopologyNode>, resp: AllocatableResources,
                                          a: seq<(string, string)>, b: seq<(string, string)>,
                                          n: int, r: string)
    ensures HoldingsAt(nodes, resp, a + b, n, r) == HoldingsAt(nodes, resp, a, n, r) + HoldingsAt(nodes, resp, b, n, r)
  {
    hide LocatedAt;
    if b == [] {
      assert a + b == a;
    } else {
      assert (a + b)[..|a + b| - 1] == a + b[..|b| - 1];
      HoldingsAppend(nodes, resp, a, b[..|b| - 1], n, r);
    }
  }

  // ---- Exactly which inputs crash a publication ----

  /** A holding of an excluded resource that the inputs place at a node of the topology. */
  ghost predicate Crashing(nodes: seq<TopologyNode>, resp: AllocatableResources, exclude: set<string>, h: (string, string)) {
    h.0 in exclude && exists n :: 0 <= n < |nodes| && LocatedAt(nodes, resp, h, n)
  }

  ghost predicate NoneCrashing(nodes: seq<TopologyNode>, resp: AllocatableResources, exclude: set<string>,
                               watch: string, api: ApiAnswers, raws: seq<RawPod>) {
    forall h :: h in RawHeld(watch, api, raws) ==> !Crashing(nodes, resp, exclude, h)
  }

  /** From raw pods: the replay crashes exactly when a watched pod holds an ID of an excluded resource that the inputs
      place at a node of the topology. */
  lemma {:induction false} CrashesExactly(d: NodeData, nodes: seq<TopologyNode>, resp: AllocatableResources,
                                          cap: map<int, map<string, int>>, exclude: set<string>,
                                          watch: string, api: ApiAnswers, raws: seq<RawPod>)
    requires Built(d, nodes, resp, cap, exclude)
    ensures d.Panics(Scanned(watch, api, raws)) <==> !NoneCrashing(nodes, resp, exclude, watch, api, raws)
  {
    hide Built, NodeData.Panics, RawHeld, Scanned, Held, LocatedAt;
    BuiltInputs(d, nodes, resp, cap, exclude);
    PanicsExactly(d, nodes, resp, cap, exclude, Scanned(watch, api, raws));
    ScannedHold(watch, api, raws);
    forall h: (string, string)
      ensures ExcludedHolding(d, h) <==> Crashing(nodes, resp, exclude, h)
    {
      CrashingHolding(d, nodes, resp, cap, exclude, h);
    }
  }

  lemma {:induction false} CrashingHolding(d: NodeData, nodes: seq<TopologyNode>, resp: AllocatableResources,
                                           cap: map<int, map<string, int>>, exclude: set<string>, h: (string, string))
    requires Built(d, nodes, resp, cap, exclude)
    ensures ExcludedHolding(d, h) <==> Crashing(nodes, resp, exclude, h)
  {
    hide Built, LocatedAt;
    BuiltInputs(d, nodes, resp, cap, exclude);
    forall n
      ensures IndexedTo(d.index, h, n, h.0) <==> LocatedAt(nodes, resp, h, n)
    {
      IndexedIsLocated(d, nodes, resp, cap, exclude, h, n);
    }
    if h.0 in d.index && h.1 in d.index[h.0] {
      assert IndexedTo(d.index, h, d.index[h.0][h.1], h.0);
    }
  }
}
