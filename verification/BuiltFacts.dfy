/** Results that rest on how the aggregator was built: what Allocatable is, that the index agrees with the counters,
    exactly when the replay crashes, and the device bounds. */
module BuiltFacts {
  import opened Common
  import opened Accumulate
  import opened PodResourcesApi
  import opened Indexes
  import opened IndexFacts
  import opened Ledger
  import opened Aggregator
  import opened Accounting

  // ---- Allocatable ----

  lemma {:induction false} GroupTotals(groups: map<int, seq<string>>, order: seq<int>, n: int, r: string)
    requires Distinct(order) && forall i :: 0 <= i < |order| ==> order[i] in groups
    ensures
      var pairs := CountPairs(GroupDevices(groups, order));
      && Total(pairs, (n, r)) == (if r == CPU && n in order then |groups[n]| else 0)
      && (Mentions(pairs, (n, r)) <==> r == CPU && n in order)
  {
    hide FlatMap, Total, Mentions;
    if order == [] {
      FlatMapNone(GroupDevice(groups), [], order);
      FlatMapNone(CountPairsOf, [], GroupDevices(groups, order));
      TotalOfNone((n, r));
    } else {
      var front, k := order[..|order| - 1], order[|order| - 1];
      assert order == front + [k];
      GroupTotals(groups, front, n, r);
      var d := ContainerDevices(CPU, groups[k], Some([k]));
      FlatMapSnoc(GroupDevice(groups), front, k);
      FlatMapSnoc(CountPairsOf, GroupDevices(groups, front), d);
      TotalAppend(CountPairs(GroupDevices(groups, front)), CountPairsOf(d), (n, r));
      MentionsAppend(CountPairs(GroupDevices(groups, front)), CountPairsOf(d), (n, r));
      SingleNodeCount(CPU, |groups[k]|, k, n, r);
      assert k !in front;
    }
  }

  lemma {:induction false} SingleNodeCount(name: string, amount: nat, k: int, n: int, r: string)
    ensures
      var pairs := FlatMap(CountAt(name, amount), [k]);
      Total(pairs, (n, r)) == (if (n, r) == (k, name) then amount else 0) && (Mentions(pairs, (n, r)) <==> (n, r) == (k, name))
  {
  }

  /** The exact amount the inputs record for a resource at a node. */
  function Recorded(nodes: seq<TopologyNode>, resp: AllocatableResources, n: int, r: string): int {
    Total(AmountPairs(resp.devices, resp.memory), (n, r)) + if r == CPU then |PlacedAt(nodes, resp.cpuIds, n)| else 0
  }

  ghost predicate IsRecorded(nodes: seq<TopologyNode>, resp: AllocatableResources, n: int, r: string) {
    Mentions(AmountPairs(resp.devices, resp.memory), (n, r)) || (r == CPU && PlacedAt(nodes, resp.cpuIds, n) != [])
  }

  lemma {:induction false} AmountsWithGroups(nodes: seq<TopologyNode>, resp: AllocatableResources, devs: seq<ContainerDevices>, n: int, r: string)
    requires WithGroups(resp.devices, CpuGroups(nodes, resp.cpuIds), devs)
    ensures Total(AmountPairs(devs, resp.memory), (n, r)) == Recorded(nodes, resp, n, r)
    ensures Mentions(AmountPairs(devs, resp.memory), (n, r)) <==> IsRecorded(nodes, resp, n, r)
  {
    hide FlatMap, Total, Mentions, GroupBy;
    var groups := CpuGroups(nodes, resp.cpuIds);
    var order :| Visits(order, groups.Keys) && devs == resp.devices + GroupDevices(groups, order);
    var added := GroupDevices(groups, order);
    FlatMapAppend(CountPairsOf, resp.devices, added);
    GroupTotals(groups, order, n, r);
    GroupHas(nodes, resp.cpuIds, n);
    TotalAppend(CountPairs(devs), BlockPairs(resp.memory), (n, r));
    TotalAppend(CountPairs(resp.devices), BlockPairs(resp.memory), (n, r));
    TotalAppend(CountPairs(resp.devices), CountPairs(added), (n, r));
    MentionsAppend(CountPairs(devs), BlockPairs(resp.memory), (n, r));
    MentionsAppend(CountPairs(resp.devices), BlockPairs(resp.memory), (n, r));
    MentionsAppend(CountPairs(resp.devices), CountPairs(added), (n, r));
  }

  /** Allocatable is what the inputs record, added up in int64; a resource has an entry exactly when recorded. */
  lemma {:induction false} AllocatableIsRecorded(d: NodeData, nodes: seq<TopologyNode>, resp: AllocatableResources,
                              cap: map<int, map<string, int>>, exclude: set<string>, n: int, r: string)
    requires Built(d, nodes, resp, cap, exclude)
    ensures d.AllocatableOf(n, r) == Wrap64(Recorded(nodes, resp, n, r))
    ensures n in d.alloc && r in d.alloc[n] <==> IsRecorded(nodes, resp, n, r)
    ensures Recorded(nodes, resp, n, r) >= 0
    ensures n in d.alloc <==> exists s :: IsRecorded(nodes, resp, n, s)
  {
    hide FlatMap, Total, Mentions, Tally, LastWins, GroupBy, Recorded, IsRecorded, Wrap64, CpuGroups, WithGroups;
    var devs :| WithGroups(resp.devices, CpuGroups(nodes, resp.cpuIds), devs) && BuiltFrom(d, nodes, devs, resp.memory, cap, exclude);
    forall s
      ensures n in d.alloc && s in d.alloc[n] <==> IsRecorded(nodes, resp, n, s)
    {
      TallyTotal(AmountPairs(devs, resp.memory), (n, s));
      AmountsWithGroups(nodes, resp, devs, n, s);
      assert (n, s) in Flat(d.alloc) <==> n in d.alloc && s in d.alloc[n];
    }
    AmountsWithGroups(nodes, resp, devs, n, r);
    TallyTotal(AmountPairs(devs, resp.memory), (n, r));
    AmountNonNegative(devs, resp.memory, n, r);
    assert (n, r) in Flat(d.alloc) ==> Flat(d.alloc)[(n, r)] == d.alloc[n][r];
    if n in d.alloc {
      assert d.alloc[n] != map[];
      var s :| s in d.alloc[n];
      assert IsRecorded(nodes, resp, n, s);
    }
    assert Wrap64(0) == 0;
  }

  lemma {:induction false} AmountNonNegative(devs: seq<ContainerDevices>, blocks: seq<ContainerMemory>, n: int, r: string)
    ensures Total(AmountPairs(devs, blocks), (n, r)) >= Total(CountPairs(devs), (n, r)) >= 0
  {
    hide FlatMap, Total;
    TotalAppend(CountPairs(devs), BlockPairs(blocks), (n, r));
    IdsAtMostCount(devs, r, n);
    BlockTotals(blocks, n, r);
  }

  /** Allocatable equals the recorded amount exactly when that amount fits in an int64. */
  lemma {:induction false} AllocatableExactWhenItFits(d: NodeData, nodes: seq<TopologyNode>, resp: AllocatableResources,
                                   cap: map<int, map<string, int>>, exclude: set<string>, n: int, r: string)
    requires Built(d, nodes, resp, cap, exclude)
    ensures d.AllocatableOf(n, r) == Recorded(nodes, resp, n, r) <==> Recorded(nodes, resp, n, r) < TWO_TO_63
  {
    AllocatableIsRecorded(d, nodes, resp, cap, exclude, n, r);
  }

  /** When the memory recorded per node and type fits in an int64, no memory counter starts negative. */
  lemma {:induction false} MemoryStarts(d: NodeData, nodes: seq<TopologyNode>, resp: AllocatableResources,
                     cap: map<int, map<string, int>>, exclude: set<string>)
    requires Built(d, nodes, resp, cap, exclude)
    requires forall n, r :: IsMemoryLike(r) ==> Recorded(nodes, resp, n, r) < TWO_TO_63
    ensures MemoryStartsNonNegative(d)
  {
    hide Recorded, Built, Wrap64;
    forall k | k in d.Start() && IsMemoryLike(k.1)
      ensures d.Start()[k] >= 0
    {
      StartHas(d, k.0, k.1);
      AllocatableIsRecorded(d, nodes, resp, cap, exclude, k.0, k.1);
    }
  }

  // ---- The index against the counters ----

  /** Two-index agreement: where the device index points, there is an allocatable entry that counted the device. */
  lemma {:induction false} IndexedHasEntry(d: NodeData, nodes: seq<TopologyNode>, resp: AllocatableResources,
                        cap: map<int, map<string, int>>, exclude: set<string>, name: string, id: string)
    requires Built(d, nodes, resp, cap, exclude)
    requires name in d.index && id in d.index[name]
    ensures var n := d.index[name][id]; n in d.alloc && name in d.alloc[n] && Recorded(nodes, resp, n, name) >= 1
  {
    hide FlatMap, Total, Mentions, Tally, LastWins, GroupBy, Recorded, IsRecorded, CpuGroups, WithGroups, IdsAt;
    var devs :| WithGroups(resp.devices, CpuGroups(nodes, resp.cpuIds), devs) && BuiltFrom(d, nodes, devs, resp.memory, cap, exclude);
    var n := d.index[name][id];
    assert (name, id) in Flat(d.index) && Flat(d.index)[(name, id)] == n;
    IndexedIsCounted(devs, name, id);
    MentionsAppend(CountPairs(devs), BlockPairs(resp.memory), (n, name));
    AmountsWithGroups(nodes, resp, devs, n, name);
    AllocatableIsRecorded(d, nodes, resp, cap, exclude, n, name);
    AmountNonNegative(devs, resp.memory, n, name);
  }

  /** Exactly the indexed devices of a topology node whose resource is not excluded have a counter. */
  lemma {:induction false} IndexedHasCounter(d: NodeData, nodes: seq<TopologyNode>, resp: AllocatableResources,
                          cap: map<int, map<string, int>>, exclude: set<string>, name: string, id: string)
    requires Built(d, nodes, resp, cap, exclude)
    requires name in d.index && id in d.index[name] && 0 <= d.index[name][id] < |nodes|
    ensures (d.index[name][id], name) in d.Start() <==> name !in exclude
  {
    hide LastWins, FlatMap, Tally;
    IndexedHasEntry(d, nodes, resp, cap, exclude, name, id);
    StartHas(d, d.index[name][id], name);
  }

  /** A holding that the replay looks up to a topology node although its resource is excluded. */
  predicate ExcludedHolding(d: NodeData, h: (string, string)) {
    h.0 in d.exclude && h.0 in d.index && h.1 in d.index[h.0] && 0 <= d.index[h.0][h.1] < |d.nodes|
  }

  lemma {:induction false} HeldAtPositive(index: map<string, map<string, int>>, held: seq<(string, string)>, n: int, r: string)
    ensures HeldAt(index, held, n, r) > 0 <==> exists i :: 0 <= i < |held| && IndexedTo(index, held[i], n, r)
  {
    if held != [] {
      var front := held[..|held| - 1];
      HeldAtPositive(index, front, n, r);
      if HeldAt(index, front, n, r) > 0 {
        var i :| 0 <= i < |front| && IndexedTo(index, front[i], n, r);
        assert IndexedTo(index, held[i], n, r);
      }
    }
  }

  /** The replay crashes exactly when some pod holds an indexed ID of an excluded device or CPU resource. */
  lemma {:induction false} PanicsExactly(d: NodeData, nodes: seq<TopologyNode>, resp: AllocatableResources,
                      cap: map<int, map<string, int>>, exclude: set<string>, pods: seq<PodResources>)
    requires Built(d, nodes, resp, cap, exclude)
    ensures d.Panics(pods) <==> exists i :: 0 <= i < |Held(pods)| && ExcludedHolding(d, Held(pods)[i])
  {
    hide Built, FlatMap, HeldAt, ChargesOfPods, Held, NodeData.Start;
    assert d.nodes == nodes && d.exclude == exclude by { BuiltInputs(d, nodes, resp, cap, exclude); }
    var qs := ChargesOfPods(d.index, pods);
    if d.Panics(pods) {
      var q :| q in qs && Faults(d.Known(), d.Start().Keys, q);
      assert q in multiset(qs);
      UnitsOfPods(d.index, pods, q.node, q.name);
      HeldAtPositive(d.index, Held(pods), q.node, q.name);
      var i :| 0 <= i < |Held(pods)| && IndexedTo(d.index, Held(pods)[i], q.node, q.name);
      IndexedHasCounter(d, nodes, resp, cap, exclude, q.name, Held(pods)[i].1);
      assert ExcludedHolding(d, Held(pods)[i]);
    }
    if i :| 0 <= i < |Held(pods)| && ExcludedHolding(d, Held(pods)[i]) {
      var (name, id) := Held(pods)[i];
      var n := d.index[name][id];
      assert IndexedTo(d.index, Held(pods)[i], n, name);
      HeldAtPositive(d.index, Held(pods), n, name);
      UnitsOfPods(d.index, pods, n, name);
      assert Unit(n, name) in multiset(qs);
      IndexedHasCounter(d, nodes, resp, cap, exclude, name, id);
      assert Faults(d.Known(), d.Start().Keys, Unit(n, name));
    }
  }

  lemma {:induction false} BuiltInputs(d: NodeData, nodes: seq<TopologyNode>, resp: AllocatableResources,
                    cap: map<int, map<string, int>>, exclude: set<string>)
    requires Built(d, nodes, resp, cap, exclude)
    ensures d.nodes == nodes && d.exclude == exclude && d.memoryCapacity == cap
  {
  }

  // ---- Device bounds ----

  ghost function HeldIds(index: map<string, map<string, int>>, held: seq<(string, string)>, n: int, r: string): set<string> {
    set h | h in held && IndexedTo(index, h, n, r) :: h.1
  }

  lemma {:induction false} HeldIdsCount(index: map<string, map<string, int>>, held: seq<(string, string)>, n: int, r: string)
    requires Distinct(held)
    ensures |HeldIds(index, held, n, r)| == HeldAt(index, held, n, r)
  {
    if held != [] {
      var front, last := held[..|held| - 1], held[|held| - 1];
      HeldIdsCount(index, front, n, r);
      assert held == front + [last];
      var before := HeldIds(index, front, n, r);
      if IndexedTo(index, last, n, r) {
        assert last !in front;
        assert forall h :: h in front && IndexedTo(index, h, n, r) ==> h.1 != last.1;
        assert HeldIds(index, held, n, r) == before + {last.1};
      } else {
        assert HeldIds(index, held, n, r) == before;
      }
    }
  }

  /** Pigeonhole: holdings of different IDs at a counter are at most the amount recorded for it. */
  lemma {:induction false} HeldAtMostRecorded(d: NodeData, nodes: seq<TopologyNode>, resp: AllocatableResources,
                           cap: map<int, map<string, int>>, exclude: set<string>, held: seq<(string, string)>, n: int, r: string)
    requires Built(d, nodes, resp, cap, exclude) && Distinct(held)
    ensures HeldAt(d.index, held, n, r) <= Recorded(nodes, resp, n, r)
  {
    hide FlatMap, Total, Mentions, Tally, LastWins, GroupBy, Recorded, IsRecorded, CpuGroups, WithGroups, IdsAt, HeldAt;
    var devs :| WithGroups(resp.devices, CpuGroups(nodes, resp.cpuIds), devs) && BuiltFrom(d, nodes, devs, resp.memory, cap, exclude);
    HeldIdsCount(d.index, held, n, r);
    forall id | id in HeldIds(d.index, held, n, r)
      ensures id in IdsAt(devs, r, n)
    {
      assert (r, id) in Flat(d.index) && Flat(d.index)[(r, id)] == n;
      IndexedIsCounted(devs, r, id);
    }
    SubsetCard(HeldIds(d.index, held, n, r), IdsAt(devs, r, n));
    IdsAtMostCount(devs, r, n);
    AmountNonNegative(devs, resp.memory, n, r);
    AmountsWithGroups(nodes, resp, devs, n, r);
  }

  /** Devices and CPUs: when no ID is held twice, 0 <= Available <= Allocatable <= Capacity after every step. */
  lemma {:induction false} DevicesBounded(d: NodeData, nodes: seq<TopologyNode>, resp: AllocatableResources,
                       cap: map<int, map<string, int>>, exclude: set<string>, pods: seq<PodResources>, n: int, r: string, k: nat)
    requires Built(d, nodes, resp, cap, exclude) && Distinct(Held(pods))
    requires (n, r) in d.Start() && !IsMemoryLike(r) && Recorded(nodes, resp, n, r) < TWO_TO_63
    requires k <= |ChargesOfPods(d.index, pods)|
    ensures
      var c := Replay(d.Known(), d.Start(), ChargesOfPods(d.index, pods)[..k]);
      0 <= c[(n, r)] <= d.AllocatableOf(n, r) <= d.CapacityOf(n, r)
  {
    hide Built, FlatMap, HeldAt, Held, NodeData.Start, Recorded, Replay, ChargesOfPods, Distinct;
    var qs := ChargesOfPods(d.index, pods);
    ChargesTyped(d.index, pods);
    StartHas(d, n, r);
    assert d.nodes == nodes by { BuiltInputs(d, nodes, resp, cap, exclude); }
    ReplayCountsUnits(d.Known(), d.Start(), qs[..k], n, r);
    PrefixCount(qs, k, Unit(n, r));
    UnitsOfPods(d.index, pods, n, r);
    HeldAtMostRecorded(d, nodes, resp, cap, exclude, Held(pods), n, r);
    AllocatableIsRecorded(d, nodes, resp, cap, exclude, n, r);
  }

  lemma {:induction false} PrefixCount(qs: seq<Charge>, k: nat, q: Charge)
    requires k <= |qs|
    ensures multiset(qs[..k])[q] <= multiset(qs)[q]
  {
    assert qs == qs[..k] + qs[k..];
  }
}
