/** What the indexes promise each other: the device index agrees with the allocatable counts, at most as many IDs are
    indexed to a node as were counted there, and neither depends on the order in which CPU groups were visited. */
module IndexFacts {
  import opened Common
  import opened Accumulate
  import opened Decimal
  import opened PodResourcesApi
  import opened Indexes

  predicate Lists(d: ContainerDevices, name: string, id: string, n: int) {
    d.resourceName == name && id in d.deviceIds && n in NodesOf(d.topology)
  }

  predicate ListsAt(d: ContainerDevices, name: string, n: int) {
    d.resourceName == name && n in NodesOf(d.topology)
  }

  lemma {:induction false} PairOfDevice(d: ContainerDevices, name: string, id: string, n: int)
    ensures ((name, id), n) in DevicePairsOf(d) <==> Lists(d, name, id, n)
  {
    var nodes := NodesOf(d.topology);
    FlatMapMember(Spread(d), nodes, ((name, id), n));
    if Lists(d, name, id, n) {
      var j :| 0 <= j < |nodes| && nodes[j] == n;
      var k :| 0 <= k < |d.deviceIds| && d.deviceIds[k] == id;
      assert AtNode(name, d.deviceIds, n)[k] == ((name, id), n);
      assert ((name, id), n) in Spread(d)(nodes[j]);
    }
  }

  lemma {:induction false} PairOfDevices(devs: seq<ContainerDevices>, name: string, id: string, n: int)
    ensures ((name, id), n) in DevicePairs(devs) <==> exists i :: 0 <= i < |devs| && Lists(devs[i], name, id, n)
  {
    FlatMapMember(DevicePairsOf, devs, ((name, id), n));
    forall i | 0 <= i < |devs|
      ensures ((name, id), n) in DevicePairsOf(devs[i]) <==> Lists(devs[i], name, id, n)
    {
      PairOfDevice(devs[i], name, id, n);
    }
  }

  lemma {:induction false} CountAtTotal(name: string, amount: nat, nodes: seq<int>, n: int, r: string)
    ensures Total(FlatMap(CountAt(name, amount), nodes), (n, r)) >= if r == name && n in nodes then amount else 0
    ensures r != name || n !in nodes ==> Total(FlatMap(CountAt(name, amount), nodes), (n, r)) == 0
    ensures Mentions(FlatMap(CountAt(name, amount), nodes), (n, r)) <==> r == name && n in nodes
  {
    hide FlatMap, Total, Mentions;
    var f := CountAt(name, amount);
    if nodes == [] {
      FlatMapNone(f, [], nodes);
      TotalOfNone((n, r));
    } else {
      var front, last := nodes[..|nodes| - 1], nodes[|nodes| - 1];
      assert nodes == front + [last];
      CountAtTotal(name, amount, front, n, r);
      FlatMapSnoc(f, front, last);
      TotalAppend(FlatMap(f, front), f(last), (n, r));
      TotalOfOne((last, name), amount, (n, r));
      MentionsAppend(FlatMap(f, front), f(last), (n, r));
    }
  }

  lemma {:induction false} TotalOfNone<K>(k: K)
    ensures Total<K>([], k) == 0 && !Mentions<K, int>([], k)
  {
  }

  lemma {:induction false} TotalOfOne<K>(key: K, amount: int, k: K)
    ensures Total([(key, amount)], k) == (if key == k then amount else 0)
    ensures Mentions([(key, amount)], k) <==> key == k
  {
  }

  lemma {:induction false} MentionsAppend<K, V>(a: seq<(K, V)>, b: seq<(K, V)>, k: K)
    ensures Mentions(a + b, k) <==> Mentions(a, k) || Mentions(b, k)
  {
    if Mentions(a, k) {
      var i :| 0 <= i < |a| && a[i].0 == k;
      assert (a + b)[i].0 == k;
    }
    if Mentions(b, k) {
      var i :| 0 <= i < |b| && b[i].0 == k;
      assert (a + b)[|a| + i].0 == k;
    }
  }

  /** The device IDs of a resource that some device lists at node n. */
  ghost function IdsAt(devs: seq<ContainerDevices>, name: string, n: int): set<string> {
    if devs == [] then {}
    else
      var earlier := IdsAt(devs[..|devs| - 1], name, n);
      var last := devs[|devs| - 1];
      if ListsAt(last, name, n) then earlier + SetOf(last.deviceIds) else earlier
  }

  lemma {:induction false} IdsAtMember(devs: seq<ContainerDevices>, name: string, n: int, id: string)
    ensures id in IdsAt(devs, name, n) <==> exists i :: 0 <= i < |devs| && Lists(devs[i], name, id, n)
  {
    if devs != [] {
      var front := devs[..|devs| - 1];
      IdsAtMember(front, name, n, id);
      if id in IdsAt(front, name, n) {
        var i :| 0 <= i < |front| && Lists(front[i], name, id, n);
        assert Lists(devs[i], name, id, n);
      }
    }
  }

  lemma {:induction false} CountPairsLast(devs: seq<ContainerDevices>, n: int, r: string)
    requires devs != []
    ensures
      var front, d := devs[..|devs| - 1], devs[|devs| - 1];
      && Total(CountPairs(devs), (n, r)) == Total(CountPairs(front), (n, r)) + Total(CountPairsOf(d), (n, r))
      && (Mentions(CountPairs(devs), (n, r)) <==> Mentions(CountPairs(front), (n, r)) || Mentions(CountPairsOf(d), (n, r)))
  {
    var front, d := devs[..|devs| - 1], devs[|devs| - 1];
    assert devs == front + [d];
    FlatMapSnoc(CountPairsOf, front, d);
    TotalAppend(CountPairs(front), CountPairsOf(d), (n, r));
    MentionsAppend(CountPairs(front), CountPairsOf(d), (n, r));
  }

  /** Pigeonhole: the distinct IDs listed at a node are at most the amount counted there. */
  lemma {:induction false} IdsAtMostCount(devs: seq<ContainerDevices>, name: string, n: int)
    ensures |IdsAt(devs, name, n)| <= Total(CountPairs(devs), (n, name))
    ensures IdsAt(devs, name, n) != {} ==> Mentions(CountPairs(devs), (n, name))
  {
    if devs != [] {
      var front, d := devs[..|devs| - 1], devs[|devs| - 1];
      IdsAtMostCount(front, name, n);
      CountPairsLast(devs, n, name);
      CountAtTotal(d.resourceName, |d.deviceIds|, NodesOf(d.topology), n, name);
      if ListsAt(d, name, n) {
        SetOfCard(d.deviceIds);
        UnionCard(IdsAt(front, name, n), SetOf(d.deviceIds));
      } else {
        assert IdsAt(devs, name, n) == IdsAt(front, name, n);
      }
    }
  }

  lemma {:induction false} UnionCard<T>(a: set<T>, b: set<T>)
    ensures |a + b| <= |a| + |b|
  {
  }

  /** Two-index agreement: a device indexed to node n was counted at n, with a positive amount. */
  lemma {:induction false} IndexedIsCounted(devs: seq<ContainerDevices>, name: string, id: string)
    requires (name, id) in LastWins(DevicePairs(devs))
    ensures
      var n := LastWins(DevicePairs(devs))[(name, id)];
      id in IdsAt(devs, name, n) && Mentions(CountPairs(devs), (n, name)) && Total(CountPairs(devs), (n, name)) >= 1
  {
    var n := LastWins(DevicePairs(devs))[(name, id)];
    LastWinsMember(DevicePairs(devs), (name, id));
    PairOfDevices(devs, name, id, n);
    IdsAtMember(devs, name, n, id);
    IdsAtMostCount(devs, name, n);
    SubsetCard({id}, IdsAt(devs, name, n));
  }

  lemma {:induction false} BlockTotals(blocks: seq<ContainerMemory>, n: int, r: string)
    ensures Total(BlockPairs(blocks), (n, r)) >= 0
    ensures (forall i :: 0 <= i < |blocks| ==> blocks[i].memoryType != r) ==> Total(BlockPairs(blocks), (n, r)) == 0
    ensures (forall i :: 0 <= i < |blocks| ==> blocks[i].memoryType != r) ==> !Mentions(BlockPairs(blocks), (n, r))
  {
    if blocks != [] {
      var front, b := blocks[..|blocks| - 1], blocks[|blocks| - 1];
      assert blocks == front + [b];
      BlockTotals(front, n, r);
      FlatMapSnoc(BlockPairsOf, front, b);
      TotalAppend(BlockPairs(front), BlockPairsOf(b), (n, r));
      MentionsAppend(BlockPairs(front), BlockPairsOf(b), (n, r));
      CountAtTotal(b.memoryType, b.size, NodesOf(b.topology), n, r);
    }
  }

  // ---- CPU groups ----

  /** The CPUs that the topology places at node n, in the order they are listed. */
  function PlacedAt(nodes: seq<TopologyNode>, cpuIds: seq<int>, n: int): seq<string> {
    ValuesFor(FlatMap(Placed(CoreToNode(nodes)), cpuIds), n)
  }

  lemma {:induction false} PlacedPair(m: map<int, int>, cpuIds: seq<int>, n: int, id: string)
    ensures (n, id) in FlatMap(Placed(m), cpuIds)
       <==> exists i :: 0 <= i < |cpuIds| && cpuIds[i] in m && m[cpuIds[i]] == n && FormatInt(cpuIds[i]) == id
  {
    FlatMapMember(Placed(m), cpuIds, (n, id));
  }

  lemma {:induction false} GroupHas(nodes: seq<TopologyNode>, cpuIds: seq<int>, n: int)
    ensures
      var groups := CpuGroups(nodes, cpuIds);
      && (n in groups <==> PlacedAt(nodes, cpuIds, n) != [])
      && (n in groups ==> groups[n] == PlacedAt(nodes, cpuIds, n))
  {
    var pairs := FlatMap(Placed(CoreToNode(nodes)), cpuIds);
    GroupByValues(pairs, n);
  }

  /** A CPU ID stands in the group of node n exactly when it is allocatable and the topology places it at n. */
  lemma {:induction false} GroupMember(nodes: seq<TopologyNode>, cpuIds: seq<int>, n: int, id: string)
    ensures
      var m := CoreToNode(nodes);
      id in PlacedAt(nodes, cpuIds, n) <==>
        exists i :: 0 <= i < |cpuIds| && cpuIds[i] in m && m[cpuIds[i]] == n && FormatInt(cpuIds[i]) == id
  {
    var m := CoreToNode(nodes);
    ValuesForMember(FlatMap(Placed(m), cpuIds), n, id);
    PlacedPair(m, cpuIds, n, id);
  }

  /** Groups of different nodes share no CPU. */
  lemma {:induction false} GroupsDisjoint(nodes: seq<TopologyNode>, cpuIds: seq<int>, n: int, k: int, id: string)
    requires id in PlacedAt(nodes, cpuIds, n) && id in PlacedAt(nodes, cpuIds, k)
    ensures n == k
  {
    var m := CoreToNode(nodes);
    GroupMember(nodes, cpuIds, n, id);
    GroupMember(nodes, cpuIds, k, id);
    var i :| 0 <= i < |cpuIds| && cpuIds[i] in m && m[cpuIds[i]] == n && FormatInt(cpuIds[i]) == id;
    var j :| 0 <= j < |cpuIds| && cpuIds[j] in m && m[cpuIds[j]] == k && FormatInt(cpuIds[j]) == id;
    FormatInjective(cpuIds[i], cpuIds[j]);
  }

  lemma {:induction false} GroupDeviceLists(groups: map<int, seq<string>>, order: seq<int>, name: string, id: string, n: int)
    ensures (exists i :: 0 <= i < |GroupDevices(groups, order)| && Lists(GroupDevices(groups, order)[i], name, id, n))
       <==> name == CPU && n in order && n in groups && id in groups[n]
  {
    var devs := GroupDevices(groups, order);
    if i :| 0 <= i < |devs| && Lists(devs[i], name, id, n) {
      FlatMapMember(GroupDevice(groups), order, devs[i]);
    }
    if name == CPU && n in order && n in groups && id in groups[n] {
      var j :| 0 <= j < |order| && order[j] == n;
      var d := ContainerDevices(CPU, groups[n], Some([n]));
      assert d in GroupDevice(groups)(order[j]);
      FlatMapMember(GroupDevice(groups), order, d);
      var i :| 0 <= i < |devs| && devs[i] == d;
      assert n in [n];
      assert Lists(devs[i], name, id, n);
    }
  }

  /** Looking a device up in the finished index: a CPU group wins over the raw devices, and there is at most one. */
  lemma {:induction false} IndexLookup(raw: seq<ContainerDevices>, nodes: seq<TopologyNode>, cpuIds: seq<int>, devs: seq<ContainerDevices>,
                    name: string, id: string, n: int)
    requires WithGroups(raw, CpuGroups(nodes, cpuIds), devs)
    ensures name == CPU && id in PlacedAt(nodes, cpuIds, n) ==> Get(LastWins(DevicePairs(devs)), (name, id)) == Some(n)
    ensures (name != CPU || forall k :: id !in PlacedAt(nodes, cpuIds, k))
      ==> Get(LastWins(DevicePairs(devs)), (name, id)) == Get(LastWins(DevicePairs(raw)), (name, id))
  {
    hide FlatMap, LastWins, GroupBy, PlacedAt, Lists;
    var groups := CpuGroups(nodes, cpuIds);
    var order :| Visits(order, groups.Keys) && devs == raw + GroupDevices(groups, order);
    var added := GroupDevices(groups, order);
    FlatMapAppend(DevicePairsOf, raw, added);
    LastWinsAppend(DevicePairs(raw), DevicePairs(added), (name, id));
    forall k
      ensures ((name, id), k) in DevicePairs(added) <==> name == CPU && id in PlacedAt(nodes, cpuIds, k)
    {
      PairOfDevices(added, name, id, k);
      GroupDeviceLists(groups, order, name, id, k);
      GroupHas(nodes, cpuIds, k);
    }
    LastWinsMember(DevicePairs(added), (name, id));
    if (name, id) in LastWins(DevicePairs(added)) {
      var v := LastWins(DevicePairs(added))[(name, id)];
      assert ((name, id), v) in DevicePairs(added);
      assert name == CPU && id in PlacedAt(nodes, cpuIds, v);
    }
    if (name, id) in LastWins(DevicePairs(added)) && id in PlacedAt(nodes, cpuIds, n) {
      GroupsDisjoint(nodes, cpuIds, n, LastWins(DevicePairs(added))[(name, id)], id);
    }
    if name == CPU && id in PlacedAt(nodes, cpuIds, n) {
      var i :| 0 <= i < |DevicePairs(added)| && DevicePairs(added)[i] == ((name, id), n);
      assert DevicePairs(added)[i].0 == (name, id);
    }
  }

  // ---- The visiting order of the CPU groups leaves no trace ----

  lemma {:induction false} VisitCounts(order: seq<int>, keys: set<int>, x: int)
    requires Visits(order, keys)
    ensures multiset(order)[x] == if x in keys then 1 else 0
  {
    if x in keys {
      var i :| 0 <= i < |order| && order[i] == x;
      assert order == order[..i] + [x] + order[i + 1..];
      assert x !in order[..i] && x !in order[i + 1..];
    }
  }

  lemma {:induction false} SameVisits(o1: seq<int>, o2: seq<int>, keys: set<int>)
    requires Visits(o1, keys) && Visits(o2, keys)
    ensures multiset(o1) == multiset(o2)
  {
    forall x
      ensures multiset(o1)[x] == multiset(o2)[x]
    {
      VisitCounts(o1, keys, x);
      VisitCounts(o2, keys, x);
    }
  }

  lemma {:induction false} TotalPermutes<K>(a: seq<(K, int)>, b: seq<(K, int)>, k: K)
    requires multiset(a) == multiset(b)
    ensures Total(a, k) == Total(b, k)
    decreases |a|
  {
    if a == [] {
      NoneInPermutation(a, b);
    } else {
      var last := a[|a| - 1];
      var i := LastInPermutation(a, b);
      TotalPermutes(a[..|a| - 1], b[..i] + b[i + 1..], k);
      TotalAppend(b[..i], b[i + 1..], k);
      TotalAppend(b[..i] + [last], b[i + 1..], k);
      TotalAppend(b[..i], [last], k);
      TotalAppend(a[..|a| - 1], [last], k);
      assert a == a[..|a| - 1] + [last];
    }
  }

  lemma {:induction false} TallyPermutes<K(!new)>(a: seq<(K, int)>, b: seq<(K, int)>)
    requires multiset(a) == multiset(b)
    ensures Tally(a) == Tally(b)
  {
    hide Tally, Total, Mentions;
    forall k
      ensures Get(Tally(a), k) == Get(Tally(b), k)
    {
      TallyTotal(a, k);
      TallyTotal(b, k);
      TotalPermutes(a, b, k);
      if Mentions(a, k) {
        MentionsPermutes(a, b, k);
      } else if Mentions(b, k) {
        MentionsPermutes(b, a, k);
      }
    }
    SameLookups(Tally(a), Tally(b));
  }

  lemma {:induction false} MentionsPermutes<K, V>(a: seq<(K, V)>, b: seq<(K, V)>, k: K)
    requires multiset(a) == multiset(b) && Mentions(a, k)
    ensures Mentions(b, k)
  {
    var i :| 0 <= i < |a| && a[i].0 == k;
    assert a[i] in multiset(a);
    assert a[i] in multiset(b);
  }
}
