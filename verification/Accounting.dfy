/** What the final counters mean for any aggregator: exact device accounting, bounds after every step, insertion and
    order of pods, and exclusion. */
module Accounting {
  import opened Common
  import opened Decimal
  import opened PodResourcesApi
  import opened Ledger
  import opened LedgerOrder
  import opened Aggregator

  // ---- What pods hold ----

  function Named(name: string): string -> seq<(string, string)> {
    id => [(name, id)]
  }

  /** The (resource, ID) pairs a resource entry holds; memory entries hold no IDs. */
  function Holds(ri: ResourceInfo): seq<(string, string)> {
    if IsMemoryLike(ri.name) then [] else FlatMap(Named(ri.name), ri.data)
  }

  function HoldsContainer(c: ContainerResources): seq<(string, string)> {
    FlatMap(Holds, c.resources)
  }

  function HoldsPod(p: PodResources): seq<(string, string)> {
    FlatMap(HoldsContainer, p.containers)
  }

  /** Every device or CPU ID the pods hold, once per holding. */
  function Held(pods: seq<PodResources>): seq<(string, string)> {
    FlatMap(HoldsPod, pods)
  }

  function IndexedTo(index: map<string, map<string, int>>, h: (string, string), n: int, r: string): bool {
    h.0 == r && r in index && h.1 in index[r] && index[r][h.1] == n
  }

  /** How many holdings of resource r are of IDs the index places at node n. */
  function HeldAt(index: map<string, map<string, int>>, held: seq<(string, string)>, n: int, r: string): nat {
    if held == [] then 0
    else HeldAt(index, held[..|held| - 1], n, r) + if IndexedTo(index, held[|held| - 1], n, r) then 1 else 0
  }

  lemma {:induction false} HeldAtAppend(index: map<string, map<string, int>>, a: seq<(string, string)>, b: seq<(string, string)>,
                                        n: int, r: string)
    ensures HeldAt(index, a + b, n, r) == HeldAt(index, a, n, r) + HeldAt(index, b, n, r)
  {
    if b == [] {
      assert a + b == a;
    } else {
      assert (a + b)[..|a + b| - 1] == a + b[..|b| - 1];
      HeldAtAppend(index, a, b[..|b| - 1], n, r);
    }
  }

  lemma {:induction false} HeldAtOne(index: map<string, map<string, int>>, h: (string, string), n: int, r: string)
    ensures HeldAt(index, [h], n, r) == if IndexedTo(index, h, n, r) then 1 else 0
  {
  }

  /** Charges and holdings that match element by element match as a whole. */
  lemma {:induction false} UnitsAlign<T>(f: T -> seq<Charge>, g: T -> seq<(string, string)>, s: seq<T>,
                                         index: map<string, map<string, int>>, n: int, r: string)
    requires forall i :: 0 <= i < |s| ==> multiset(f(s[i]))[Unit(n, r)] == HeldAt(index, g(s[i]), n, r)
    ensures multiset(FlatMap(f, s))[Unit(n, r)] == HeldAt(index, FlatMap(g, s), n, r)
  {
    if s != [] {
      var front, last := s[..|s| - 1], s[|s| - 1];
      UnitsAlign(f, g, front, index, n, r);
      HeldAtAppend(index, FlatMap(g, front), g(last), n, r);
    }
  }

  lemma {:induction false} UnitsOfResource(index: map<string, map<string, int>>, ri: ResourceInfo, n: int, r: string)
    ensures multiset(ChargesOf(index)(ri))[Unit(n, r)] == HeldAt(index, Holds(ri), n, r)
  {
    if !IsMemoryLike(ri.name) {
      forall i | 0 <= i < |ri.data|
        ensures multiset(UnitFor(index, ri.name)(ri.data[i]))[Unit(n, r)] == HeldAt(index, Named(ri.name)(ri.data[i]), n, r)
      {
        HeldAtOne(index, (ri.name, ri.data[i]), n, r);
      }
      UnitsAlign(UnitFor(index, ri.name), Named(ri.name), ri.data, index, n, r);
    }
  }

  /** The device charges against a counter number the holdings indexed to it. */
  lemma {:induction false} UnitsOfPods(index: map<string, map<string, int>>, pods: seq<PodResources>, n: int, r: string)
    ensures multiset(ChargesOfPods(index, pods))[Unit(n, r)] == HeldAt(index, Held(pods), n, r)
  {
    hide FlatMap, HeldAt, UnitCharges, MemoryCharges, Holds;
    forall p | 0 <= p < |pods|
      ensures multiset(ChargesOfPod(index)(pods[p]))[Unit(n, r)] == HeldAt(index, HoldsPod(pods[p]), n, r)
    {
      var cs := pods[p].containers;
      forall c | 0 <= c < |cs|
        ensures multiset(ChargesOfContainer(index)(cs[c]))[Unit(n, r)] == HeldAt(index, HoldsContainer(cs[c]), n, r)
      {
        forall i | 0 <= i < |cs[c].resources|
          ensures multiset(ChargesOf(index)(cs[c].resources[i]))[Unit(n, r)] == HeldAt(index, Holds(cs[c].resources[i]), n, r)
        {
          UnitsOfResource(index, cs[c].resources[i], n, r);
        }
        UnitsAlign(ChargesOf(index), Holds, cs[c].resources, index, n, r);
      }
      UnitsAlign(ChargesOfContainer(index), HoldsContainer, cs, index, n, r);
    }
    UnitsAlign(ChargesOfPod(index), HoldsPod, pods, index, n, r);
  }

  // ---- Memory requests of pods ----

  /** Every memory entry with a readable size asks for a non-negative amount, as scanned pods do. */
  ghost predicate SizesNonNegative(pods: seq<PodResources>) {
    forall p, c, i :: 0 <= p < |pods| && 0 <= c < |pods[p].containers| && 0 <= i < |pods[p].containers[c].resources|
      ==> ReadableSizeNonNegative(pods[p].containers[c].resources[i])
  }

  predicate ReadableSizeNonNegative(ri: ResourceInfo) {
    IsMemoryLike(ri.name) && |ri.data| == 1 && ParseInt(ri.data[0]).Some? ==> ParseInt(ri.data[0]).value >= 0
  }

  lemma {:induction false} ChargesProper(index: map<string, map<string, int>>, pods: seq<PodResources>)
    requires SizesNonNegative(pods)
    ensures AllProper(ChargesOfPods(index, pods))
  {
    hide FlatMap, ParseInt;
    var qs := ChargesOfPods(index, pods);
    forall j | 0 <= j < |qs|
      ensures Proper(qs[j])
    {
      assert qs[j] in qs;
      FlatMapMember(ChargesOfPod(index), pods, qs[j]);
      var p :| 0 <= p < |pods| && qs[j] in ChargesOfPod(index)(pods[p]);
      FlatMapMember(ChargesOfContainer(index), pods[p].containers, qs[j]);
      var c :| 0 <= c < |pods[p].containers| && qs[j] in ChargesOfContainer(index)(pods[p].containers[c]);
      var rs := pods[p].containers[c].resources;
      FlatMapMember(ChargesOf(index), rs, qs[j]);
      var i :| 0 <= i < |rs| && qs[j] in ChargesOf(index)(rs[i]);
      assert ReadableSizeNonNegative(rs[i]);
      ChargeProper(index, rs[i], qs[j]);
    }
  }

  /** Whatever the sizes, only memory entries charge memory. */
  lemma {:induction false} ChargesTyped(index: map<string, map<string, int>>, pods: seq<PodResources>)
    ensures AllTyped(ChargesOfPods(index, pods))
  {
    hide FlatMap, ParseInt, IsMemoryLike;
    var qs := ChargesOfPods(index, pods);
    forall j | 0 <= j < |qs|
      ensures Typed(qs[j])
    {
      assert qs[j] in qs;
      FlatMapMember(ChargesOfPod(index), pods, qs[j]);
      var p :| 0 <= p < |pods| && qs[j] in ChargesOfPod(index)(pods[p]);
      FlatMapMember(ChargesOfContainer(index), pods[p].containers, qs[j]);
      var c :| 0 <= c < |pods[p].containers| && qs[j] in ChargesOfContainer(index)(pods[p].containers[c]);
      var rs := pods[p].containers[c].resources;
      FlatMapMember(ChargesOf(index), rs, qs[j]);
      var i :| 0 <= i < |rs| && qs[j] in ChargesOf(index)(rs[i]);
      FlatMapMember(UnitFor(index, rs[i].name), rs[i].data, qs[j]);
    }
  }

  lemma {:induction false} ChargeProper(index: map<string, map<string, int>>, ri: ResourceInfo, q: Charge)
    requires ReadableSizeNonNegative(ri) && q in ChargesOf(index)(ri)
    ensures Proper(q)
  {
    if !IsMemoryLike(ri.name) {
      FlatMapMember(UnitFor(index, ri.name), ri.data, q);
    }
  }

  // ---- Main results on the final counters ----

  /** No memory counter starts negative: the sums of the allocatable blocks stay below 2^63. */
  ghost predicate MemoryStartsNonNegative(d: NodeData) {
    MemoryNonNegative(d.Start())
  }

  /** Exact device accounting: Available is Allocatable less the holdings indexed to the counter, exactly. */
  lemma {:induction false} DeviceAvailable(d: NodeData, pods: seq<PodResources>, n: int, r: string)
    requires (n, r) in d.Start() && !IsMemoryLike(r)
    ensures d.Final(pods)[(n, r)] == d.AllocatableOf(n, r) - HeldAt(d.index, Held(pods), n, r)
  {
    hide Replay, HeldAt, FlatMap, ChargesOfPods;
    var qs := ChargesOfPods(d.index, pods);
    ChargesTyped(d.index, pods);
    StartHas(d, n, r);
    ReplayCountsUnits(d.Known(), d.Start(), qs, n, r);
    UnitsOfPods(d.index, pods, n, r);
  }

  /** Pods inserted anywhere leave no Available value higher than it is without them. */
  lemma {:induction false} InsertedPodsLower(d: NodeData, a: seq<PodResources>, p: seq<PodResources>, b: seq<PodResources>)
    requires MemoryStartsNonNegative(d) && SizesNonNegative(a) && SizesNonNegative(p) && SizesNonNegative(b)
    ensures AtMost(d.Final(a + p + b), d.Final(a + b))
  {
    hide Replay, FlatMap, SizesNonNegative, AllProper;
    ChargesProper(d.index, a);
    ChargesProper(d.index, p);
    ChargesProper(d.index, b);
    var f := ChargesOfPod(d.index);
    FlatMapAppend(f, a + p, b);
    FlatMapAppend(f, a, p);
    FlatMapAppend(f, a, b);
    ReplayInsert(d.Known(), d.Start(), FlatMap(f, a), FlatMap(f, p), FlatMap(f, b));
  }

  /** Available never exceeds Allocatable, and memory never goes below zero, after any number of steps of the replay. */
  lemma {:induction false} EveryStepBounded(d: NodeData, pods: seq<PodResources>, k: nat)
    requires MemoryStartsNonNegative(d) && SizesNonNegative(pods) && k <= |ChargesOfPods(d.index, pods)|
    ensures
      var c := Replay(d.Known(), d.Start(), ChargesOfPods(d.index, pods)[..k]);
      AtMost(c, d.Start()) && MemoryNonNegative(c)
  {
    ChargesProper(d.index, pods);
    ReplayDecreases(d.Known(), d.Start(), ChargesOfPods(d.index, pods)[..k]);
  }

  /** Reordering the pods changes no device counter. */
  lemma {:induction false} DevicesIgnoreOrder(d: NodeData, pods: seq<PodResources>, pods': seq<PodResources>, n: int, r: string)
    requires multiset(pods) == multiset(pods') && (n, r) in d.Start() && !IsMemoryLike(r)
    ensures d.Final(pods)[(n, r)] == d.Final(pods')[(n, r)]
  {
    hide Replay, HeldAt, FlatMap;
    ChargesTyped(d.index, pods);
    ChargesTyped(d.index, pods');
    FlatMapPermutes(ChargesOfPod(d.index), pods, pods');
    var qs, ps := ChargesOfPods(d.index, pods), ChargesOfPods(d.index, pods');
    StartHas(d, n, r);
    ReplayCountsUnits(d.Known(), d.Start(), qs, n, r);
    ReplayCountsUnits(d.Known(), d.Start(), ps, n, r);
  }

  /** Reordering the pods changes no counter at all when any two of their charges may be swapped. */
  lemma {:induction false} PodsIgnoreOrder(d: NodeData, pods: seq<PodResources>, pods': seq<PodResources>)
    requires multiset(pods) == multiset(pods') && SizesNonNegative(pods) && MemoryStartsNonNegative(d)
    requires PairwiseSwappable(d.Known(), d.Start().Keys, ChargesOfPods(d.index, pods))
    ensures d.Final(pods) == d.Final(pods')
  {
    hide Replay, FlatMap, Swappable;
    ChargesProper(d.index, pods);
    FlatMapPermutes(ChargesOfPod(d.index), pods, pods');
    ReplayPermutes(d.Known(), d.Start(), ChargesOfPods(d.index, pods), ChargesOfPods(d.index, pods'));
  }

  // ---- Exclusion ----

  /** Excluding resources changes nothing about the others: same listing, same three amounts on every node. */
  lemma {:induction false} ExclusionLocal(d: NodeData, pods: seq<PodResources>, n: int, r: string)
    requires r !in d.exclude
    ensures
      var all := d.(exclude := {});
      && (r in d.ListedNames(n) <==> r in all.ListedNames(n))
      && RowOf(d, d.Final(pods), n, r) == RowOf(all, all.Final(pods), n, r)
  {
    hide Replay, FlatMap;
    var all := d.(exclude := {});
    forall k: Cell | k.1 == r
      ensures k in d.Start() <==> k in all.Start()
      ensures k in d.Start() ==> d.Start()[k] == all.Start()[k]
    {
      StartHas(d, k.0, k.1);
      StartHas(all, k.0, k.1);
    }
    ReplayAgrees(d.Known(), d.Start(), all.Start(), ChargesOfPods(d.index, pods), r);
    assert all.Known() == d.Known() && all.index == d.index;
    assert (n, r) in d.Final(pods) <==> (n, r) in all.Final(pods);
  }

  /** An excluded resource is listed at a node only as the placeholder CPU row of a node without allocatables. */
  lemma {:induction false} ExcludedListedExactly(d: NodeData, n: int, r: string)
    requires r in d.exclude
    ensures r in d.ListedNames(n) <==> r == CPU && n !in d.alloc
  {
  }
}
