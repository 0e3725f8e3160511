/** When the order of charges matters. Two memory requests of one type commute on all counters exactly when their
    effective lists agree about what comes after every node they share, and a list of charges may be reordered
    freely exactly when any two of them commute. */
module LedgerOrder {
  import opened Common
  import opened PodResourcesApi
  import opened Ledger

  // ---- The first node of a list with something left ----

  predicate Stocked(c: Counters, r: string, n: int) {
    (n, r) in c && c[(n, r)] > 0
  }

  predicate AllEmpty(c: Counters, r: string, s: seq<int>) {
    forall n :: n in s ==> !Stocked(c, r, n)
  }

  function First(c: Counters, r: string, path: seq<int>): (n: Option<int>)
    ensures n.None? <==> AllEmpty(c, r, path)
    ensures n.Some? ==> n.value in path && Stocked(c, r, n.value)
  {
    if path == [] then None
    else if Stocked(c, r, path[0]) then Some(path[0])
    else First(c, r, path[1..])
  }

  lemma {:induction false} FirstPosition(c: Counters, r: string, path: seq<int>) returns (i: nat)
    requires First(c, r, path).Some?
    ensures i < |path| && First(c, r, path) == Some(path[i]) && AllEmpty(c, r, path[..i])
  {
    if Stocked(c, r, path[0]) {
      i := 0;
    } else {
      var k := FirstPosition(c, r, path[1..]);
      i := k + 1;
      assert path[..i] == [path[0]] + path[1..][..k];
    }
  }

  lemma {:induction false} FirstAfter(c: Counters, r: string, a: seq<int>, b: seq<int>)
    requires AllEmpty(c, r, a)
    ensures First(c, r, a + b) == First(c, r, b)
  {
    if a == [] {
      assert a + b == b;
    } else {
      assert (a + b)[1..] == a[1..] + b;
      FirstAfter(c, r, a[1..], b);
    }
  }

  /** Lowering a node that does not come first changes nothing about which one does. */
  lemma {:induction false} FirstUnmoved(c: Counters, r: string, path: seq<int>, n: int, v: int)
    requires (n, r) in c && v <= c[(n, r)] && First(c, r, path) != Some(n)
    ensures First(c[(n, r) := v], r, path) == First(c, r, path)
  {
    if path != [] && !Stocked(c, r, path[0]) {
      FirstUnmoved(c, r, path[1..], n, v);
    }
  }

  lemma {:induction false} FirstStays(c: Counters, r: string, path: seq<int>, n: int, v: int)
    requires (n, r) in c && v > 0 && First(c, r, path) == Some(n)
    ensures First(c[(n, r) := v], r, path) == Some(n)
  {
    if !Stocked(c, r, path[0]) {
      FirstStays(c, r, path[1..], n, v);
    }
  }

  lemma {:induction false} DrainFromFirst(c: Counters, r: string, path: seq<int>, size: int)
    requires NonNegative(c, r) && size > 0 && forall i :: 0 <= i < |path| ==> (path[i], r) in c
    ensures First(c, r, path).None? ==> Drain(c, r, path, size) == c
    ensures
      var first := First(c, r, path);
      first.Some? && size <= c[(first.value, r)] ==> Drain(c, r, path, size) == c[(first.value, r) := c[(first.value, r)] - size]
  {
    if path != [] {
      var h := (path[0], r);
      if c[h] == 0 {
        assert c[h := 0] == c;
        DrainFromFirst(c, r, path[1..], size);
      } else if size <= c[h] {
        DrainZero(c[h := c[h] - size], r, path[1..]);
      }
    }
  }

  /** The nodes a request takes from. */
  function Effective(known: set<int>, cells: set<Cell>, r: string, nodes: seq<int>): (p: seq<int>)
    ensures Distinct(p) && forall i :: 0 <= i < |p| ==> (p[i], r) in cells
  {
    Path(known, cells, r, nodes, {})
  }

  /** The node stands somewhere in the list, is known and has the resource, and no known node up to there lacks it. */
  ghost predicate Reached(known: set<int>, cells: set<Cell>, r: string, nodes: seq<int>, n: int) {
    exists i :: 0 <= i < |nodes| && nodes[i] == n && n in known
                && forall j :: 0 <= j <= i && nodes[j] in known ==> (nodes[j], r) in cells
  }

  /** Which nodes a request takes from, by positions in its list, and in the order they first stand there. */
  lemma {:induction false} EffectiveExactly(known: set<int>, cells: set<Cell>, r: string, nodes: seq<int>, n: int)
    ensures n in Effective(known, cells, r, nodes) <==> Reached(known, cells, r, nodes, n)
    ensures
      var p := Effective(known, cells, r, nodes);
      forall a, b :: 0 <= a < b < |p| ==> ComesBefore(nodes, p[a], p[b])
  {
    PathExactly(known, cells, r, nodes, {}, n);
    PathInOrder(known, cells, r, nodes, {});
  }

  /** n stands in the list before m does for the first time. */
  ghost predicate ComesBefore(nodes: seq<int>, n: int, m: int) {
    exists i :: 0 <= i < |nodes| && nodes[i] == n && m !in nodes[..i + 1]
  }

  lemma {:induction false} PathExactly(known: set<int>, cells: set<Cell>, r: string, nodes: seq<int>, seen: set<int>, n: int)
    requires forall m :: m in seen ==> (m, r) in cells
    ensures n in Path(known, cells, r, nodes, seen) <==> n !in seen && Reached(known, cells, r, nodes, n)
    decreases nodes
  {
    hide Path;
    if nodes == [] {
      assert Path(known, cells, r, [], seen) == [] by { EmptyPath(known, cells, r, seen); }
    } else {
      var h := nodes[0];
      PathNext(known, cells, r, nodes, seen);
      ReachedNext(known, cells, r, nodes, n);
      if h !in known || h in seen {
        PathExactly(known, cells, r, nodes[1..], seen, n);
      } else if (h, r) in cells {
        PathExactly(known, cells, r, nodes[1..], seen + {h}, n);
      }
    }
  }

  lemma {:induction false} EmptyPath(known: set<int>, cells: set<Cell>, r: string, seen: set<int>)
    ensures Path(known, cells, r, [], seen) == []
  {
  }

  lemma {:induction false} ReachedNext(known: set<int>, cells: set<Cell>, r: string, nodes: seq<int>, n: int)
    requires nodes != []
    ensures Reached(known, cells, r, nodes, n)
       <==> (nodes[0] in known ==> (nodes[0], r) in cells)
            && ((nodes[0] == n && n in known) || Reached(known, cells, r, nodes[1..], n))
  {
    if Reached(known, cells, r, nodes, n) {
      var i :| 0 <= i < |nodes| && nodes[i] == n && n in known
        && forall j :: 0 <= j <= i && nodes[j] in known ==> (nodes[j], r) in cells;
      assert nodes[0] in known ==> (nodes[0], r) in cells;
      if i > 0 {
        assert nodes[1..][i - 1] == n && forall j :: 0 <= j <= i - 1 ==> nodes[1..][j] == nodes[j + 1];
      }
    }
    if (nodes[0] in known ==> (nodes[0], r) in cells) && Reached(known, cells, r, nodes[1..], n) {
      var i :| 0 <= i < |nodes[1..]| && nodes[1..][i] == n && n in known
        && forall j :: 0 <= j <= i && nodes[1..][j] in known ==> (nodes[1..][j], r) in cells;
      assert nodes[i + 1] == n && forall j :: 1 <= j <= i + 1 ==> nodes[j] == nodes[1..][j - 1];
    }
  }

  lemma {:induction false} PathInOrder(known: set<int>, cells: set<Cell>, r: string, nodes: seq<int>, seen: set<int>)
    ensures
      var p := Path(known, cells, r, nodes, seen);
      forall a, b :: 0 <= a < b < |p| ==> ComesBefore(nodes, p[a], p[b])
    decreases nodes
  {
    hide Path;
    if nodes == [] {
      EmptyPath(known, cells, r, seen);
    } else {
      var h := nodes[0];
      PathNext(known, cells, r, nodes, seen);
      PathInOrder(known, cells, r, nodes[1..], seen);
      PathInOrder(known, cells, r, nodes[1..], seen + {h});
      var p := Path(known, cells, r, nodes, seen);
      forall a, b | 0 <= a < b < |p|
        ensures ComesBefore(nodes, p[a], p[b])
      {
        if h in known && h !in seen {
          assert p[b] != h;
          if a == 0 {
            assert nodes[..1] == [h];
          } else {
            assert ComesBefore(nodes[1..], p[a], p[b]);
            BeforeInTail(nodes, p[a], p[b]);
          }
        } else {
          assert ComesBefore(nodes[1..], p[a], p[b]);
          assert p[b] != h;
          BeforeInTail(nodes, p[a], p[b]);
        }
      }
    }
  }

  lemma {:induction false} BeforeInTail(nodes: seq<int>, n: int, m: int)
    requires nodes != [] && m != nodes[0] && ComesBefore(nodes[1..], n, m)
    ensures ComesBefore(nodes, n, m)
  {
    var i :| 0 <= i < |nodes[1..]| && nodes[1..][i] == n && m !in nodes[1..][..i + 1];
    assert nodes[..i + 2] == [nodes[0]] + nodes[1..][..i + 1];
    assert nodes[i + 1] == n;
  }

  /** A request that the first stocked node can serve takes everything there. */
  lemma {:induction false} FillFromFirst(known: set<int>, c: Counters, r: string, nodes: seq<int>, size: int)
    requires NonNegative(c, r) && size > 0
    ensures First(c, r, Effective(known, c.Keys, r, nodes)).None? ==> Fill(known, c, r, nodes, size) == c
    ensures
      var first := First(c, r, Effective(known, c.Keys, r, nodes));
      first.Some? && size <= c[(first.value, r)] ==> Fill(known, c, r, nodes, size) == c[(first.value, r) := c[(first.value, r)] - size]
  {
    hide Fill, Drain, Path, First;
    FillIsDrain(known, c, r, nodes, size, {});
    DrainFromFirst(c, r, Effective(known, c.Keys, r, nodes), size);
  }

  /** A negative request, which only a device called like memory can make, is given back to the first stocked node. */
  lemma {:induction false} FillBelowZero(known: set<int>, c: Counters, r: string, nodes: seq<int>, size: int)
    requires NonNegative(c, r) && size < 0
    ensures First(c, r, Effective(known, c.Keys, r, nodes)).None? ==> Fill(known, c, r, nodes, size) == c
    ensures
      var first := First(c, r, Effective(known, c.Keys, r, nodes));
      first.Some? ==> Fill(known, c, r, nodes, size) == c[(first.value, r) := c[(first.value, r)] - size]
  {
    hide Fill, Path, First, NonNegative;
    GivenBack(known, c, r, nodes, size, {});
  }

  lemma {:induction false} GivenBack(known: set<int>, c: Counters, r: string, nodes: seq<int>, size: int, seen: set<int>)
    requires NonNegative(c, r) && size < 0 && forall n :: n in seen ==> (n, r) in c && c[(n, r)] == 0
    ensures First(c, r, Path(known, c.Keys, r, nodes, seen)).None? ==> Fill(known, c, r, nodes, size) == c
    ensures
      var first := First(c, r, Path(known, c.Keys, r, nodes, seen));
      first.Some? ==> Fill(known, c, r, nodes, size) == c[(first.value, r) := c[(first.value, r)] - size]
    decreases nodes
  {
    hide Path, First;
    if nodes == [] {
      NoPath(known, c, r, seen, size);
      assert First(c, r, []) == None;
    } else {
      var n := nodes[0];
      PathNext(known, c.Keys, r, nodes, seen);
      if n !in known || n in seen {
        GivenBack(known, c, r, nodes[1..], size, seen);
      } else if (n, r) !in c {
        assert First(c, r, []) == None;
      } else {
        FirstNext(c, r, n, Path(known, c.Keys, r, nodes[1..], seen + {n}));
        if c[(n, r)] == 0 {
          GivenBack(known, c, r, nodes[1..], size, seen + {n});
        }
      }
    }
  }

  lemma {:induction false} FirstNext(c: Counters, r: string, n: int, rest: seq<int>)
    ensures First(c, r, [n] + rest) == if Stocked(c, r, n) then Some(n) else First(c, r, rest)
  {
    assert ([n] + rest)[1..] == rest;
  }

  // ---- Lists that agree about what follows a shared node ----

  /** The elements of s that are not in t, in order. */
  function Minus(s: seq<int>, t: seq<int>): (m: seq<int>)
    ensures forall n :: n in m <==> n in s && n !in t
  {
    if s == [] then [] else (if s[0] in t then [] else [s[0]]) + Minus(s[1..], t)
  }

  /** Whenever p and q share a node, what follows it on one list, without what comes before it on the other, is the
      same list for both. */
  ghost predicate OrderFree(p: seq<int>, q: seq<int>) {
    forall i, j :: 0 <= i < |p| && 0 <= j < |q| && p[i] == q[j]
      ==> Minus(p[i + 1..], q[..j]) == Minus(q[j + 1..], p[..i])
  }

  lemma {:induction false} FirstOfMinus(c: Counters, r: string, s: seq<int>, t: seq<int>)
    requires AllEmpty(c, r, t)
    ensures First(c, r, Minus(s, t)) == First(c, r, s)
  {
    if s != [] {
      FirstOfMinus(c, r, s[1..], t);
      if s[0] in t {
        assert Minus(s, t) == Minus(s[1..], t);
      } else {
        assert Minus(s, t)[1..] == Minus(s[1..], t);
      }
    }
  }

  /** With everything up to the shared node empty on both lists, the next stocked node is found among what follows. */
  lemma {:induction false} FirstBeyond(c: Counters, r: string, p: seq<int>, i: nat, t: seq<int>)
    requires i < |p| && AllEmpty(c, r, p[..i]) && !Stocked(c, r, p[i]) && AllEmpty(c, r, t)
    ensures First(c, r, p) == First(c, r, Minus(p[i + 1..], t))
  {
    assert p == p[..i] + [p[i]] + p[i + 1..];
    FirstAfter(c, r, p[..i] + [p[i]], p[i + 1..]);
    FirstOfMinus(c, r, p[i + 1..], t);
  }

  /** The counters after a request for one byte. */
  function Taken(c: Counters, r: string, path: seq<int>): (t: Counters)
    ensures t.Keys == c.Keys
    ensures NonNegative(c, r) ==> NonNegative(t, r)
  {
    match First(c, r, path)
    case Some(n) => c[(n, r) := c[(n, r)] - 1]
    case None => c
  }

  lemma {:induction false} FillByte(known: set<int>, c: Counters, r: string, nodes: seq<int>)
    requires NonNegative(c, r)
    ensures Fill(known, c, r, nodes, 1) == Taken(c, r, Effective(known, c.Keys, r, nodes))
  {
    hide Fill, Effective;
    FillFromFirst(known, c, r, nodes, 1);
  }

  lemma {:induction false} BytesCommute(c: Counters, r: string, p: seq<int>, q: seq<int>)
    requires NonNegative(c, r) && OrderFree(p, q)
    ensures Taken(Taken(c, r, p), r, q) == Taken(Taken(c, r, q), r, p)
  {
    hide First, OrderFree, Taken, NonNegative;
    if First(c, r, p) == First(c, r, q) && First(c, r, p).Some? {
      BytesOnSharedNode(c, r, p, q);
    } else {
      BytesOnOtherNodes(c, r, p, q);
    }
  }

  lemma {:induction false} BytesOnSharedNode(c: Counters, r: string, p: seq<int>, q: seq<int>)
    requires OrderFree(p, q) && First(c, r, p) == First(c, r, q) && First(c, r, p).Some?
    ensures Taken(Taken(c, r, p), r, q) == Taken(Taken(c, r, q), r, p)
  {
    hide First, OrderFree, NonNegative;
    var h := (First(c, r, p).value, r);
    if c[h] > 1 {
      FirstStays(c, r, p, h.0, c[h] - 1);
      FirstStays(c, r, q, h.0, c[h] - 1);
    } else {
      NextAfterLast(c, r, p, q);
    }
  }

  lemma {:induction false} BytesOnOtherNodes(c: Counters, r: string, p: seq<int>, q: seq<int>)
    requires First(c, r, p) != First(c, r, q) || First(c, r, p).None?
    ensures Taken(Taken(c, r, p), r, q) == Taken(Taken(c, r, q), r, p)
  {
    hide First, NonNegative;
    var first, second := First(c, r, p), First(c, r, q);
    if second.Some? {
      FirstUnmoved(c, r, p, second.value, c[(second.value, r)] - 1);
    }
    if first.Some? {
      FirstUnmoved(c, r, q, first.value, c[(first.value, r)] - 1);
    }
    if first.Some? && second.Some? {
      var h, k := (first.value, r), (second.value, r);
      assert c[h := c[h] - 1][k := c[k] - 1] == c[k := c[k] - 1][h := c[h] - 1];
    }
  }

  /** Once the node that came first on both lists is empty, the same node comes next on both. */
  lemma {:induction false} NextAfterLast(c: Counters, r: string, p: seq<int>, q: seq<int>)
    requires OrderFree(p, q) && First(c, r, p).Some? && First(c, r, p) == First(c, r, q)
    ensures
      var d := c[(First(c, r, p).value, r) := 0];
      First(d, r, p) == First(d, r, q)
  {
    hide First, Minus;
    var i := FirstPosition(c, r, p);
    var j := FirstPosition(c, r, q);
    var d := c[(p[i], r) := 0];
    FirstBeyond(d, r, p, i, q[..j]);
    FirstBeyond(d, r, q, j, p[..i]);
  }

  lemma {:induction false} ByteFirst(known: set<int>, c: Counters, r: string, nodes: seq<int>, size: int)
    requires NonNegative(c, r) && size > 0
    ensures Fill(known, c, r, nodes, size) == Fill(known, Fill(known, c, r, nodes, 1), r, nodes, size - 1)
    ensures NonNegative(Fill(known, c, r, nodes, 1), r)
  {
    hide Fill;
    FillComposes(known, c, r, nodes, 1, size - 1);
    FillNonNegative(known, c, r, nodes, 1);
  }

  lemma {:induction false} FillZero(known: set<int>, c: Counters, r: string, nodes: seq<int>)
    ensures Fill(known, c, r, nodes, 0) == c
  {
  }

  lemma {:induction false} BytePastFill(known: set<int>, c: Counters, r: string, nodes1: seq<int>, nodes2: seq<int>, y: nat)
    requires NonNegative(c, r) && OrderFree(Effective(known, c.Keys, r, nodes1), Effective(known, c.Keys, r, nodes2))
    ensures Fill(known, Fill(known, c, r, nodes1, 1), r, nodes2, y) == Fill(known, Fill(known, c, r, nodes2, y), r, nodes1, 1)
    decreases y
  {
    hide Fill, OrderFree;
    if y == 0 {
      FillZero(known, c, r, nodes2);
      FillZero(known, Fill(known, c, r, nodes1, 1), r, nodes2);
    } else {
      FillNonNegative(known, c, r, nodes1, 1);
      ByteFirst(known, c, r, nodes2, y);
      ByteFirst(known, Fill(known, c, r, nodes1, 1), r, nodes2, y);
      FillByte(known, c, r, nodes1);
      FillByte(known, c, r, nodes2);
      FillByte(known, Fill(known, c, r, nodes1, 1), r, nodes2);
      FillByte(known, Fill(known, c, r, nodes2, 1), r, nodes1);
      BytesCommute(c, r, Effective(known, c.Keys, r, nodes1), Effective(known, c.Keys, r, nodes2));
      BytePastFill(known, Fill(known, c, r, nodes2, 1), r, nodes1, nodes2, y - 1);
    }
  }

  ghost predicate FillsSwap(known: set<int>, c: Counters, r: string, nodes1: seq<int>, x: int, nodes2: seq<int>, y: int) {
    Fill(known, Fill(known, c, r, nodes1, x), r, nodes2, y) == Fill(known, Fill(known, c, r, nodes2, y), r, nodes1, x)
  }

  /** Lists that agree give requests that commute, on any counters and for any sizes. */
  lemma {:induction false} OrderFreeCommutes(known: set<int>, c: Counters, r: string, nodes1: seq<int>, x: nat,
                                             nodes2: seq<int>, y: nat)
    requires NonNegative(c, r) && OrderFree(Effective(known, c.Keys, r, nodes1), Effective(known, c.Keys, r, nodes2))
    ensures FillsSwap(known, c, r, nodes1, x, nodes2, y)
    decreases x
  {
    hide Fill, OrderFree;
    if x == 0 {
      FillZero(known, c, r, nodes1);
      FillZero(known, Fill(known, c, r, nodes2, y), r, nodes1);
    } else {
      FillNonNegative(known, c, r, nodes2, y);
      ByteFirst(known, c, r, nodes1, x);
      ByteFirst(known, Fill(known, c, r, nodes2, y), r, nodes1, x);
      BytePastFill(known, c, r, nodes1, nodes2, y);
      OrderFreeCommutes(known, Fill(known, c, r, nodes1, 1), r, nodes1, x - 1, nodes2, y);
    }
  }

  // ---- Counters on which disagreeing lists show ----

  /** All nodes empty but one, which has x, and some with plenty. */
  function Sparse(cells: set<Cell>, r: string, u: int, x: nat, heavy: set<int>, plenty: nat): (c: Counters)
    ensures c.Keys == cells && forall k :: k in c ==> c[k] >= 0
  {
    map k | k in cells :: if k.1 != r then 0 else if k.0 == u then x else if k.0 in heavy then plenty else 0
  }

  /** Two lists up to where they first differ. */
  lemma {:induction false} FirstDifference(s: seq<int>, t: seq<int>) returns (k: nat)
    requires s != t
    ensures k <= |s| && k <= |t| && s[..k] == t[..k] && (k < |s| || k < |t|)
    ensures k < |s| && k < |t| ==> s[k] != t[k]
  {
    k := 0;
    while k < |s| && k < |t| && s[k] == t[k]
      invariant k <= |s| && k <= |t| && s[..k] == t[..k]
    {
      k := k + 1;
    }
  }

  /** Both counters have the same nodes empty, and more than e on all others. */
  ghost predicate Parallel(a: Counters, b: Counters, r: string, e: int) {
    a.Keys == b.Keys && forall k :: k in a && k.1 == r ==> (a[k] == 0 && b[k] == 0) || (a[k] > e && b[k] > e)
  }

  lemma {:induction false} MinusDistinct(s: seq<int>, t: seq<int>)
    requires Distinct(s)
    ensures Distinct(Minus(s, t))
  {
    if s != [] {
      MinusDistinct(s[1..], t);
    }
  }

  /** The nodes that follow the shared node on one list and do not precede it on the other. */
  function Beyond(p: seq<int>, i: nat, q: seq<int>, j: nat): seq<int>
    requires i < |p| && j <= |q|
  {
    Minus(p[i + 1..], q[..j])
  }

  function At(s: seq<int>, k: nat): Option<int> {
    if k < |s| then Some(s[k]) else None
  }

  function Members(n: Option<int>): set<int> {
    match n case Some(v) => {v} case None => {}
  }

  /** Lists that disagree beyond the node they share: k is where what follows it first differs. */
  ghost predicate Disagree(p: seq<int>, i: nat, q: seq<int>, j: nat, k: nat) {
    && Distinct(p) && Distinct(q) && i < |p| && j < |q| && p[i] == q[j]
    && var l, m := Beyond(p, i, q, j), Beyond(q, j, p, i);
       k <= |l| && k <= |m| && l[..k] == m[..k] && At(l, k) != At(m, k)
  }

  function Differing(p: seq<int>, i: nat, q: seq<int>, j: nat, k: nat): set<int>
    requires i < |p| && j < |q|
  {
    Members(At(Beyond(p, i, q, j), k)) + Members(At(Beyond(q, j, p, i), k))
  }

  ghost predicate OnlyStocked(c: Counters, r: string, s: set<int>) {
    forall n :: Stocked(c, r, n) <==> n in s
  }

  lemma {:induction false} NotDiffering(p: seq<int>, i: nat, q: seq<int>, j: nat, k: nat)
    requires Disagree(p, i, q, j, k)
    ensures p[i] !in Differing(p, i, q, j, k)
    ensures forall n :: n in p[..i] || n in q[..j] ==> n !in Differing(p, i, q, j, k) + {p[i]}
    ensures forall n :: n in Differing(p, i, q, j, k) ==> n in p || n in q
  {
    hide Minus;
    assert p == p[..i] + p[i..] && q == q[..j] + q[j..];
    assert forall a :: 0 <= a < i ==> p[a] !in p[i..];
    assert forall b :: 0 <= b < j ==> q[b] !in q[j..];
    assert p[i] !in p[i + 1..] && q[j] !in q[j + 1..];
    assert p[i..] == [p[i]] + p[i + 1..] && q[j..] == [q[j]] + q[j + 1..];
  }

  /** With only the differing nodes stocked, each list goes on at its own. */
  lemma {:induction false} NextIs(c: Counters, r: string, p: seq<int>, i: nat, q: seq<int>, j: nat, k: nat)
    requires Disagree(p, i, q, j, k) && OnlyStocked(c, r, Differing(p, i, q, j, k))
    ensures First(c, r, p) == At(Beyond(p, i, q, j), k)
  {
    hide First, Minus, Stocked;
    var l, m := Beyond(p, i, q, j), Beyond(q, j, p, i);
    MinusDistinct(p[i + 1..], q[..j]);
    MinusDistinct(q[j + 1..], p[..i]);
    NotDiffering(p, i, q, j, k);
    FirstBeyond(c, r, p, i, q[..j]);
    assert l == l[..k] + l[k..];
    FirstAfter(c, r, l[..k], l[k..]);
    if k < |l| {
      FirstHead(c, r, l[k..]);
    } else {
      FirstNone(c, r);
    }
  }

  lemma {:induction false} FirstHead(c: Counters, r: string, s: seq<int>)
    requires s != [] && Stocked(c, r, s[0])
    ensures First(c, r, s) == Some(s[0])
  {
  }

  lemma {:induction false} FirstNone(c: Counters, r: string)
    ensures First(c, r, []) == None
  {
  }

  /** With the shared node stocked too, both lists start there. */
  lemma {:induction false} SharedIs(c: Counters, r: string, p: seq<int>, i: nat, q: seq<int>, j: nat, k: nat)
    requires Disagree(p, i, q, j, k) && OnlyStocked(c, r, Differing(p, i, q, j, k) + {p[i]})
    ensures First(c, r, p) == Some(p[i])
  {
    hide First, Minus, Stocked;
    NotDiffering(p, i, q, j, k);
    assert p == p[..i] + p[i..];
    FirstAfter(c, r, p[..i], p[i..]);
    FirstHead(c, r, p[i..]);
  }

  /** A request of n bytes served by one node, if there is one. */
  function Less(c: Counters, r: string, n: Option<int>, size: int): (d: Counters)
    requires n.Some? ==> (n.value, r) in c
    ensures d.Keys == c.Keys
  {
    match n
    case Some(v) => c[(v, r) := c[(v, r)] - size]
    case None => c
  }

  lemma {:induction false} FillLess(known: set<int>, c: Counters, r: string, nodes: seq<int>, size: nat, n: Option<int>)
    requires NonNegative(c, r) && First(c, r, Effective(known, c.Keys, r, nodes)) == n
    requires n.Some? ==> size <= c[(n.value, r)]
    ensures Fill(known, c, r, nodes, size) == Less(c, r, n, size)
  {
    hide Fill, First, Effective;
    if size == 0 {
      FillZero(known, c, r, nodes);
      assert n.Some? ==> c[(n.value, r) := c[(n.value, r)] - 0] == c;
    } else {
      FillFromFirst(known, c, r, nodes, size);
    }
  }

  /** Two requests over disagreeing lists end differently, whichever comes first: x bytes on the shared node, plenty
      on the nodes that differ beyond it. */
  lemma {:induction false} DisagreeingFills(known: set<int>, c: Counters, r: string, nodes1: seq<int>, x: nat,
                                            nodes2: seq<int>, y: nat,
                                            i: nat, j: nat, k: nat, extra: nat)
    requires
      var p, q := Effective(known, c.Keys, r, nodes1), Effective(known, c.Keys, r, nodes2);
      0 < x <= y && Disagree(p, i, q, j, k) && c == Sparse(c.Keys, r, p[i], x, Differing(p, i, q, j, k), x + y + extra)
    ensures
      var p, q := Effective(known, c.Keys, r, nodes1), Effective(known, c.Keys, r, nodes2);
      var w1, w2 := At(Beyond(p, i, q, j), k), At(Beyond(q, j, p, i), k);
      var c1 := c[(p[i], r) := 0];
      && (w1.Some? ==> (w1.value, r) in c1) && (w2.Some? ==> (w2.value, r) in c1)
      && Fill(known, Fill(known, c, r, nodes1, x), r, nodes2, y) == Less(c1, r, w2, y)
      && Fill(known, Fill(known, c, r, nodes2, y), r, nodes1, x) == Less(Less(c1, r, w2, y - x), r, w1, x)
  {
    hide Fill, First, Minus, Effective, Sparse, Beyond;
    var p, q := Effective(known, c.Keys, r, nodes1), Effective(known, c.Keys, r, nodes2);
    var w1, w2 := At(Beyond(p, i, q, j), k), At(Beyond(q, j, p, i), k);
    var c1 := c[(p[i], r) := 0];
    SparseStocked(c, c.Keys, r, p, i, q, j, k, x, x + y + extra);
    SharedIs(c, r, p, i, q, j, k);
    SharedIs(c, r, q, j, p, i, k);
    FillLess(known, c, r, nodes1, x, Some(p[i]));
    FillLess(known, c, r, nodes2, x, Some(p[i]));
    NextIs(c1, r, q, j, p, i, k);
    FillLess(known, c1, r, nodes2, y, w2);
    FillComposes(known, c, r, nodes2, x, y - x);
    FillLess(known, c1, r, nodes2, y - x, w2);
    var c2 := Less(c1, r, w2, y - x);
    assert OnlyStocked(c2, r, Differing(p, i, q, j, k));
    NextIs(c2, r, p, i, q, j, k);
    FillLess(known, c2, r, nodes1, x, w1);
  }

  lemma {:induction false} SparseStocked(c: Counters, cells: set<Cell>, r: string, p: seq<int>, i: nat, q: seq<int>, j: nat, k: nat,
                                         x: nat, plenty: nat)
    requires Disagree(p, i, q, j, k) && 0 < x <= plenty
    requires forall n :: n in p || n in q ==> (n, r) in cells
    requires c == Sparse(cells, r, p[i], x, Differing(p, i, q, j, k), plenty)
    ensures c[(p[i], r)] == x && forall n :: n in Differing(p, i, q, j, k) ==> (n, r) in c && c[(n, r)] == plenty
    ensures p[i] !in Differing(p, i, q, j, k)
    ensures OnlyStocked(c, r, Differing(p, i, q, j, k) + {p[i]})
    ensures OnlyStocked(c[(p[i], r) := 0], r, Differing(p, i, q, j, k))
  {
    hide Minus;
    NotDiffering(p, i, q, j, k);
  }

  lemma {:induction false} DifferentEnds(c: Counters, r: string, w1: Option<int>, w2: Option<int>, x: nat, y: nat, extra: nat)
    returns (key: Cell)
    requires 0 < x <= y && w1 != w2
    requires (w1.Some? ==> (w1.value, r) in c) && (w2.Some? ==> (w2.value, r) in c)
    requires forall k :: k in c && k.1 == r ==> c[k] == if Some(k.0) == w1 || Some(k.0) == w2 then x + y + extra else 0
    ensures
      var a, b := Less(c, r, w2, y), Less(Less(c, r, w2, y - x), r, w1, x);
      Parallel(a, b, r, extra) && key in a && key.1 == r && a[key] != b[key]
  {
    key := if w1.Some? then (w1.value, r) else (w2.value, r);
  }

  /** Disagreeing lists: counters on which the two orders end differently, and still do after further requests for
      extra bytes. */
  lemma {:induction false} OrderMatters(known: set<int>, cells: set<Cell>, r: string, nodes1: seq<int>, x: nat,
                                        nodes2: seq<int>, y: nat, extra: nat)
    returns (c: Counters, key: Cell)
    requires 0 < x <= y && !OrderFree(Effective(known, cells, r, nodes1), Effective(known, cells, r, nodes2))
    ensures c.Keys == cells && forall k :: k in c ==> c[k] >= 0
    ensures
      var a, b := Fill(known, Fill(known, c, r, nodes1, x), r, nodes2, y), Fill(known, Fill(known, c, r, nodes2, y), r, nodes1, x);
      Parallel(a, b, r, extra) && key in a && key.1 == r && a[key] != b[key]
  {
    hide Fill, First, Minus, Effective, Sparse, Parallel, Less;
    var p, q := Effective(known, cells, r, nodes1), Effective(known, cells, r, nodes2);
    var i: nat, j: nat :| i < |p| && j < |q| && p[i] == q[j] && Minus(p[i + 1..], q[..j]) != Minus(q[j + 1..], p[..i]);
    var k := FirstDifference(Beyond(p, i, q, j), Beyond(q, j, p, i));
    c := Sparse(cells, r, p[i], x, Differing(p, i, q, j, k), x + y + extra);
    assert Disagree(p, i, q, j, k);
    DisagreeingFills(known, c, r, nodes1, x, nodes2, y, i, j, k, extra);
    SparseStocked(c, cells, r, p, i, q, j, k, x, x + y + extra);
    var w1, w2 := At(Beyond(p, i, q, j), k), At(Beyond(q, j, p, i), k);
    var c1 := c[(p[i], r) := 0];
    forall e | e in c1 && e.1 == r
      ensures c1[e] == if Some(e.0) == w1 || Some(e.0) == w2 then x + y + extra else 0
    {
      assert e == (e.0, r);
      assert Stocked(c1, r, e.0) <==> e.0 in Differing(p, i, q, j, k);
    }
    key := DifferentEnds(c1, r, w1, w2, x, y, extra);
  }

  /** Exactly when the order of two memory requests of one type matters: they commute on all counters if and only if
      their effective lists agree about what follows every shared node. */
  lemma {:induction false} FillsCommuteExactly(known: set<int>, cells: set<Cell>, r: string, nodes1: seq<int>, x: nat,
                                               nodes2: seq<int>, y: nat)
    requires x > 0 && y > 0
    ensures OrderFree(Effective(known, cells, r, nodes1), Effective(known, cells, r, nodes2))
       <==> forall c: Counters :: c.Keys == cells && NonNegative(c, r) ==> FillsSwap(known, c, r, nodes1, x, nodes2, y)
  {
    hide Fill, Effective, OrderFree;
    if OrderFree(Effective(known, cells, r, nodes1), Effective(known, cells, r, nodes2)) {
      forall c: Counters | c.Keys == cells && NonNegative(c, r)
        ensures FillsSwap(known, c, r, nodes1, x, nodes2, y)
      {
        OrderFreeCommutes(known, c, r, nodes1, x, nodes2, y);
      }
    } else {
      OrderFreeSymmetric(Effective(known, cells, r, nodes1), Effective(known, cells, r, nodes2));
      var c, key;
      if x <= y {
        c, key := OrderMatters(known, cells, r, nodes1, x, nodes2, y, 0);
      } else {
        c, key := OrderMatters(known, cells, r, nodes2, y, nodes1, x, 0);
      }
      assert !FillsSwap(known, c, r, nodes1, x, nodes2, y);
    }
  }

  lemma {:induction false} OrderFreeSymmetric(p: seq<int>, q: seq<int>)
    ensures OrderFree(p, q) <==> OrderFree(q, p)
  {
  }

  /** Equal lists and lists without a shared node agree. */
  lemma {:induction false} PlainListsAgree(p: seq<int>, q: seq<int>)
    requires Distinct(p) && (p == q || DisjointNodes(p, q) || (|p| <= 1 && |q| <= 1))
    ensures OrderFree(p, q)
  {
  }

  /** Lists that overlap may agree, or not. */
  lemma {:induction false} OverlapsGoBothWays()
    ensures OrderFree([0, 1], [1, 0]) && OrderFree([0, 2], [1, 2]) && !OrderFree([0, 1], [0])
  {
    var forward, backward, only := [0, 1], [1, 0], [0];
    assert forward[1..] == [1] && forward[..1] == [0] && forward[2..] == [];
    assert backward[1..] == [0] && backward[..1] == [1] && backward[2..] == [];
    assert only[1..] == [] && only[..0] == [] == forward[..0];
    assert Minus([1], [1]) == [] == Minus([0], [0]) && Minus([1], []) == [1];
    assert [0, 2][2..] == [] == [1, 2][2..];
  }

  /** Overlapping requests over several nodes that do depend on order. */
  lemma {:induction false} OverlappingFillsDiffer()
    ensures
      var c: Counters := map[(0, MEMORY) := 10, (1, MEMORY) := 10];
      var wide, narrow := Memory(MEMORY, [0, 1], 15), Memory(MEMORY, [0], 5);
      Apply({0, 1}, Apply({0, 1}, c, wide), narrow)[(1, MEMORY)] == 5
      && Apply({0, 1}, Apply({0, 1}, c, narrow), wide)[(1, MEMORY)] == 0
  {
  }

  // ---- Swapping two charges ----

  /** Charges that may be swapped: devices with devices, devices with memory, and memory requests that differ in
      type, ask for nothing, or have effective lists that agree. */
  ghost predicate Swappable(known: set<int>, cells: set<Cell>, q1: Charge, q2: Charge) {
    match (q1, q2)
    case (Unit(_, _), Unit(_, _)) => true
    case (Unit(_, r), Memory(name, _, _)) => r != name
    case (Memory(name, _, _), Unit(_, r)) => r != name
    case (Memory(name1, nodes1, x), Memory(name2, nodes2, y)) =>
      name1 != name2 || x == 0 || y == 0 || OrderFree(Effective(known, cells, name1, nodes1), Effective(known, cells, name1, nodes2))
  }

  ghost predicate ChargesSwap(known: set<int>, c: Counters, q1: Charge, q2: Charge) {
    Apply(known, Apply(known, c, q1), q2) == Apply(known, Apply(known, c, q2), q1)
  }

  lemma {:induction false} SwapCharges(known: set<int>, c: Counters, q1: Charge, q2: Charge)
    requires Swappable(known, c.Keys, q1, q2) && Proper(q1) && Proper(q2) && MemoryNonNegative(c)
    ensures ChargesSwap(known, c, q1, q2)
  {
    hide Fill, Effective, OrderFree;
    match (q1, q2)
    case (Unit(n, r), Unit(m, s)) =>
      if (n, r) != (m, s) && (n, r) in c && (m, s) in c {
        assert c[(n, r) := c[(n, r)] - 1][(m, s) := c[(m, s)] - 1] == c[(m, s) := c[(m, s)] - 1][(n, r) := c[(n, r)] - 1];
      }
    case (Unit(n, r), Memory(name, nodes, size)) => UnitPastFill(known, c, n, r, name, nodes, size);
    case (Memory(name, nodes, size), Unit(n, r)) => UnitPastFill(known, c, n, r, name, nodes, size);
    case (Memory(name1, nodes1, x), Memory(name2, nodes2, y)) =>
      if name1 != name2 {
        FillsCommute(known, c, name1, nodes1, x, name2, nodes2, y);
      } else if x == 0 || y == 0 {
        FillZero(known, c, name1, nodes1);
        FillZero(known, c, name2, nodes2);
        FillZero(known, Fill(known, c, name2, nodes2, y), name1, nodes1);
        FillZero(known, Fill(known, c, name1, nodes1, x), name2, nodes2);
      } else {
        OrderFreeCommutes(known, c, name1, nodes1, x, nodes2, y);
      }
  }

  // ---- Reordering a list of charges ----

  ghost predicate PairwiseSwappable(known: set<int>, cells: set<Cell>, qs: seq<Charge>) {
    forall i, j :: 0 <= i < |qs| && 0 <= j < |qs| ==> Swappable(known, cells, qs[i], qs[j])
  }

  lemma {:induction false} ChargeToFront(known: set<int>, c: Counters, qs: seq<Charge>, q: Charge)
    requires MemoryNonNegative(c) && AllProper(qs) && Proper(q)
    requires forall i :: 0 <= i < |qs| ==> Swappable(known, c.Keys, qs[i], q)
    ensures Replay(known, c, qs + [q]) == Replay(known, Apply(known, c, q), qs)
  {
    hide Swappable, Apply;
    assert (qs + [q])[..|qs|] == qs;
    if qs != [] {
      var front := qs[..|qs| - 1];
      var last := qs[|qs| - 1];
      ChargeToFront(known, c, front, q);
      ReplayDecreases(known, c, front);
      SwapCharges(known, Replay(known, c, front), last, q);
      assert (front + [q])[..|front|] == front;
    }
  }

  lemma {:induction false} ChargeToEnd(known: set<int>, c: Counters, a: seq<Charge>, q: Charge, b: seq<Charge>)
    requires MemoryNonNegative(c) && AllProper(a) && AllProper(b) && Proper(q)
    requires forall i :: 0 <= i < |b| ==> Swappable(known, c.Keys, b[i], q)
    ensures Replay(known, c, a + [q] + b) == Apply(known, Replay(known, c, a + b), q)
  {
    hide Replay, Apply, Swappable;
    ReplayAppend(known, c, a + [q], b);
    ReplayLast(known, c, a, q);
    ReplayDecreases(known, c, a);
    ChargeToFront(known, Replay(known, c, a), b, q);
    ReplayLast(known, Replay(known, c, a), b, q);
    ReplayAppend(known, c, a, b);
  }

  /** The order of charges does not matter when any two of them may be swapped. */
  lemma {:induction false} ReplayPermutes(known: set<int>, c: Counters, qs: seq<Charge>, ps: seq<Charge>)
    requires MemoryNonNegative(c) && AllProper(qs) && PairwiseSwappable(known, c.Keys, qs)
    requires multiset(qs) == multiset(ps)
    ensures Replay(known, c, qs) == Replay(known, c, ps)
    decreases |qs|
  {
    hide Replay, Apply, Swappable, Proper;
    if qs == [] {
      NoneInPermutation(qs, ps);
    } else {
      var q := qs[|qs| - 1];
      var front := qs[..|qs| - 1];
      assert qs == front + [q];
      SamePermuted(known, c.Keys, qs, ps);
      var i := LastInPermutation(qs, ps);
      var a, b := ps[..i], ps[i + 1..];
      ReplayPermutes(known, c, front, a + b);
      assert ps[i] == q && forall j :: 0 <= j < |b| ==> b[j] == ps[i + 1 + j];
      ChargeToEnd(known, c, a, q, b);
      ReplayLast(known, c, front, q);
    }
  }

  lemma {:induction false} SamePermuted(known: set<int>, cells: set<Cell>, qs: seq<Charge>, ps: seq<Charge>)
    requires multiset(qs) == multiset(ps) && AllProper(qs) && PairwiseSwappable(known, cells, qs)
    ensures AllProper(ps) && PairwiseSwappable(known, cells, ps)
  {
    hide Swappable, Proper;
    forall i | 0 <= i < |ps|
      ensures exists k :: 0 <= k < |qs| && qs[k] == ps[i]
    {
      assert ps[i] in multiset(ps);
      assert ps[i] in multiset(qs);
    }
  }

  /** Memory requests that each name a single node never depend on order. */
  lemma {:induction false} SingleNodesSwappable(known: set<int>, cells: set<Cell>, qs: seq<Charge>)
    requires AllProper(qs)
    requires forall i :: 0 <= i < |qs| && qs[i].Memory? ==> |qs[i].nodes| == 1
    ensures PairwiseSwappable(known, cells, qs)
  {
    hide OrderFree, Effective;
    forall i, j | 0 <= i < |qs| && 0 <= j < |qs|
      ensures Swappable(known, cells, qs[i], qs[j])
    {
      if qs[i].Memory? && qs[j].Memory? {
        OneNodePath(known, cells, qs[i].name, qs[i].nodes);
        OneNodePath(known, cells, qs[i].name, qs[j].nodes);
        PlainListsAgree(Effective(known, cells, qs[i].name, qs[i].nodes), Effective(known, cells, qs[i].name, qs[j].nodes));
      }
    }
  }

  lemma {:induction false} OneNodePath(known: set<int>, cells: set<Cell>, r: string, nodes: seq<int>)
    requires |nodes| == 1
    ensures |Effective(known, cells, r, nodes)| <= 1
  {
    PathNext(known, cells, r, nodes, {});
    assert nodes[1..] == [];
    assert Path(known, cells, r, [], {}) == [] == Path(known, cells, r, [], {nodes[0]});
  }

  // ---- Exactly when order does not matter ----

  /** Two charges may be swapped on all counters if and only if they are Swappable. */
  lemma {:induction false} SwappableExactly(known: set<int>, cells: set<Cell>, q1: Charge, q2: Charge)
    requires Proper(q1) && Proper(q2)
    ensures Swappable(known, cells, q1, q2)
       <==> forall c: Counters :: c.Keys == cells && MemoryNonNegative(c) ==> ChargesSwap(known, c, q1, q2)
  {
    hide Fill, Apply, ChargesSwap, OrderFree, Effective;
    if Swappable(known, cells, q1, q2) {
      forall c: Counters | c.Keys == cells && MemoryNonNegative(c)
        ensures ChargesSwap(known, c, q1, q2)
      {
        SwapCharges(known, c, q1, q2);
      }
    } else {
      var c, key := UnswappableEnds(known, cells, q1, q2, 0);
      assert !ChargesSwap(known, c, q1, q2);
    }
  }

  /** For two charges that are not Swappable, counters on which their order shows, even after further requests for
      extra bytes. */
  lemma {:induction false} UnswappableEnds(known: set<int>, cells: set<Cell>, q1: Charge, q2: Charge, extra: nat)
    returns (c: Counters, key: Cell)
    requires Proper(q1) && Proper(q2) && !Swappable(known, cells, q1, q2)
    ensures q1.Memory? && q2.Memory? && q1.name == q2.name && c.Keys == cells && MemoryNonNegative(c)
    ensures
      var a, b := Apply(known, Apply(known, c, q1), q2), Apply(known, Apply(known, c, q2), q1);
      Parallel(a, b, q1.name, extra) && key in a && key.1 == q1.name && a[key] != b[key]
    ensures !ChargesSwap(known, c, q1, q2)
  {
    hide Fill, OrderFree, Effective;
    var r := q1.name;
    if q1.size <= q2.size {
      c, key := OrderMatters(known, cells, r, q1.nodes, q1.size, q2.nodes, q2.size, extra);
    } else {
      OrderFreeSymmetric(Effective(known, cells, r, q1.nodes), Effective(known, cells, r, q2.nodes));
      c, key := OrderMatters(known, cells, r, q2.nodes, q2.size, q1.nodes, q1.size, extra);
    }
  }

  ghost predicate SameGaps(a: Counters, b: Counters, a1: Counters, b1: Counters, r: string)
    requires a.Keys == b.Keys == a1.Keys == b1.Keys
  {
    forall k :: k in a && k.1 == r ==> a1[k] - b1[k] == a[k] - b[k]
  }

  lemma {:induction false} ParallelFirst(a: Counters, b: Counters, r: string, e: nat, path: seq<int>)
    requires Parallel(a, b, r, e)
    ensures First(a, r, path) == First(b, r, path)
  {
    if path != [] {
      assert (path[0], r) in a <==> (path[0], r) in b;
      ParallelFirst(a, b, r, e, path[1..]);
    }
  }

  lemma {:induction false} ParallelFill(known: set<int>, a: Counters, b: Counters, r: string, nodes: seq<int>, size: nat, e: nat)
    requires Parallel(a, b, r, size + e)
    ensures Parallel(Fill(known, a, r, nodes, size), Fill(known, b, r, nodes, size), r, e)
    ensures SameGaps(a, b, Fill(known, a, r, nodes, size), Fill(known, b, r, nodes, size), r)
  {
    hide Fill, First, Effective;
    var path := Effective(known, a.Keys, r, nodes);
    ParallelFirst(a, b, r, size + e, path);
    FillLess(known, a, r, nodes, size, First(a, r, path));
    FillLess(known, b, r, nodes, size, First(b, r, path));
  }

  /** Further requests that plenty covers keep two parallel ledgers parallel, and their differences. */
  lemma {:induction false} ParallelReplay(known: set<int>, a: Counters, b: Counters, r: string, qs: seq<Charge>, e: nat)
    requires IsMemoryLike(r) && AllProper(qs) && Parallel(a, b, r, RequestedTotal(qs, r) + e)
    ensures Parallel(Replay(known, a, qs), Replay(known, b, qs), r, e)
    ensures SameGaps(a, b, Replay(known, a, qs), Replay(known, b, qs), r)
  {
    hide Fill;
    if qs != [] {
      var front, q := qs[..|qs| - 1], qs[|qs| - 1];
      assert Proper(q);
      var size := if q.Memory? && q.name == r then q.size else 0;
      ParallelReplay(known, a, b, r, front, size + e);
      var a1, b1 := Replay(known, a, front), Replay(known, b, front);
      if q.Memory? && q.name == r {
        ParallelFill(known, a1, b1, r, q.nodes, q.size, e);
      } else {
        OtherCharge(known, a1, q, r);
        OtherCharge(known, b1, q, r);
      }
    }
  }

  /** Every order of the charges gives the same counters, from any start over these cells. */
  ghost predicate OrderIrrelevant(known: set<int>, cells: set<Cell>, qs: seq<Charge>) {
    forall c: Counters, ps: seq<Charge> :: c.Keys == cells && MemoryNonNegative(c) && multiset(ps) == multiset(qs)
      ==> Replay(known, c, ps) == Replay(known, c, qs)
  }

  /** A list of charges may be reordered freely, from any non-negative start, if and only if any two of them may be
      swapped. */
  lemma {:induction false} OrderIrrelevantExactly(known: set<int>, cells: set<Cell>, qs: seq<Charge>)
    requires AllProper(qs)
    ensures OrderIrrelevant(known, cells, qs) <==> PairwiseSwappable(known, cells, qs)
  {
    hide Replay, Swappable, Proper;
    if PairwiseSwappable(known, cells, qs) {
      forall c: Counters, ps: seq<Charge> | c.Keys == cells && MemoryNonNegative(c) && multiset(ps) == multiset(qs)
        ensures Replay(known, c, ps) == Replay(known, c, qs)
      {
        ReplayPermutes(known, c, qs, ps);
      }
    } else {
      var i, j :| 0 <= i < |qs| && 0 <= j < |qs| && !Swappable(known, cells, qs[i], qs[j]);
      SwappableSymmetric(known, cells, qs[i], qs[j]);
      if i < j {
        BadPairShows(known, cells, qs, i, j);
      } else {
        BadPairShows(known, cells, qs, j, i);
      }
    }
  }

  lemma {:induction false} SwappableSymmetric(known: set<int>, cells: set<Cell>, q1: Charge, q2: Charge)
    ensures Swappable(known, cells, q1, q2) <==> Swappable(known, cells, q2, q1)
    ensures Proper(q1) ==> Swappable(known, cells, q1, q1)
  {
    if q1.Memory? && q2.Memory? && q1.name == q2.name {
      OrderFreeSymmetric(Effective(known, cells, q1.name, q1.nodes), Effective(known, cells, q1.name, q2.nodes));
    }
    if q1.Memory? {
      var p := Effective(known, cells, q1.name, q1.nodes);
      PlainListsAgree(p, p);
    }
  }

  lemma {:induction false} ReplayTwo(known: set<int>, c: Counters, q1: Charge, q2: Charge, rest: seq<Charge>)
    ensures Replay(known, c, [q1, q2] + rest) == Replay(known, Apply(known, Apply(known, c, q1), q2), rest)
  {
    ReplayAppend(known, c, [q1, q2], rest);
    ReplayLast(known, c, [q1], q2);
    ReplayLast(known, c, [], q1);
    assert [q1] + [q2] == [q1, q2] && [] + [q1] == [q1] && Replay(known, c, []) == c;
  }

  /** Two charges of the list first, in either order, then the others. */
  lemma {:induction false} PairFirst(qs: seq<Charge>, i: nat, j: nat) returns (rest: seq<Charge>)
    requires i < j < |qs| && AllProper(qs)
    ensures AllProper(rest)
    ensures multiset([qs[i], qs[j]] + rest) == multiset(qs) == multiset([qs[j], qs[i]] + rest)
  {
    hide Proper;
    var a, b, c := qs[..i], qs[i + 1..j], qs[j + 1..];
    rest := a + b + c;
    assert qs == a + [qs[i]] + b + [qs[j]] + c;
    assert forall k :: 0 <= k < |rest| ==> rest[k] in qs;
  }

  lemma {:induction false} PairShows(known: set<int>, cells: set<Cell>, q1: Charge, q2: Charge, rest: seq<Charge>)
    returns (c: Counters)
    requires Proper(q1) && Proper(q2) && AllProper(rest) && !Swappable(known, cells, q1, q2)
    ensures c.Keys == cells && MemoryNonNegative(c)
    ensures Replay(known, c, [q1, q2] + rest) != Replay(known, c, [q2, q1] + rest)
  {
    hide Replay, Swappable, Apply, Parallel;
    RequestedTotalNonNegative(rest, q1.name);
    var key;
    c, key := UnswappableEnds(known, cells, q1, q2, RequestedTotal(rest, q1.name));
    var a, b := Apply(known, Apply(known, c, q1), q2), Apply(known, Apply(known, c, q2), q1);
    ParallelReplay(known, a, b, q1.name, rest, 0);
    ReplayTwo(known, c, q1, q2, rest);
    ReplayTwo(known, c, q2, q1, rest);
    assert Replay(known, a, rest)[key] != Replay(known, b, rest)[key];
  }

  /** A pair that may not be swapped, replayed first in either order, still shows at the end. */
  lemma {:induction false} BadPairShows(known: set<int>, cells: set<Cell>, qs: seq<Charge>, i: nat, j: nat)
    requires AllProper(qs) && i < j < |qs| && !Swappable(known, cells, qs[i], qs[j])
    ensures !OrderIrrelevant(known, cells, qs)
  {
    hide Replay, Swappable;
    var rest := PairFirst(qs, i, j);
    var c := PairShows(known, cells, qs[i], qs[j], rest);
    var ps1, ps2 := [qs[i], qs[j]] + rest, [qs[j], qs[i]] + rest;
    assert Replay(known, c, ps1) != Replay(known, c, ps2);
  }

  lemma {:induction false} RequestedTotalNonNegative(qs: seq<Charge>, r: string)
    requires AllProper(qs)
    ensures RequestedTotal(qs, r) >= 0
  {
    if qs != [] {
      RequestedTotalNonNegative(qs[..|qs| - 1], r);
      assert Proper(qs[|qs| - 1]);
    }
  }
}
