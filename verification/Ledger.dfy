/** The replay of pod holdings against the Available counters, on values: a counter per (NUMA node, resource name).
    Device and CPU holdings decrement one counter each; memory holdings are taken greedily from a list of nodes. */
module Ledger {
  import opened Common
  import opened PodResourcesApi

  type Cell = (int, string)
  type Counters = map<Cell, int>

  /** What one step of the replay charges: one device of a resource at a node, or bytes over a list of nodes. */
  datatype Charge = Unit(node: int, name: string) | Memory(name: string, nodes: seq<int>, size: int)

  /** The counters after the greedy fill. known holds the NUMA nodes of the topology. */
  function Fill(known: set<int>, c: Counters, name: string, nodes: seq<int>, size: int): (r: Counters)
    ensures r.Keys == c.Keys
    decreases nodes
  {
    if nodes == [] || size == 0 then c
    else if nodes[0] !in known then Fill(known, c, name, nodes[1..], size)
    else if (nodes[0], name) !in c then c
    else
      var a := c[(nodes[0], name)];
      if a == 0 then Fill(known, c, name, nodes[1..], size)
      else if size >= a then Fill(known, c[(nodes[0], name) := 0], name, nodes[1..], size - a)
      else c[(nodes[0], name) := a - size]
  }

  function Apply(known: set<int>, c: Counters, q: Charge): (r: Counters)
    ensures r.Keys == c.Keys
  {
    match q
    case Unit(n, name) => if n in known && (n, name) in c then c[(n, name) := c[(n, name)] - 1] else c
    case Memory(name, nodes, size) => Fill(known, c, name, nodes, size)
  }

  /** A device charge against a known node that has no such counter dereferences a nil entry. */
  predicate Faults(known: set<int>, cells: set<Cell>, q: Charge) {
    q.Unit? && q.node in known && (q.node, q.name) !in cells
  }

  function Replay(known: set<int>, c: Counters, qs: seq<Charge>): (r: Counters)
    ensures r.Keys == c.Keys
  {
    if qs == [] then c else Apply(known, Replay(known, c, qs[..|qs| - 1]), qs[|qs| - 1])
  }

  lemma {:induction false} ReplayAppend(known: set<int>, c: Counters, a: seq<Charge>, b: seq<Charge>)
    ensures Replay(known, c, a + b) == Replay(known, Replay(known, c, a), b)
  {
    if b == [] {
      assert a + b == a;
    } else {
      assert (a + b)[..|a + b| - 1] == a + b[..|b| - 1];
      ReplayAppend(known, c, a, b[..|b| - 1]);
    }
  }

  // ---- Bounds and monotonicity ----

  ghost predicate NonNegative(c: Counters, name: string) {
    forall k :: k in c && k.1 == name ==> c[k] >= 0
  }

  ghost predicate AtMost(c: Counters, d: Counters) {
    c.Keys == d.Keys && forall k :: k in c ==> c[k] <= d[k]
  }

  /** The fill changes only counters of its own resource on nodes of its list. */
  lemma {:induction false} FillFrame(known: set<int>, c: Counters, name: string, nodes: seq<int>, size: int, k: Cell)
    requires k in c && (k.1 != name || k.0 !in nodes)
    ensures Fill(known, c, name, nodes, size)[k] == c[k]
    decreases nodes
  {
    if nodes != [] && size != 0 {
      var h := (nodes[0], name);
      FillFrame(known, c, name, nodes[1..], size, k);
      if h in c && size >= c[h] {
        FillFrame(known, c[h := 0], name, nodes[1..], size - c[h], k);
      }
    }
  }

  /** Less left in the counters and more still wanted never leaves more behind. */
  lemma {:induction false} FillMonotone(known: set<int>, c: Counters, d: Counters, name: string, nodes: seq<int>, x: int, y: int)
    requires AtMost(c, d) && NonNegative(c, name) && x >= y >= 0
    ensures AtMost(Fill(known, c, name, nodes, x), Fill(known, d, name, nodes, y))
    decreases nodes
  {
    if nodes != [] && x != 0 {
      var h := (nodes[0], name);
      if nodes[0] !in known {
        FillMonotone(known, c, d, name, nodes[1..], x, y);
      } else if h in c {
        var c1 := c[h := Max(0, c[h] - x)];
        var d1 := d[h := Max(0, d[h] - y)];
        FillHead(known, c, name, nodes, x);
        FillHead(known, d, name, nodes, y);
        FillMonotone(known, c1, d1, name, nodes[1..], Max(0, x - c[h]), Max(0, y - d[h]));
      }
    }
  }

  /** One step of the fill at a node that has the counter, without its case distinctions. */
  lemma {:induction false} FillHead(known: set<int>, c: Counters, name: string, nodes: seq<int>, size: int)
    requires nodes != [] && nodes[0] in known && (nodes[0], name) in c
    requires c[(nodes[0], name)] >= 0 && size >= 0
    ensures
      var a := c[(nodes[0], name)];
      Fill(known, c, name, nodes, size)
        == Fill(known, c[(nodes[0], name) := Max(0, a - size)], name, nodes[1..], Max(0, size - a))
  {
    var a := c[(nodes[0], name)];
    if a == 0 || size == 0 {
      assert c[(nodes[0], name) := a] == c;
    }
  }

  lemma {:induction false} FillNonNegative(known: set<int>, c: Counters, name: string, nodes: seq<int>, size: int)
    requires NonNegative(c, name) && size >= 0
    ensures NonNegative(Fill(known, c, name, nodes, size), name)
    ensures AtMost(Fill(known, c, name, nodes, size), c)
    decreases nodes
  {
    if nodes != [] && size != 0 {
      var h := (nodes[0], name);
      if nodes[0] !in known {
        FillNonNegative(known, c, name, nodes[1..], size);
      } else if h in c {
        FillHead(known, c, name, nodes, size);
        FillNonNegative(known, c[h := Max(0, c[h] - size)], name, nodes[1..], Max(0, size - c[h]));
      }
    }
  }

  // ---- Closed form of the greedy fill ----

  /** The nodes the fill takes from, in order: unknown nodes and repeats are skipped, and the first known node
      without the resource ends the list. seen holds the nodes already passed. */
  function Path(known: set<int>, cells: set<Cell>, name: string, nodes: seq<int>, seen: set<int>): (p: seq<int>)
    ensures forall i :: 0 <= i < |p| ==> p[i] in known && p[i] !in seen && (p[i], name) in cells && p[i] in nodes
    ensures Distinct(p)
    decreases nodes
  {
    if nodes == [] then []
    else if nodes[0] !in known || nodes[0] in seen then Path(known, cells, name, nodes[1..], seen)
    else if (nodes[0], name) !in cells then []
    else [nodes[0]] + Path(known, cells, name, nodes[1..], seen + {nodes[0]})
  }

  ghost predicate OnPath(c: Counters, name: string, path: seq<int>) {
    Distinct(path) && forall i :: 0 <= i < |path| ==> (path[i], name) in c
  }

  /** What the first k nodes of the path have available together. */
  function Before(c: Counters, name: string, path: seq<int>, k: nat): int
    requires k <= |path| && forall i :: 0 <= i < |path| ==> (path[i], name) in c
  {
    if k == 0 then 0 else Before(c, name, path, k - 1) + c[(path[k - 1], name)]
  }

  function Drain(c: Counters, name: string, path: seq<int>, size: int): (r: Counters)
    requires forall i :: 0 <= i < |path| ==> (path[i], name) in c
    ensures r.Keys == c.Keys
    decreases path
  {
    if path == [] then c
    else
      var a := c[(path[0], name)];
      Drain(c[(path[0], name) := Max(0, a - size)], name, path[1..], Max(0, size - a))
  }

  lemma {:induction false} DrainZero(c: Counters, name: string, path: seq<int>)
    requires NonNegative(c, name) && forall i :: 0 <= i < |path| ==> (path[i], name) in c
    ensures Drain(c, name, path, 0) == c
    decreases path
  {
    if path != [] {
      assert c[(path[0], name) := c[(path[0], name)]] == c;
      DrainZero(c, name, path[1..]);
    }
  }

  lemma {:induction false} FillStops(known: set<int>, c: Counters, name: string, nodes: seq<int>, size: int)
    ensures nodes == [] || size == 0 ==> Fill(known, c, name, nodes, size) == c
    ensures nodes != [] && nodes[0] in known && (nodes[0], name) !in c ==> Fill(known, c, name, nodes, size) == c
    ensures nodes != [] && nodes[0] !in known ==> Fill(known, c, name, nodes, size) == Fill(known, c, name, nodes[1..], size)
  {
  }

  /** The nodes already passed have counters, and empty ones unless nothing is wanted any more. */
  ghost predicate Passed(c: Counters, name: string, seen: set<int>, size: int) {
    forall n :: n in seen ==> (n, name) in c && (size != 0 ==> c[(n, name)] == 0)
  }

  lemma {:induction false} PassedNext(c: Counters, name: string, seen: set<int>, n: int, size: int)
    requires Passed(c, name, seen, size) && NonNegative(c, name) && size > 0 && (n, name) in c
    ensures
      var a := c[(n, name)];
      var c1 := c[(n, name) := Max(0, a - size)];
      && NonNegative(c1, name) && Passed(c1, name, seen + {n}, Max(0, size - a))
      && (n in seen ==> a == 0 && c1 == c)
  {
  }

  lemma {:induction false} PathNext(known: set<int>, cells: set<Cell>, name: string, nodes: seq<int>, seen: set<int>)
    requires nodes != []
    ensures
      var rest := Path(known, cells, name, nodes[1..], seen + {nodes[0]});
      Path(known, cells, name, nodes, seen)
        == if nodes[0] !in known || nodes[0] in seen then Path(known, cells, name, nodes[1..], seen)
           else if (nodes[0], name) !in cells then []
           else [nodes[0]] + rest
  {
  }

  lemma {:induction false} DrainNext(c: Counters, name: string, n: int, rest: seq<int>, size: int)
    requires (n, name) in c && forall i :: 0 <= i < |rest| ==> (rest[i], name) in c
    ensures
      var a := c[(n, name)];
      Drain(c, name, [n] + rest, size) == Drain(c[(n, name) := Max(0, a - size)], name, rest, Max(0, size - a))
  {
  }

  lemma {:induction false} FillIsDrain(known: set<int>, c: Counters, name: string, nodes: seq<int>, size: int, seen: set<int>)
    requires NonNegative(c, name) && size >= 0 && Passed(c, name, seen, size)
    ensures Fill(known, c, name, nodes, size) == Drain(c, name, Path(known, c.Keys, name, nodes, seen), size)
    decreases nodes
  {
    hide Fill, Drain, Path, Passed;
    FillStops(known, c, name, nodes, size);
    var path := Path(known, c.Keys, name, nodes, seen);
    if size == 0 {
      DrainZero(c, name, path);
    } else if nodes == [] {
      NoPath(known, c, name, seen, size);
    } else {
      var n := nodes[0];
      var h := (n, name);
      PathNext(known, c.Keys, name, nodes, seen);
      if n !in known {
        FillIsDrain(known, c, name, nodes[1..], size, seen);
      } else if h !in c {
        NoPath(known, c, name, seen, size);
        assert n !in seen by { SeenHasCounter(c, name, seen, size); }
      } else {
        PassedNext(c, name, seen, n, size);
        FillHead(known, c, name, nodes, size);
        if n in seen {
          FillIsDrain(known, c, name, nodes[1..], size, seen);
        } else {
          FillIsDrain(known, c[h := Max(0, c[h] - size)], name, nodes[1..], Max(0, size - c[h]), seen + {n});
          DrainNext(c, name, n, Path(known, c.Keys, name, nodes[1..], seen + {n}), size);
        }
      }
    }
  }

  lemma {:induction false} NoPath(known: set<int>, c: Counters, name: string, seen: set<int>, size: int)
    ensures Path(known, c.Keys, name, [], seen) == [] && Drain(c, name, [], size) == c
  {
  }

  lemma {:induction false} SeenHasCounter(c: Counters, name: string, seen: set<int>, size: int)
    requires Passed(c, name, seen, size)
    ensures forall n :: n in seen ==> (n, name) in c
  {
  }

  lemma {:induction false} BeforeShift(c: Counters, c1: Counters, name: string, path: seq<int>, k: nat)
    requires OnPath(c, name, path) && c1.Keys == c.Keys && 0 < k <= |path|
    requires forall i :: 1 <= i < |path| ==> c1[(path[i], name)] == c[(path[i], name)]
    ensures Before(c1, name, path[1..], k - 1) == Before(c, name, path, k) - c[(path[0], name)]
  {
    if k > 1 {
      BeforeShift(c, c1, name, path, k - 1);
    } else {
      assert Before(c, name, path, 1) == Before(c, name, path, 0) + c[(path[0], name)];
    }
  }

  lemma {:induction false} BeforeNonNegative(c: Counters, name: string, path: seq<int>, k: nat)
    requires OnPath(c, name, path) && NonNegative(c, name) && k <= |path|
    ensures Before(c, name, path, k) >= 0
  {
    if k > 0 {
      BeforeNonNegative(c, name, path, k - 1);
    }
  }

  lemma {:induction false} DrainFrame(c: Counters, name: string, path: seq<int>, size: int, key: Cell)
    requires OnPath(c, name, path) && key in c && (key.1 != name || key.0 !in path)
    ensures Drain(c, name, path, size)[key] == c[key]
    decreases path
  {
    if path != [] {
      var a := c[(path[0], name)];
      DrainFrame(c[(path[0], name) := Max(0, a - size)], name, path[1..], Max(0, size - a), key);
    }
  }

  lemma {:induction false} DrainAt(c: Counters, name: string, path: seq<int>, size: int, k: nat)
    requires OnPath(c, name, path) && NonNegative(c, name) && size >= 0 && k < |path|
    ensures Drain(c, name, path, size)[(path[k], name)]
         == Max(0, c[(path[k], name)] - Max(0, size - Before(c, name, path, k)))
    decreases path
  {
    var h := (path[0], name);
    var a := c[h];
    var c1 := c[h := Max(0, a - size)];
    if k == 0 {
      DrainFrame(c1, name, path[1..], Max(0, size - a), h);
    } else {
      DrainAt(c1, name, path[1..], Max(0, size - a), k - 1);
      BeforeShift(c, c1, name, path, k);
      assert path[k] == path[1..][k - 1] && path[k] != path[0];
      BeforeNonNegative(c1, name, path[1..], k - 1);
    }
  }

  /** Closed form: the k-th node of the path keeps what the request does not reach after emptying the nodes before
      it, and every counter off the path is unchanged. */
  lemma {:induction false} FillClosedForm(known: set<int>, c: Counters, name: string, nodes: seq<int>, size: int)
    requires NonNegative(c, name) && size >= 0
    ensures
      var path := Path(known, c.Keys, name, nodes, {});
      var r := Fill(known, c, name, nodes, size);
      && (forall k :: 0 <= k < |path| ==>
            r[(path[k], name)] == Max(0, c[(path[k], name)] - Max(0, size - Before(c, name, path, k))))
      && (forall key :: key in c && (key.1 != name || key.0 !in path) ==> r[key] == c[key])
  {
    hide Fill, Path, Drain, Before;
    var path := Path(known, c.Keys, name, nodes, {});
    FillIsDrain(known, c, name, nodes, size, {});
    forall k | 0 <= k < |path|
      ensures Drain(c, name, path, size)[(path[k], name)]
           == Max(0, c[(path[k], name)] - Max(0, size - Before(c, name, path, k)))
    {
      DrainAt(c, name, path, size, k);
    }
    forall key | key in c && (key.1 != name || key.0 !in path)
      ensures Drain(c, name, path, size)[key] == c[key]
    {
      DrainFrame(c, name, path, size, key);
    }
  }

  /** After a fill, any prefix of the path holds what it held less the request, never less than nothing. */
  lemma {:induction false} FillPrefix(known: set<int>, c: Counters, name: string, nodes: seq<int>, size: int, k: nat)
    requires NonNegative(c, name) && size >= 0
    requires k <= |Path(known, c.Keys, name, nodes, {})|
    ensures
      var path := Path(known, c.Keys, name, nodes, {});
      Before(Fill(known, c, name, nodes, size), name, path, k) == Max(0, Before(c, name, path, k) - size)
  {
    hide Fill, Path, Drain, Before;
    var path := Path(known, c.Keys, name, nodes, {});
    var r := Fill(known, c, name, nodes, size);
    BeforeNone(c, name, path);
    BeforeNone(r, name, path);
    if k > 0 {
      FillPrefix(known, c, name, nodes, size, k - 1);
      FillClosedForm(known, c, name, nodes, size);
      BeforeStep(c, name, path, k - 1);
      BeforeStep(r, name, path, k - 1);
      BeforeNonNegative(c, name, path, k - 1);
    }
  }

  /** Conservation: exactly the request is consumed, or everything there is; and a node is touched only when all
      the nodes before it end empty. */
  lemma {:induction false} FillConserves(known: set<int>, c: Counters, name: string, nodes: seq<int>, size: int)
    requires NonNegative(c, name) && size >= 0
    ensures
      var path := Path(known, c.Keys, name, nodes, {});
      var r := Fill(known, c, name, nodes, size);
      && Before(c, name, path, |path|) - Before(r, name, path, |path|) == Min(size, Before(c, name, path, |path|))
      && (forall j, k :: 0 <= j < k < |path| && r[(path[k], name)] != c[(path[k], name)] ==> r[(path[j], name)] == 0)
  {
    hide Fill, Path, Drain, Before;
    var path := Path(known, c.Keys, name, nodes, {});
    FillPrefix(known, c, name, nodes, size, |path|);
    BeforeNonNegative(c, name, path, |path|);
    FillClosedForm(known, c, name, nodes, size);
    forall j, k | 0 <= j < k < |path| && size > Before(c, name, path, k)
      ensures size >= Before(c, name, path, j) + c[(path[j], name)]
    {
      BeforeStep(c, name, path, j);
      BeforeAscends(c, name, path, j + 1, k);
    }
  }

  lemma {:induction false} BeforeNone(c: Counters, name: string, path: seq<int>)
    requires OnPath(c, name, path)
    ensures Before(c, name, path, 0) == 0
  {
  }

  lemma {:induction false} BeforeStep(c: Counters, name: string, path: seq<int>, k: nat)
    requires OnPath(c, name, path) && k < |path|
    ensures Before(c, name, path, k + 1) == Before(c, name, path, k) + c[(path[k], name)]
  {
  }

  lemma {:induction false} BeforeAscends(c: Counters, name: string, path: seq<int>, j: nat, k: nat)
    requires OnPath(c, name, path) && NonNegative(c, name) && j <= k <= |path|
    ensures Before(c, name, path, j) <= Before(c, name, path, k)
  {
    if j < k {
      BeforeAscends(c, name, path, j, k - 1);
    }
  }

  // ---- Composition and commutation of fills ----

  /** What two requests in turn leave of a node that has a, with b before it. */
  lemma {:induction false} TwiceAmount(a: int, b: int, x: int, y: int)
    requires a >= 0 && b >= 0 && x >= 0 && y >= 0
    ensures Max(0, Max(0, a - Max(0, x - b)) - Max(0, y - Max(0, b - x))) == Max(0, a - Max(0, x + y - b))
  {
  }

  lemma {:induction false} FillTwiceAt(known: set<int>, c: Counters, name: string, nodes: seq<int>, x: int, y: int, key: Cell)
    requires NonNegative(c, name) && x >= 0 && y >= 0 && key in c
    ensures Fill(known, Fill(known, c, name, nodes, x), name, nodes, y)[key] == Fill(known, c, name, nodes, x + y)[key]
  {
    hide Fill, Path, Drain, Before, Max;
    var path := Path(known, c.Keys, name, nodes, {});
    var b := Fill(known, c, name, nodes, x);
    FillNonNegative(known, c, name, nodes, x);
    FillClosedForm(known, c, name, nodes, x);
    FillClosedForm(known, b, name, nodes, y);
    FillClosedForm(known, c, name, nodes, x + y);
    if key.1 == name && key.0 in path {
      var k :| 0 <= k < |path| && path[k] == key.0;
      FillPrefix(known, c, name, nodes, x, k);
      BeforeNonNegative(c, name, path, k);
      assert key == (path[k], name);
      TwiceAmount(c[key], Before(c, name, path, k), x, y);
    }
  }

  /** Two requests over one node list, repeats and unknown nodes included, cost what their sum costs. */
  lemma {:induction false} FillComposes(known: set<int>, c: Counters, name: string, nodes: seq<int>, x: int, y: int)
    requires NonNegative(c, name) && x >= 0 && y >= 0
    ensures Fill(known, Fill(known, c, name, nodes, x), name, nodes, y) == Fill(known, c, name, nodes, x + y)
  {
    hide Fill;
    forall key | key in c
      ensures Fill(known, Fill(known, c, name, nodes, x), name, nodes, y)[key] == Fill(known, c, name, nodes, x + y)[key]
    {
      FillTwiceAt(known, c, name, nodes, x, y, key);
    }
  }

  ghost predicate Apart(name: string, nodes: seq<int>, k: Cell) {
    k.1 != name || k.0 !in nodes
  }

  lemma {:induction false} FillIgnores(known: set<int>, c: Counters, name: string, nodes: seq<int>, size: int, k: Cell, v: int)
    requires k in c && Apart(name, nodes, k)
    ensures Fill(known, c[k := v], name, nodes, size) == Fill(known, c, name, nodes, size)[k := v]
    decreases nodes
  {
    if nodes != [] && size != 0 {
      var h := (nodes[0], name);
      FillIgnores(known, c, name, nodes[1..], size, k, v);
      if h in c {
        FillIgnores(known, c[h := 0], name, nodes[1..], size - c[h], k, v);
        assert c[h := 0][k := v] == c[k := v][h := 0];
        assert c[h := c[h] - size][k := v] == c[k := v][h := c[h] - size];
      }
    }
  }

  predicate DisjointNodes(nodes1: seq<int>, nodes2: seq<int>) {
    forall i :: 0 <= i < |nodes1| ==> nodes1[i] !in nodes2
  }

  /** Requests on disjoint counters commute. */
  lemma {:induction false} FillsCommute(known: set<int>, c: Counters, name1: string, nodes1: seq<int>, x: int,
                                        name2: string, nodes2: seq<int>, y: int)
    requires name1 != name2 || DisjointNodes(nodes1, nodes2)
    ensures Fill(known, Fill(known, c, name1, nodes1, x), name2, nodes2, y)
         == Fill(known, Fill(known, c, name2, nodes2, y), name1, nodes1, x)
    decreases nodes1
  {
    if nodes1 != [] && x != 0 {
      var h := (nodes1[0], name1);
      FillsCommute(known, c, name1, nodes1[1..], x, name2, nodes2, y);
      if h in c {
        FillFrame(known, c, name2, nodes2, y, h);
        FillIgnores(known, c, name2, nodes2, y, h, 0);
        FillIgnores(known, c, name2, nodes2, y, h, c[h] - x);
        FillsCommute(known, c[h := 0], name1, nodes1[1..], x - c[h], name2, nodes2, y);
      }
    }
  }

  /** A charge as the replay of any pods makes it: only memory requests are of memory types. */
  predicate Typed(q: Charge) {
    q.Memory? <==> IsMemoryLike(q.name)
  }

  predicate AllTyped(qs: seq<Charge>) {
    forall i :: 0 <= i < |qs| ==> Typed(qs[i])
  }

  /** A charge as the replay of scanned pods makes it: memory requests are not negative either. */
  predicate Proper(q: Charge) {
    Typed(q) && (q.Memory? ==> q.size >= 0)
  }

  predicate AllProper(qs: seq<Charge>) {
    forall i :: 0 <= i < |qs| ==> Proper(qs[i])
  }

  ghost predicate MemoryNonNegative(c: Counters) {
    forall k :: k in c && IsMemoryLike(k.1) ==> c[k] >= 0
  }

  lemma {:induction false} UnitPastFill(known: set<int>, c: Counters, n: int, r: string, name: string, nodes: seq<int>, size: int)
    requires r != name
    ensures Fill(known, Apply(known, c, Unit(n, r)), name, nodes, size)
         == Apply(known, Fill(known, c, name, nodes, size), Unit(n, r))
  {
    if (n, r) in c {
      FillFrame(known, c, name, nodes, size, (n, r));
      FillIgnores(known, c, name, nodes, size, (n, r), c[(n, r)] - 1);
    }
  }

  // ---- The whole replay ----

  lemma {:induction false} ApplyDecreases(known: set<int>, c: Counters, q: Charge)
    requires MemoryNonNegative(c) && Proper(q)
    ensures MemoryNonNegative(Apply(known, c, q)) && AtMost(Apply(known, c, q), c)
  {
    if q.Memory? {
      FillNonNegative(known, c, q.name, q.nodes, q.size);
      var r := Apply(known, c, q);
      forall k | k in r && IsMemoryLike(k.1)
        ensures r[k] >= 0
      {
        if k.1 != q.name {
          FillFrame(known, c, q.name, q.nodes, q.size, k);
        }
      }
    }
  }

  /** Available never rises during a replay, and memory counters never go below zero. */
  lemma {:induction false} ReplayDecreases(known: set<int>, c: Counters, qs: seq<Charge>)
    requires MemoryNonNegative(c) && AllProper(qs)
    ensures MemoryNonNegative(Replay(known, c, qs)) && AtMost(Replay(known, c, qs), c)
  {
    if qs != [] {
      ReplayDecreases(known, c, qs[..|qs| - 1]);
      ApplyDecreases(known, Replay(known, c, qs[..|qs| - 1]), qs[|qs| - 1]);
    }
  }

  lemma {:induction false} ReplayMonotone(known: set<int>, c: Counters, d: Counters, qs: seq<Charge>)
    requires AtMost(c, d) && MemoryNonNegative(c) && AllProper(qs)
    ensures AtMost(Replay(known, c, qs), Replay(known, d, qs))
  {
    if qs != [] {
      var front := qs[..|qs| - 1];
      var q := qs[|qs| - 1];
      ReplayMonotone(known, c, d, front);
      ReplayDecreases(known, c, front);
      if q.Memory? {
        FillMonotone(known, Replay(known, c, front), Replay(known, d, front), q.name, q.nodes, q.size, q.size);
      }
    }
  }

  /** Charges put anywhere in the middle leave no counter higher than it ends without them. */
  lemma {:induction false} ReplayInsert(known: set<int>, c: Counters, a: seq<Charge>, p: seq<Charge>, b: seq<Charge>)
    requires MemoryNonNegative(c) && AllProper(a) && AllProper(p) && AllProper(b)
    ensures AtMost(Replay(known, c, a + p + b), Replay(known, c, a + b))
  {
    ReplayAppend(known, c, a + p, b);
    ReplayAppend(known, c, a, p);
    ReplayAppend(known, c, a, b);
    var c1 := Replay(known, c, a);
    ReplayDecreases(known, c, a);
    ReplayDecreases(known, c1, p);
    ReplayMonotone(known, Replay(known, c1, p), c1, b);
  }

  /** A device counter ends at what it was less the number of charges against it, whatever else was charged. */
  lemma {:induction false} ReplayCountsUnits(known: set<int>, c: Counters, qs: seq<Charge>, n: int, r: string)
    requires n in known && (n, r) in c && !IsMemoryLike(r) && AllTyped(qs)
    ensures Replay(known, c, qs)[(n, r)] == c[(n, r)] - multiset(qs)[Unit(n, r)]
  {
    if qs != [] {
      var front := qs[..|qs| - 1];
      var q := qs[|qs| - 1];
      assert qs == front + [q];
      ReplayCountsUnits(known, c, front, n, r);
      if q.Memory? {
        FillFrame(known, Replay(known, c, front), q.name, q.nodes, q.size, (n, r));
      }
    }
  }

  lemma {:induction false} ReplayLast(known: set<int>, c: Counters, qs: seq<Charge>, q: Charge)
    ensures Replay(known, c, qs + [q]) == Apply(known, Replay(known, c, qs), q)
  {
  }

  // ---- Counters of one resource evolve independently of the others ----

  ghost predicate AgreeOn(c: Counters, d: Counters, r: string) {
    forall k: Cell :: k.1 == r ==> (k in c <==> k in d) && (k in c ==> c[k] == d[k])
  }

  lemma {:induction false} FillAgrees(known: set<int>, c: Counters, d: Counters, name: string, nodes: seq<int>, size: int)
    requires AgreeOn(c, d, name)
    ensures AgreeOn(Fill(known, c, name, nodes, size), Fill(known, d, name, nodes, size), name)
    decreases nodes
  {
    if nodes != [] && size != 0 {
      var h := (nodes[0], name);
      assert h in c <==> h in d;
      FillAgrees(known, c, d, name, nodes[1..], size);
      if h in c {
        FillAgrees(known, c[h := 0], d[h := 0], name, nodes[1..], size - c[h]);
      }
    }
  }

  lemma {:induction false} ReplayAgrees(known: set<int>, c: Counters, d: Counters, qs: seq<Charge>, r: string)
    requires AgreeOn(c, d, r)
    ensures AgreeOn(Replay(known, c, qs), Replay(known, d, qs), r)
  {
    if qs != [] {
      var c1, d1 := Replay(known, c, qs[..|qs| - 1]), Replay(known, d, qs[..|qs| - 1]);
      var q := qs[|qs| - 1];
      ReplayAgrees(known, c, d, qs[..|qs| - 1], r);
      match q
      case Unit(n, name) => assert name == r ==> ((n, name) in c1 <==> (n, name) in d1);
      case Memory(name, nodes, size) =>
        if name == r {
          FillAgrees(known, c1, d1, name, nodes, size);
        } else {
          forall k: Cell | k.1 == r && k in c1
            ensures Apply(known, c1, q)[k] == c1[k] && Apply(known, d1, q)[k] == d1[k]
          {
            FillFrame(known, c1, name, nodes, size, k);
            FillFrame(known, d1, name, nodes, size, k);
          }
        }
    }
  }

  /** A charge of one memory type, or nothing. */
  function OfType(r: string): Charge -> seq<Charge> {
    (q: Charge) => if q.Memory? && q.name == r then [q] else []
  }

  /** The counters of a memory type depend only on the requests of that type. */
  lemma {:induction false} ReplayOfType(known: set<int>, c: Counters, qs: seq<Charge>, r: string)
    requires IsMemoryLike(r) && AllTyped(qs)
    ensures AgreeOn(Replay(known, c, qs), Replay(known, c, FlatMap(OfType(r), qs)), r)
  {
    if qs != [] {
      var front, q := qs[..|qs| - 1], qs[|qs| - 1];
      var kept := FlatMap(OfType(r), front);
      ReplayOfType(known, c, front, r);
      assert Typed(q);
      var c1, c2 := Replay(known, c, front), Replay(known, c, kept);
      if q.Memory? && q.name == r {
        ReplayLast(known, c, kept, q);
        FillAgrees(known, c1, c2, r, q.nodes, q.size);
      } else {
        assert kept + [] == kept;
        OtherCharge(known, c1, q, r);
      }
    }
  }

  lemma {:induction false} OtherCharge(known: set<int>, c: Counters, q: Charge, r: string)
    requires Typed(q) && IsMemoryLike(r) && !(q.Memory? && q.name == r)
    ensures AgreeOn(Apply(known, c, q), c, r)
  {
    forall k: Cell | k in c && k.1 == r
      ensures Apply(known, c, q)[k] == c[k]
    {
      if q.Memory? {
        FillFrame(known, c, q.name, q.nodes, q.size, k);
      }
    }
  }

  // ---- Memory over the whole replay ----

  /** The bytes of type r requested over exactly this list of nodes. */
  function RequestedOn(qs: seq<Charge>, l: seq<int>, r: string): int {
    if qs == [] then 0
    else
      var q := qs[|qs| - 1];
      RequestedOn(qs[..|qs| - 1], l, r) + if q.Memory? && q.name == r && q.nodes == l then q.size else 0
  }

  lemma {:induction false} RequestedNonNegative(qs: seq<Charge>, l: seq<int>, r: string)
    requires AllProper(qs)
    ensures RequestedOn(qs, l, r) >= 0
  {
    if qs != [] {
      RequestedNonNegative(qs[..|qs| - 1], l, r);
      assert Proper(qs[|qs| - 1]);
    }
  }

  /** The same counters of type r on the nodes of a list. */
  ghost predicate SameOn(c: Counters, d: Counters, r: string, l: seq<int>) {
    c.Keys == d.Keys && forall k: Cell :: k in c && k.1 == r && k.0 in l ==> c[k] == d[k]
  }

  /** Locality: what a fill leaves on the nodes of a list depends only on what was there. */
  lemma {:induction false} FillLocal(known: set<int>, c: Counters, d: Counters, r: string, nodes: seq<int>, size: int, l: seq<int>)
    requires SameOn(c, d, r, l) && forall n :: n in nodes ==> n in l
    ensures SameOn(Fill(known, c, r, nodes, size), Fill(known, d, r, nodes, size), r, l)
    decreases nodes
  {
    if nodes != [] && size != 0 {
      var h := (nodes[0], r);
      FillLocal(known, c, d, r, nodes[1..], size, l);
      if h in c {
        var n := nodes[0];
        assert n in nodes && n in l && c[(n, r)] == d[(n, r)];
        FillLocal(known, c[h := 0], d[h := 0], r, nodes[1..], size - c[h], l);
      }
    }
  }

  /** Every request of type r is over this list, or over nodes outside it. */
  ghost predicate ListOwned(qs: seq<Charge>, r: string, l: seq<int>) {
    forall i :: 0 <= i < |qs| && qs[i].Memory? && qs[i].name == r ==> qs[i].nodes == l || DisjointNodes(l, qs[i].nodes)
  }

  lemma {:induction false} ChargeOutside(known: set<int>, c: Counters, q: Charge, r: string, l: seq<int>)
    requires Typed(q) && IsMemoryLike(r) && (q.Memory? && q.name == r ==> DisjointNodes(l, q.nodes))
    ensures SameOn(Apply(known, c, q), c, r, l)
  {
    forall k: Cell | k in c && k.1 == r && k.0 in l
      ensures Apply(known, c, q)[k] == c[k]
    {
      if q.Memory? {
        FillFrame(known, c, q.name, q.nodes, q.size, k);
      }
    }
  }

  /** Requests over one list, with all others outside it, leave on it what one request for their sum leaves. */
  lemma {:induction false} ReplayOnList(known: set<int>, c: Counters, qs: seq<Charge>, r: string, l: seq<int>)
    requires MemoryNonNegative(c) && AllProper(qs) && IsMemoryLike(r) && ListOwned(qs, r, l)
    ensures SameOn(Replay(known, c, qs), Fill(known, c, r, l, RequestedOn(qs, l, r)), r, l)
  {
    hide Fill, IsMemoryLike, Apply;
    if qs == [] {
      FillStops(known, c, r, l, 0);
    } else {
      var front, q := qs[..|qs| - 1], qs[|qs| - 1];
      ReplayOnList(known, c, front, r, l);
      RequestedNonNegative(front, l, r);
      assert Proper(q);
      var before, once := Replay(known, c, front), Fill(known, c, r, l, RequestedOn(front, l, r));
      if q.Memory? && q.name == r && q.nodes == l {
        ApplyMemory(known, before, q);
        FillLocal(known, before, once, r, l, q.size, l);
        FillComposes(known, c, r, l, RequestedOn(front, l, r), q.size);
      } else {
        ChargeOutside(known, before, q, r, l);
      }
    }
  }

  lemma {:induction false} ApplyMemory(known: set<int>, c: Counters, q: Charge)
    requires q.Memory?
    ensures Apply(known, c, q) == Fill(known, c, q.name, q.nodes, q.size)
  {
  }

  /** Closed form of the whole replay on a list whose nodes no other request of the type names: its k-th effective
      node keeps what the summed requests do not reach after emptying the nodes before it. */
  lemma {:induction false} ListClosedForm(known: set<int>, c: Counters, qs: seq<Charge>, r: string, l: seq<int>, k: nat)
    requires MemoryNonNegative(c) && AllProper(qs) && IsMemoryLike(r) && ListOwned(qs, r, l)
    requires k < |Path(known, c.Keys, r, l, {})|
    ensures
      var path := Path(known, c.Keys, r, l, {});
      Replay(known, c, qs)[(path[k], r)]
        == Max(0, c[(path[k], r)] - Max(0, RequestedOn(qs, l, r) - Before(c, r, path, k)))
  {
    hide Fill, Path, Before, Replay, RequestedOn, IsMemoryLike;
    ReplayOnList(known, c, qs, r, l);
    RequestedNonNegative(qs, l, r);
    FillClosedForm(known, c, r, l, RequestedOn(qs, l, r));
    var key := (Path(known, c.Keys, r, l, {})[k], r);
    assert key in c && key.0 in l;
  }

  /** What the nodes have available of a memory type together. */
  function TotalOf(c: Counters, r: string, nodes: seq<int>): int {
    if nodes == [] then 0
    else TotalOf(c, r, nodes[..|nodes| - 1]) + if (nodes[|nodes| - 1], r) in c then c[(nodes[|nodes| - 1], r)] else 0
  }

  lemma {:induction false} TotalAfterWrite(c: Counters, r: string, nodes: seq<int>, n: int, v: int)
    requires Distinct(nodes) && (n, r) in c
    ensures TotalOf(c[(n, r) := v], r, nodes) == TotalOf(c, r, nodes) + if n in nodes then v - c[(n, r)] else 0
  {
    if nodes != [] {
      var front, last := nodes[..|nodes| - 1], nodes[|nodes| - 1];
      assert nodes == front + [last];
      TotalAfterWrite(c, r, front, n, v);
      assert last !in front;
    }
  }

  lemma {:induction false} DrainTotal(c: Counters, name: string, path: seq<int>, size: int, all: seq<int>)
    requires OnPath(c, name, path) && NonNegative(c, name) && size >= 0
    requires Distinct(all) && forall i :: 0 <= i < |path| ==> path[i] in all
    ensures TotalOf(c, name, all) - TotalOf(Drain(c, name, path, size), name, all) == Min(size, Before(c, name, path, |path|))
    decreases path
  {
    if path != [] {
      var h := (path[0], name);
      var c1 := c[h := Max(0, c[h] - size)];
      TotalAfterWrite(c, name, all, path[0], Max(0, c[h] - size));
      DrainTotal(c1, name, path[1..], Max(0, size - c[h]), all);
      BeforeShift(c, c1, name, path, |path|);
      BeforeNonNegative(c1, name, path[1..], |path| - 1);
    }
  }

  /** What the nodes a request takes from have available together. */
  function Supply(known: set<int>, c: Counters, name: string, nodes: seq<int>): int {
    var path := Path(known, c.Keys, name, nodes, {});
    Before(c, name, path, |path|)
  }

  /** One request lowers the total of all nodes by exactly what it can get. */
  lemma {:induction false} FillTotal(known: set<int>, c: Counters, name: string, nodes: seq<int>, size: int, all: seq<int>)
    requires NonNegative(c, name) && size >= 0 && Distinct(all) && forall n :: n in known ==> n in all
    ensures TotalOf(c, name, all) - TotalOf(Fill(known, c, name, nodes, size), name, all) == Min(size, Supply(known, c, name, nodes))
    ensures Supply(known, c, name, nodes) >= 0
  {
    hide Fill, Path, Drain, Before, TotalOf;
    var path := Path(known, c.Keys, name, nodes, {});
    FillIsDrain(known, c, name, nodes, size, {});
    forall i | 0 <= i < |path|
      ensures path[i] in all
    {
      var n := path[i];
      assert n in known;
      assert n in all;
    }
    DrainTotal(c, name, path, size, all);
    BeforeNonNegative(c, name, path, |path|);
  }

  function RequestedTotal(qs: seq<Charge>, r: string): int {
    if qs == [] then 0
    else
      var q := qs[|qs| - 1];
      RequestedTotal(qs[..|qs| - 1], r) + if q.Memory? && q.name == r then q.size else 0
  }

  lemma {:induction false} TotalUnchanged(c: Counters, d: Counters, r: string, all: seq<int>)
    requires AgreeOn(c, d, r)
    ensures TotalOf(c, r, all) == TotalOf(d, r, all)
  {
    if all != [] {
      TotalUnchanged(c, d, r, all[..|all| - 1]);
    }
  }

  /** What the requests of type r get, each from what is left when its turn comes. */
  function Served(known: set<int>, c: Counters, qs: seq<Charge>, r: string): int {
    if qs == [] then 0
    else
      var front, q := qs[..|qs| - 1], qs[|qs| - 1];
      Served(known, c, front, r)
        + if q.Memory? && q.name == r then Min(q.size, Supply(known, Replay(known, c, front), r, q.nodes)) else 0
  }

  /** The k-th charge finds all it asks for. */
  predicate FullyServed(known: set<int>, c: Counters, qs: seq<Charge>, r: string, k: nat)
    requires k < |qs|
  {
    qs[k].Memory? && qs[k].name == r ==> qs[k].size <= Supply(known, Replay(known, c, qs[..k]), r, qs[k].nodes)
  }

  /** Conservation over the whole replay: of each memory type, all nodes together lose exactly what the requests get
      in turn, and that is all they ask for if and only if each of them is fully served. */
  lemma {:induction false} ReplayConserves(known: set<int>, c: Counters, qs: seq<Charge>, r: string, all: seq<int>)
    requires MemoryNonNegative(c) && AllProper(qs) && IsMemoryLike(r)
    requires Distinct(all) && forall n :: n in known ==> n in all
    ensures TotalOf(c, r, all) - TotalOf(Replay(known, c, qs), r, all) == Served(known, c, qs, r)
    ensures 0 <= Served(known, c, qs, r) <= RequestedTotal(qs, r)
    ensures Served(known, c, qs, r) == RequestedTotal(qs, r) <==> forall k :: 0 <= k < |qs| ==> FullyServed(known, c, qs, r, k)
  {
    hide Fill, Supply, TotalOf, Apply, IsMemoryLike;
    if qs != [] {
      var front, q := qs[..|qs| - 1], qs[|qs| - 1];
      ReplayConserves(known, c, front, r, all);
      ReplayDecreases(known, c, front);
      assert Proper(q);
      var before := Replay(known, c, front);
      forall k | 0 <= k < |front|
        ensures FullyServed(known, c, front, r, k) <==> FullyServed(known, c, qs, r, k)
      {
        assert front[..k] == qs[..k];
      }
      assert FullyServed(known, c, qs, r, |front|) <==> (q.Memory? && q.name == r ==> q.size <= Supply(known, before, r, q.nodes));
      ReplayLast(known, c, front, q);
      assert qs == front + [q];
      if q.Memory? && q.name == r {
        FillTotal(known, before, r, q.nodes, q.size, all);
        ApplyMemory(known, before, q);
      } else {
        OtherCharge(known, before, q, r);
        TotalUnchanged(before, Apply(known, before, q), r, all);
      }
    }
  }
}
