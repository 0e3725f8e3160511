/** Values shared by the whole model: optional results, Go's 64-bit wrap-around and
    flattening of nested lists. */
module Common {

  datatype Option<+T> = None | Some(value: T)

  const TWO_TO_63 := 0x8000_0000_0000_0000
  const TWO_TO_64 := 0x1_0000_0000_0000_0000

  /** The value an unbounded result takes once stored in an int64, and the value of int64(u) for a uint64 u. */
  function Wrap64(x: int): (w: int)
    ensures -TWO_TO_63 <= w < TWO_TO_63
    ensures -TWO_TO_63 <= x < TWO_TO_63 ==> w == x
  {
    (x + TWO_TO_63) % TWO_TO_64 - TWO_TO_63
  }

  lemma {:induction false} FitsWrap(x: int)
    requires 0 <= x < TWO_TO_63
    ensures Wrap64(x) == x
  {
  }

  /** Casting a summand to int64 before adding it makes no difference to the wrapped sum. */
  lemma {:induction false} WrapOfCastSummand(a: int, b: int)
    ensures Wrap64(a + Wrap64(b)) == Wrap64(a + b)
  {
  }

  /** Wrapping a partial sum makes no difference to the wrapped total. */
  lemma {:induction false} WrapOfWrappedSum(a: int, b: int)
    ensures Wrap64(Wrap64(a) + b) == Wrap64(a + b)
  {
  }

  function Max(a: int, b: int): int {
    if a < b then b else a
  }

  function Min(a: int, b: int): int {
    if a < b then a else b
  }

  ghost predicate Distinct<T>(s: seq<T>) {
    forall i, j :: 0 <= i < j < |s| ==> s[i] != s[j]
  }

  /** The first n natural numbers, as the indices of a list. */
  function UpTo(n: nat): (s: set<int>)
    ensures forall x :: x in s <==> 0 <= x < n
  {
    if n == 0 then {} else UpTo(n - 1) + {n - 1}
  }

  /** The images of the elements of s under f, joined in order. */
  function FlatMap<T, U>(f: T -> seq<U>, s: seq<T>): seq<U> {
    if s == [] then [] else FlatMap(f, s[..|s| - 1]) + f(s[|s| - 1])
  }

  lemma {:induction false} FlatMapAppend<T, U>(f: T -> seq<U>, a: seq<T>, b: seq<T>)
    ensures FlatMap(f, a + b) == FlatMap(f, a) + FlatMap(f, b)
  {
    if b == [] {
      assert a + b == a;
    } else {
      assert (a + b)[..|a + b| - 1] == a + b[..|b| - 1];
      FlatMapAppend(f, a, b[..|b| - 1]);
    }
  }

  lemma {:induction false} FlatMapStep<T, U>(f: T -> seq<U>, s: seq<T>, i: nat)
    requires i < |s|
    ensures FlatMap(f, s[..i + 1]) == FlatMap(f, s[..i]) + f(s[i])
  {
    assert s[..i + 1][..i] == s[..i];
  }

  lemma {:induction false} FlatMapNone<T, U>(f: T -> seq<U>, before: seq<U>, s: seq<T>)
    ensures FlatMap(f, s[..0]) == [] && before + FlatMap(f, s[..0]) == before
  {
  }

  lemma {:induction false} FlatMapSnoc<T, U>(f: T -> seq<U>, s: seq<T>, x: T)
    ensures FlatMap(f, s + [x]) == FlatMap(f, s) + f(x)
  {
  }

  lemma {:induction false} FlatMapMember<T, U>(f: T -> seq<U>, s: seq<T>, u: U)
    ensures u in FlatMap(f, s) <==> exists i :: 0 <= i < |s| && u in f(s[i])
  {
    if s != [] {
      var front := s[..|s| - 1];
      FlatMapMember(f, front, u);
      assert u in FlatMap(f, s) <==> u in FlatMap(f, front) || u in f(s[|s| - 1]);
      if u in FlatMap(f, front) {
        var i :| 0 <= i < |front| && u in f(front[i]);
        assert u in f(s[i]);
      }
    }
  }

  /** Where the last element of s stands in a reordering t of s; without it the two are still reorderings. */
  lemma {:induction false} LastInPermutation<T>(s: seq<T>, t: seq<T>) returns (i: nat)
    requires s != [] && multiset(s) == multiset(t)
    ensures i < |t| && t == t[..i] + [s[|s| - 1]] + t[i + 1..]
    ensures multiset(s[..|s| - 1]) == multiset(t[..i] + t[i + 1..])
  {
    var last := s[|s| - 1];
    assert s == s[..|s| - 1] + [last];
    assert last in multiset(t);
    i :| 0 <= i < |t| && t[i] == last;
    Around(t, i);
    assert multiset(s) == multiset(s[..|s| - 1]) + multiset{last};
    CancelOne(multiset(s[..|s| - 1]), multiset(t[..i] + t[i + 1..]), last);
  }

  lemma {:induction false} CancelOne<T>(a: multiset<T>, b: multiset<T>, x: T)
    requires a + multiset{x} == b + multiset{x}
    ensures a == b
  {
    assert a == a + multiset{x} - multiset{x};
    assert b == b + multiset{x} - multiset{x};
  }

  lemma {:induction false} Around<T>(t: seq<T>, i: nat)
    requires i < |t|
    ensures t == t[..i] + [t[i]] + t[i + 1..]
    ensures multiset(t) == multiset(t[..i] + t[i + 1..]) + multiset{t[i]}
  {
    assert t == t[..i] + [t[i]] + t[i + 1..];
  }

  lemma {:induction false} NoneInPermutation<T>(s: seq<T>, t: seq<T>)
    requires s == [] && multiset(s) == multiset(t)
    ensures t == []
  {
    assert |multiset(t)| == |t|;
  }

  /** Reordering the outer list only reorders the joined list. */
  lemma {:induction false} FlatMapPermutes<T, U>(f: T -> seq<U>, s: seq<T>, t: seq<T>)
    requires multiset(s) == multiset(t)
    ensures multiset(FlatMap(f, s)) == multiset(FlatMap(f, t))
    decreases |s|
  {
    if s == [] {
      NoneInPermutation(s, t);
    } else {
      var last := s[|s| - 1];
      var i := LastInPermutation(s, t);
      FlatMapPermutes(f, s[..|s| - 1], t[..i] + t[i + 1..]);
      FlatMapAppend(f, t[..i], t[i + 1..]);
      FlatMapAppend(f, t[..i] + [last], t[i + 1..]);
      FlatMapSnoc(f, t[..i], last);
    }
  }

  // ---- Sums over lists ----

  /** The sum of f over the elements of s. */
  function SumOver<T>(f: T -> int, s: seq<T>): int {
    if s == [] then 0 else SumOver(f, s[..|s| - 1]) + f(s[|s| - 1])
  }

  lemma {:induction false} SumOverSame<T>(f: T -> int, g: T -> int, s: seq<T>)
    requires forall i :: 0 <= i < |s| ==> f(s[i]) == g(s[i])
    ensures SumOver(f, s) == SumOver(g, s)
  {
    if s != [] {
      SumOverSame(f, g, s[..|s| - 1]);
    }
  }

  /** How often x stands in a joined list, summed over the elements it was joined from. */
  lemma {:induction false} FlatMapCount<T, U>(f: T -> seq<U>, g: T -> int, s: seq<T>, x: U)
    requires forall i :: 0 <= i < |s| ==> multiset(f(s[i]))[x] == g(s[i])
    ensures multiset(FlatMap(f, s))[x] == SumOver(g, s)
  {
    if s != [] {
      FlatMapCount(f, g, s[..|s| - 1], x);
    }
  }

  lemma {:induction false} DistinctCount<T>(s: seq<T>)
    requires Distinct(s)
    ensures |SetOf(s)| == |s|
  {
    if s != [] {
      var front := s[..|s| - 1];
      DistinctCount(front);
      assert s == front + [s[|s| - 1]];
      assert SetOf(s) == SetOf(front) + {s[|s| - 1]};
    }
  }

  ghost function SetOf<T>(s: seq<T>): set<T> {
    set x | x in s
  }

  lemma {:induction false} SetOfCard<T>(s: seq<T>)
    ensures |SetOf(s)| <= |s|
  {
    if s != [] {
      var front := s[..|s| - 1];
      SetOfCard(front);
      assert s == front + [s[|s| - 1]];
      assert SetOf(s) == SetOf(front) + {s[|s| - 1]};
    }
  }

  lemma {:induction false} HasMember(s: set<int>)
    requires s != {}
    ensures exists x: int :: x in s
  {
    assert (forall x: int :: x !in s) ==> s == {};
  }

  lemma {:induction false} SubsetCard<T>(a: set<T>, b: set<T>)
    requires a <= b
    ensures |a| <= |b|
  {
    assert b == a + (b - a);
  }
}
