/** The three ways the aggregator's loops fill a Go map from a stream of (key, value) pairs: the last value
    written for a key wins, amounts for a key are added in int64, and values for a key are appended to a list.
    Every index of the aggregator is proved equal to one of these folds over a flat list of pairs. */
module Accumulate {
  import opened Common

  function Get<K, V>(m: map<K, V>, k: K): Option<V> {
    if k in m then Some(m[k]) else None
  }

  function LastWins<K, V>(pairs: seq<(K, V)>): map<K, V> {
    if pairs == [] then map[]
    else LastWins(pairs[..|pairs| - 1])[pairs[|pairs| - 1].0 := pairs[|pairs| - 1].1]
  }

  function Tally<K>(pairs: seq<(K, int)>): map<K, int> {
    if pairs == [] then map[]
    else
      var m := Tally(pairs[..|pairs| - 1]);
      var (k, v) := pairs[|pairs| - 1];
      m[k := Wrap64((if k in m then m[k] else 0) + v)]
  }

  function GroupBy<K, V>(pairs: seq<(K, V)>): map<K, seq<V>> {
    if pairs == [] then map[]
    else
      var m := GroupBy(pairs[..|pairs| - 1]);
      var (k, v) := pairs[|pairs| - 1];
      m[k := (if k in m then m[k] else []) + [v]]
  }

  /** The exact amount recorded for a key, before any wrap-around. */
  function Total<K(==)>(pairs: seq<(K, int)>, k: K): int {
    if pairs == [] then 0
    else Total(pairs[..|pairs| - 1], k) + if pairs[|pairs| - 1].0 == k then pairs[|pairs| - 1].1 else 0
  }

  function ValuesFor<K(==), V>(pairs: seq<(K, V)>, k: K): seq<V> {
    if pairs == [] then []
    else ValuesFor(pairs[..|pairs| - 1], k) + if pairs[|pairs| - 1].0 == k then [pairs[|pairs| - 1].1] else []
  }

  ghost predicate Mentions<K, V>(pairs: seq<(K, V)>, k: K) {
    exists i :: 0 <= i < |pairs| && pairs[i].0 == k
  }

  lemma {:induction false} LastWinsSnoc<K, V>(pairs: seq<(K, V)>, k: K, v: V)
    ensures LastWins(pairs + [(k, v)]) == LastWins(pairs)[k := v]
  {
  }

  lemma {:induction false} TallySnoc<K>(pairs: seq<(K, int)>, k: K, v: int)
    ensures Tally(pairs + [(k, v)]) == Tally(pairs)[k := Wrap64((if k in Tally(pairs) then Tally(pairs)[k] else 0) + v)]
  {
  }

  lemma {:induction false} GroupBySnoc<K, V>(pairs: seq<(K, V)>, k: K, v: V)
    ensures GroupBy(pairs + [(k, v)]) == GroupBy(pairs)[k := (if k in GroupBy(pairs) then GroupBy(pairs)[k] else []) + [v]]
  {
  }

  lemma {:induction false} LastWinsMember<K, V>(pairs: seq<(K, V)>, k: K)
    ensures k in LastWins(pairs) <==> Mentions(pairs, k)
    ensures k in LastWins(pairs) ==> (k, LastWins(pairs)[k]) in pairs
  {
    if pairs != [] {
      var front := pairs[..|pairs| - 1];
      LastWinsMember(front, k);
      if Mentions(front, k) {
        var i :| 0 <= i < |front| && front[i].0 == k;
        assert pairs[i].0 == k;
      }
    }
  }

  lemma {:induction false} LastWinsAppend<K, V>(a: seq<(K, V)>, b: seq<(K, V)>, k: K)
    ensures Get(LastWins(a + b), k) == if k in LastWins(b) then Some(LastWins(b)[k]) else Get(LastWins(a), k)
  {
    if b == [] {
      assert a + b == a;
    } else {
      assert (a + b)[..|a + b| - 1] == a + b[..|b| - 1];
      LastWinsAppend(a, b[..|b| - 1], k);
    }
  }

  /** When all pairs for a key carry one value, that value is what the map holds, in whatever order they came. */
  lemma {:induction false} LastWinsUnanimous<K, V>(pairs: seq<(K, V)>, k: K, v: V)
    requires (k, v) in pairs
    requires forall i :: 0 <= i < |pairs| && pairs[i].0 == k ==> pairs[i].1 == v
    ensures Get(LastWins(pairs), k) == Some(v)
  {
    LastWinsMember(pairs, k);
    var i :| 0 <= i < |pairs| && pairs[i] == (k, v);
    assert pairs[i].0 == k;
  }

  lemma {:induction false} TallyTotal<K>(pairs: seq<(K, int)>, k: K)
    ensures k in Tally(pairs) <==> Mentions(pairs, k)
    ensures k in Tally(pairs) ==> Tally(pairs)[k] == Wrap64(Total(pairs, k))
    ensures k !in Tally(pairs) ==> Total(pairs, k) == 0
  {
    if pairs != [] {
      var front := pairs[..|pairs| - 1];
      TallyTotal(front, k);
      if Mentions(front, k) {
        var i :| 0 <= i < |front| && front[i].0 == k;
        assert pairs[i].0 == k;
        WrapOfWrappedSum(Total(front, k), pairs[|pairs| - 1].1);
      }
    }
  }

  lemma {:induction false} TotalAppend<K>(a: seq<(K, int)>, b: seq<(K, int)>, k: K)
    ensures Total(a + b, k) == Total(a, k) + Total(b, k)
  {
    if b == [] {
      assert a + b == a;
    } else {
      assert (a + b)[..|a + b| - 1] == a + b[..|b| - 1];
      TotalAppend(a, b[..|b| - 1], k);
    }
  }

  lemma {:induction false} TotalNonNegative<K>(pairs: seq<(K, int)>, k: K)
    requires forall i :: 0 <= i < |pairs| ==> pairs[i].1 >= 0
    ensures Total(pairs, k) >= 0
  {
    if pairs != [] {
      TotalNonNegative(pairs[..|pairs| - 1], k);
    }
  }

  lemma {:induction false} GroupByValues<K, V>(pairs: seq<(K, V)>, k: K)
    ensures k in GroupBy(pairs) <==> Mentions(pairs, k)
    ensures (if k in GroupBy(pairs) then GroupBy(pairs)[k] else []) == ValuesFor(pairs, k)
    ensures k in GroupBy(pairs) ==> GroupBy(pairs)[k] != []
  {
    if pairs != [] {
      var front := pairs[..|pairs| - 1];
      var last := pairs[|pairs| - 1];
      GroupByValues(front, k);
      if Mentions(front, k) {
        var i :| 0 <= i < |front| && front[i].0 == k;
        assert pairs[i].0 == k;
      }
      assert k == last.0 ==> GroupBy(pairs)[k] == (if k in GroupBy(front) then GroupBy(front)[k] else []) + [last.1];
    }
  }

  lemma {:induction false} ValuesForMember<K, V>(pairs: seq<(K, V)>, k: K, v: V)
    ensures v in ValuesFor(pairs, k) <==> (k, v) in pairs
  {
    if pairs != [] {
      var front := pairs[..|pairs| - 1];
      var last := pairs[|pairs| - 1];
      ValuesForMember(front, k, v);
      assert pairs == front + [last];
      assert (k, v) in pairs <==> (k, v) in front || (k, v) == last;
    }
  }

  lemma {:induction false} ValuesForAppend<K, V>(a: seq<(K, V)>, b: seq<(K, V)>, k: K)
    ensures ValuesFor(a + b, k) == ValuesFor(a, k) + ValuesFor(b, k)
  {
    if b == [] {
      assert a + b == a;
    } else {
      assert (a + b)[..|a + b| - 1] == a + b[..|b| - 1];
      ValuesForAppend(a, b[..|b| - 1], k);
    }
  }

  /** The entries of a Go map of maps, keyed by pairs. */
  function Flat<A, B, V>(nested: map<A, map<B, V>>): map<(A, B), V> {
    map a, b | a in nested && b in nested[a] :: (a, b) := nested[a][b]
  }

  /** The row of a key, empty when the key is missing: what reading a Go map of maps yields. */
  function Row<A, B, V>(nested: map<A, map<B, V>>, a: A): map<B, V> {
    if a in nested then nested[a] else map[]
  }

  lemma {:induction false} FlatEntry<A, B, V>(m: map<A, map<B, V>>, a: A, b: B)
    ensures Get(Flat(m), (a, b)) == if a in m && b in m[a] then Some(m[a][b]) else None
  {
  }

  lemma {:induction false} FlatStep<A(!new), B(!new), V(!new)>(nested: map<A, map<B, V>>, a: A, b: B, v: V)
    ensures Flat(nested[a := Row(nested, a)[b := v]]) == Flat(nested)[(a, b) := v]
  {
    hide Flat;
    var next := nested[a := Row(nested, a)[b := v]];
    forall k: (A, B)
      ensures Get(Flat(next), k) == Get(Flat(nested)[(a, b) := v], k)
    {
      FlatEntry(next, k.0, k.1);
      FlatEntry(nested, k.0, k.1);
    }
    SameLookups(Flat(next), Flat(nested)[(a, b) := v]);
  }

  lemma {:induction false} FlatNewRow<A(!new), B(!new), V(!new)>(nested: map<A, map<B, V>>, a: A)
    ensures Flat(nested[a := Row(nested, a)]) == Flat(nested)
  {
  }

  lemma {:induction false} FlatOfEmpty<A, B, V>()
    ensures Flat<A, B, V>(map[]) == map[]
  {
  }

  lemma {:induction false} NothingYet<K, V>()
    ensures LastWins<K, V>([]) == map[] && GroupBy<K, V>([]) == map[]
    ensures Tally<K>([]) == map[]
  {
  }

  lemma {:induction false} SameLookups<K(!new), V(!new)>(m1: map<K, V>, m2: map<K, V>)
    requires forall k :: Get(m1, k) == Get(m2, k)
    ensures m1 == m2
  {
    assert forall k :: k in m1 <==> Get(m1, k).Some?;
    assert forall k :: k in m2 <==> Get(m2, k).Some?;
    assert forall k :: k in m1 ==> Some(m1[k]) == Get(m1, k);
    assert forall k :: k in m2 ==> Some(m2[k]) == Get(m2, k);
  }
}
