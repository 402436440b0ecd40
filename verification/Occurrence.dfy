/** Numbering repeated values: the vectorised index (stable sort, running maximum, scatter) against the
    plain count of earlier equal entries. */
module Occurrence {

  /** How many of the first n entries equal k. */
  function Count<K(==)>(a: seq<K>, n: nat, k: K): nat
    requires n <= |a|
  {
    if n == 0 then 0 else Count(a, n - 1, k) + (if a[n - 1] == k then 1 else 0)
  }

  lemma {:induction false} CountGap<K>(a: seq<K>, m: nat, n: nat, k: K)
    requires m <= n <= |a|
    requires forall i :: m <= i < n ==> a[i] != k
    ensures Count(a, n, k) == Count(a, m, k)
    decreases n
  {
    if m < n {
      CountGap(a, m, n - 1, k);
    }
  }

  lemma {:induction false} CountMonotone<K>(a: seq<K>, m: nat, n: nat, k: K)
    requires m <= n <= |a|
    ensures Count(a, m, k) <= Count(a, n, k)
    decreases n
  {
    if m < n {
      CountMonotone(a, m, n - 1, k);
    }
  }

  /** Two entries with the same value never share an occurrence number. */
  lemma {:induction false} OccurrencesDistinct<K>(a: seq<K>, i: nat, j: nat)
    requires i < j < |a| && a[i] == a[j]
    ensures Count(a, i, a[i]) < Count(a, j, a[j])
  {
    CountMonotone(a, i + 1, j, a[i]);
  }

  lemma {:induction false} OccurrenceBelow<K>(a: seq<K>, j: nat)
    requires j < |a|
    ensures Count(a, j, a[j]) < Count(a, |a|, a[j])
  {
    CountMonotone(a, j + 1, |a|, a[j]);
  }

  /** Every occurrence number below the total is taken by some entry. */
  lemma {:induction false} OccurrenceExists<K>(a: seq<K>, n: nat, k: K, c: nat) returns (j: nat)
    requires n <= |a| && c < Count(a, n, k)
    ensures j < n && a[j] == k && Count(a, j, k) == c
  {
    if a[n - 1] == k && Count(a, n - 1, k) == c {
      j := n - 1;
    } else {
      j := OccurrenceExists(a, n - 1, k, c);
    }
  }

  // ----- Stable sorting of positions -----

  predicate Before(a: seq<int>, i: int, j: int)
    requires 0 <= i < |a| && 0 <= j < |a|
  {
    a[i] < a[j] || (a[i] == a[j] && i < j)
  }

  /** The positions below n in stable order of their values. */
  predicate Ordered(a: seq<int>, order: seq<int>, n: nat)
  {
    && n <= |a| && |order| == n
    && (forall p :: 0 <= p < n ==> 0 <= order[p] < n)
    && (forall p, q :: 0 <= p < q < n ==> Before(a, order[p], order[q]))
    && (forall i :: 0 <= i < n ==> i in order)
  }

  lemma {:induction false} OrderedInsert(a: seq<int>, order: seq<int>, n: nat, k: nat)
    requires n < |a| && Ordered(a, order, n) && k <= n
    requires forall p :: 0 <= p < k ==> a[order[p]] <= a[n]
    requires forall p :: k <= p < n ==> a[n] < a[order[p]]
    ensures Ordered(a, order[..k] + [n] + order[k..], n + 1)
  {
    var s := order[..k] + [n] + order[k..];
    forall i | 0 <= i < n + 1 ensures i in s {
      if i == n {
        assert s[k] == n;
      } else {
        assert i in order;
        var p :| 0 <= p < n && order[p] == i;
        assert s[if p < k then p else p + 1] == i;
      }
    }
  }

  /** A stable argsort, by insertion. */
  method ArgSort(a: seq<int>) returns (order: seq<int>)
    ensures Ordered(a, order, |a|)
  {
    order := [];
    for n := 0 to |a|
      invariant Ordered(a, order, n)
    {
      var k := n;
      while 0 < k && a[n] < a[order[k - 1]]
        invariant 0 <= k <= n && forall p :: k <= p < n ==> a[n] < a[order[p]]
      {
        k := k - 1;
      }
      assert forall p :: 0 <= p < k ==> a[order[p]] <= a[n] by {
        if 0 < k { assert forall p :: 0 <= p < k - 1 ==> Before(a, order[p], order[k - 1]); }
      }
      OrderedInsert(a, order, n, k);
      order := order[..k] + [n] + order[k..];
    }
  }

  // ----- Runs of equal values -----

  predicate RunStart(s: seq<int>, k: int, b: int)
  {
    && 0 <= b <= k < |s| && (b == 0 || s[b - 1] != s[b])
    && forall q :: b <= q <= k ==> s[q] == s[k]
  }

  /** A run's first position marks itself; the others mark nothing yet. */
  function Head(s: seq<int>, k: int): int
    requires 0 <= k < |s|
  {
    if k == 0 || s[k] != s[k - 1] then k else 0
  }

  function Gather(a: seq<int>, order: seq<int>): (s: seq<int>)
    requires forall p :: 0 <= p < |order| ==> 0 <= order[p] < |a|
    ensures |s| == |order|
  {
    seq(|order|, p requires 0 <= p < |order| => a[order[p]])
  }

  /** Neighbours in stable order with equal values have nothing equal between them. */
  lemma {:induction false} NeighboursAdjacent(a: seq<int>, order: seq<int>, p: int, i: int)
    requires Ordered(a, order, |a|) && 0 <= p < |a| - 1 && a[order[p]] == a[order[p + 1]]
    requires order[p] < i < order[p + 1]
    ensures a[i] != a[order[p]]
  {
    assert i in order;
    var q :| 0 <= q < |a| && order[q] == i;
    assert q < p ==> Before(a, order[q], order[p]);
    assert p + 1 < q ==> Before(a, order[p + 1], order[q]);
  }

  /** The first of a run in stable order is the first of its value. */
  lemma {:induction false} RunHeadIsFirst(a: seq<int>, order: seq<int>, b: int, i: int)
    requires Ordered(a, order, |a|) && 0 <= b < |a| && (b == 0 || a[order[b - 1]] != a[order[b]])
    requires 0 <= i < order[b]
    ensures a[i] != a[order[b]]
  {
    assert i in order;
    var q :| 0 <= q < |a| && order[q] == i;
    assert b < q ==> Before(a, order[b], order[q]);
    assert 0 < b ==> Before(a, order[b - 1], order[b]);
    assert q < b - 1 ==> Before(a, order[q], order[b - 1]);
  }

  /** Within a run, the distance from its start counts the earlier equal entries. */
  lemma {:induction false} RankIsCount(a: seq<int>, order: seq<int>, k: int, b: int)
    requires Ordered(a, order, |a|) && RunStart(Gather(a, order), k, b)
    ensures Count(a, order[k], a[order[k]]) == k - b
    decreases k
  {
    var s := Gather(a, order);
    assert forall p :: 0 <= p < |s| ==> s[p] == a[order[p]];
    var i := order[k];
    if k == b {
      forall j | 0 <= j < i ensures a[j] != a[i] {
        RunHeadIsFirst(a, order, b, j);
      }
      CountGap(a, 0, i, a[i]);
    } else {
      RankIsCount(a, order, k - 1, b);
      var h := order[k - 1];
      assert Before(a, h, i);
      forall j | h + 1 <= j < i ensures a[j] != a[i] {
        NeighboursAdjacent(a, order, k - 1, j);
      }
      CountGap(a, h + 1, i, a[i]);
    }
  }

  // ----- The vectorised index -----

  /** Turn run heads into run starts by a running maximum, in place. */
  method Accumulate(s: seq<int>, base: array<int>)
    requires 0 < |s| == base.Length
    requires forall k :: 0 <= k < |s| ==> base[k] == Head(s, k)
    modifies base
    ensures forall k :: 0 <= k < |s| ==> RunStart(s, k, base[k])
  {
    assert base[0] == Head(s, 0);
    for k := 1 to |s|
      invariant forall q :: k <= q < |s| ==> base[q] == Head(s, q)
      invariant forall q :: 0 <= q < k ==> RunStart(s, q, base[q])
    {
      assert RunStart(s, k - 1, base[k - 1]);
      if base[k] < base[k - 1] { base[k] := base[k - 1]; }
    }
  }

  /** Send each rank back to the position it belongs to. */
  method Scatter(a: seq<int>, order: seq<int>, base: seq<int>) returns (r: seq<int>)
    requires Ordered(a, order, |a|) && |base| == |a|
    requires forall k :: 0 <= k < |a| ==> RunStart(Gather(a, order), k, base[k])
    ensures |r| == |a| && forall i :: 0 <= i < |a| ==> r[i] == Count(a, i, a[i])
  {
    var occ := new int[|a|](_ => 0);
    for k := 0 to |a|
      invariant forall p :: 0 <= p < k ==> occ[order[p]] == Count(a, order[p], a[order[p]])
    {
      RankIsCount(a, order, k, base[k]);
      assert forall p :: 0 <= p < k ==> Before(a, order[p], order[k]);
      occ[order[k]] := k - base[k];
    }
    r := occ[..];
    forall i | 0 <= i < |a| ensures r[i] == Count(a, i, a[i]) {
      assert i in order;
      var p :| 0 <= p < |a| && order[p] == i;
    }
  }

  /** Each entry's zero-based occurrence: how many equal entries precede it. */
  method OccIndex(a: seq<int>) returns (r: seq<int>)
    ensures |r| == |a| && forall i :: 0 <= i < |a| ==> r[i] == Count(a, i, a[i])
  {
    var order := ArgSort(a);
    var s := Gather(a, order);
    if s == [] { return []; }
    var base := new int[|s|](k requires 0 <= k < |s| => Head(s, k));
    Accumulate(s, base);
    r := Scatter(a, order, base[..]);
  }
}
