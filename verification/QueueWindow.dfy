/** Sniper's windowed M/G/1 queue model: a multimap of recent arrivals with running sums, and the
    Pollaczek-Khinchine delay computed from the sums alone. Counters wrap at 64 bits. */
module QueueWindow {

  import RealFacts

  /** An arrival time and a service time, in picoseconds. */
  datatype Item = Item(time: int, service: int)

  function Wrap(x: int): int {
    x % 0x1_0000_0000_0000_0000
  }

  // ----- Folds over a window -----

  function Sum(w: seq<Item>): int {
    if w == [] then 0 else Wrap(w[0].service) + Sum(w[1..])
  }

  function SquareSum(w: seq<Item>): int {
    if w == [] then 0 else Square(w[0]) + SquareSum(w[1..])
  }

  function Square(x: Item): int {
    Wrap(x.service) * Wrap(x.service)
  }

  /** Every fold of a window with x put in is the old one plus x's own share. */
  lemma {:induction false} FoldInsert(w: seq<Item>, k: nat, x: Item)
    requires k <= |w|
    ensures Sum(w[..k] + [x] + w[k..]) == Sum(w) + Wrap(x.service)
    ensures SquareSum(w[..k] + [x] + w[k..]) == SquareSum(w) + Square(x)
  {
    var w' := w[..k] + [x] + w[k..];
    if k == 0 {
      assert w'[1..] == w;
    } else {
      FoldInsert(w[1..], k - 1, x);
      assert w'[1..] == w[1..][..k - 1] + [x] + w[1..][k - 1..];
    }
  }

  /** The three counters are the folds of a window, each modulo 2^64. */
  predicate Counts(w: seq<Item>, n: int, sum: int, sum2: int) {
    n == Wrap(|w|) && sum == Wrap(Sum(w)) && sum2 == Wrap(SquareSum(w))
  }

  lemma {:induction false} WrapPlus(x: int, y: int)
    ensures Wrap(Wrap(x) + y) == Wrap(x + y) && Wrap(Wrap(x) - y) == Wrap(x - y)
  {
  }

  lemma {:induction false} CountsDrop(w: seq<Item>, n: int, sum: int, sum2: int)
    requires w != [] && Counts(w, n, sum, sum2)
    ensures Counts(w[1..], Wrap(n - 1), Wrap(sum - Wrap(w[0].service)), Wrap(sum2 - Square(w[0])))
  {
    var a, b := Wrap(w[0].service), Square(w[0]);
    WrapPlus(|w|, 1);
    WrapPlus(Sum(w), a);
    WrapPlus(SquareSum(w), b);
  }

  lemma {:induction false} CountsInsert(w: seq<Item>, k: nat, x: Item, n: int, sum: int, sum2: int)
    requires k <= |w| && Counts(w, n, sum, sum2)
    ensures Counts(w[..k] + [x] + w[k..], Wrap(n + 1), Wrap(sum + Wrap(x.service)), Wrap(sum2 + Square(x)))
  {
    FoldInsert(w, k, x);
    WrapPlus(|w|, 1);
    WrapPlus(Sum(w), Wrap(x.service));
    WrapPlus(SquareSum(w), Square(x));
  }

  /** Counters that fit hold the exact folds. */
  lemma {:induction false} CountsExact(w: seq<Item>, n: int, sum: int, sum2: int)
    requires Counts(w, n, sum, sum2)
    ensures |w| < 0x1_0000_0000_0000_0000 <==> n == |w|
    ensures 0 <= Sum(w) < 0x1_0000_0000_0000_0000 <==> sum == Sum(w)
    ensures 0 <= SquareSum(w) < 0x1_0000_0000_0000_0000 <==> sum2 == SquareSum(w)
  {
  }

  // ----- The window against the history -----

  predicate UpTo(w: seq<Item>, latest: int) {
    forall i :: 0 <= i < |w| ==> w[i].time <= latest
  }

  predicate Sorted(w: seq<Item>) {
    forall i, j :: 0 <= i < j < |w| ==> w[i].time <= w[j].time
  }

  /** The arrivals no older than the cutoff, in order. */
  function Recent(h: seq<Item>, cutoff: int): seq<Item> {
    if h == [] then []
    else if cutoff <= h[|h| - 1].time then Recent(h[..|h| - 1], cutoff) + [h[|h| - 1]]
    else Recent(h[..|h| - 1], cutoff)
  }

  lemma {:induction false} RecentAppend(h: seq<Item>, x: Item, cutoff: int)
    ensures Recent(h + [x], cutoff) == if cutoff <= x.time then Recent(h, cutoff) + [x] else Recent(h, cutoff)
  {
    assert (h + [x])[..|h|] == h;
  }

  /** Raising the cutoff twice is raising it once. */
  lemma {:induction false} RecentTwice(h: seq<Item>, c: int, c': int)
    requires c <= c'
    ensures Recent(Recent(h, c), c') == Recent(h, c')
  {
    if h != [] {
      var h0, x := h[..|h| - 1], h[|h| - 1];
      RecentTwice(h0, c, c');
      if c <= x.time {
        RecentAppend(Recent(h0, c), x, c');
      }
    }
  }

  lemma {:induction false} RecentIdentity(w: seq<Item>, c: int)
    requires forall i :: 0 <= i < |w| ==> c <= w[i].time
    ensures Recent(w, c) == w
  {
    if w != [] {
      RecentIdentity(w[..|w| - 1], c);
      assert w == w[..|w| - 1] + [w[|w| - 1]];
    }
  }

  /** Dropping an expired front entry leaves the recent arrivals as they were. */
  lemma {:induction false} RecentDropFirst(w: seq<Item>, c: int)
    requires w != [] && w[0].time < c
    ensures Recent(w[1..], c) == Recent(w, c)
  {
    if |w| > 1 {
      RecentDropFirst(w[..|w| - 1], c);
      assert w[1..][..|w[1..]| - 1] == w[..|w| - 1][1..];
    } else {
      assert w[..0] == [];
      assert Recent(w, c) == Recent(w[..0], c);
    }
  }

  /** A plain scan agrees with the recursion: membership and order of the history. */
  lemma {:induction false} RecentIsFilter(h: seq<Item>, c: int)
    ensures forall x :: multiset(Recent(h, c))[x] == if c <= x.time then multiset(h)[x] else 0
  {
    if h != [] {
      RecentIsFilter(h[..|h| - 1], c);
      assert h == h[..|h| - 1] + [h[|h| - 1]];
    }
  }

  lemma {:induction false} RecentFrom(h: seq<Item>, c: int, latest: int)
    requires UpTo(h, latest)
    ensures UpTo(Recent(h, c), latest)
  {
    if h != [] {
      RecentFrom(h[..|h| - 1], c, latest);
    }
  }

  /** The window holds the arrivals no older than its length at the latest one, if they came in order. */
  ghost predicate CoversHistory(entries: seq<Item>, h: seq<Item>, window: int) {
    Sorted(h) ==> entries == Recent(h, if h == [] then 0 else h[|h| - 1].time - window)
  }

  lemma {:induction false} SortedAppend(h: seq<Item>, x: Item)
    requires Sorted(h + [x])
    ensures Sorted(h) && UpTo(h, x.time)
  {
    var h' := h + [x];
    assert h'[|h|] == x;
    assert forall i :: 0 <= i < |h| ==> h'[i] == h[i];
  }

  /** Trimming the window and appending the new arrival keeps it covering the history. */
  lemma {:induction false} CoversStep(h: seq<Item>, x: Item, entries: seq<Item>, kept: seq<Item>,
                                      entries': seq<Item>, window: int)
    requires 0 < window && CoversHistory(entries, h, window) && kept == Recent(entries, x.time - window)
    requires UpTo(kept, x.time) ==> entries' == kept + [x]
    ensures CoversHistory(entries', h + [x], window)
    ensures Sorted(h + [x]) ==> kept == Recent(h, x.time - window)
  {
    if Sorted(h + [x]) {
      SortedAppend(h, x);
      if h != [] {
        RecentTwice(h, h[|h| - 1].time - window, x.time - window);
      }
      RecentAppend(h, x, x.time - window);
      RecentFrom(h, x.time - window, x.time);
    }
  }

  predicate SplitsAt(w: seq<Item>, k: nat, time: int) {
    && k <= |w| && (forall i :: 0 <= i < k ==> w[i].time <= time)
    && forall i :: k <= i < |w| ==> time < w[i].time
  }

  /** Inserting at the split keeps the order, adds only x, and appends when nothing is later. */
  lemma {:induction false} InsertSorted(w: seq<Item>, k: nat, x: Item)
    requires Sorted(w) && SplitsAt(w, k, x.time)
    ensures Sorted(w[..k] + [x] + w[k..])
    ensures multiset(w[..k] + [x] + w[k..]) == multiset(w) + multiset{x}
    ensures UpTo(w, x.time) ==> w[..k] + [x] + w[k..] == w + [x]
  {
    assert w == w[..k] + w[k..];
  }

  // ----- Delay -----

  /** The share of the window taken by service, capped at 0.99. */
  function Utilisation(window: int, sum: int): (u: real)
    requires 0 < window && 0 <= sum
    ensures u <= 0.99
  {
    if 99 * window < 100 * sum then 0.99
    else
      assert sum as real / window as real <= 0.99 by {
        assert sum as real <= 0.99 * window as real;
        RealFacts.QuotientBound(sum as real, window as real, 0.99);
      }
      sum as real / window as real
  }

  /** The mean wait of an M/G/1 queue, from the number of arrivals in the window and the sums of their
      service times and squares; the mean square is truncated. */
  function MeanWait(window: int, n: int, sum: int, sum2: int): real
    requires 0 < window && 0 < n && 0 <= sum && 0 <= sum2
  {
    var rate := n as real / window as real;
    rate * (sum2 / n) as real / (2.0 * (1.0 - Utilisation(window, sum)))
  }

  /** That wait truncated, and never above the window. */
  function Delay(window: int, n: int, sum: int, sum2: int): (r: int)
    requires 0 < window && 0 <= n && 0 <= sum && 0 <= sum2
    ensures 0 <= r <= window
    ensures n <= 1 ==> r == 0
  {
    if n <= 1 then 0 else
    WaitNonnegative(window, n, sum, sum2);
    var t := MeanWait(window, n, sum, sum2).Floor;
    if window < t then window else t
  }

  lemma {:induction false} WaitNonnegative(window: int, n: int, sum: int, sum2: int)
    requires 0 < window && 0 < n && 0 <= sum && 0 <= sum2
    ensures 0.0 <= MeanWait(window, n, sum, sum2)
  {
    var w, u := window as real, Utilisation(window, sum);
    RealFacts.QuotientSign(n as real, w);
    RealFacts.Product(n as real / w, (sum2 / n) as real);
    RealFacts.QuotientSign((n as real / w) * (sum2 / n) as real, 2.0 * (1.0 - u));
  }

  /** The mean wait before truncation, cleared of its quotients. */
  lemma {:induction false} Cleared(w: real, n: real, q: real, u: real, x: real)
    requires 0.0 < w && u < 1.0 && x == (n / w) * q / (2.0 * (1.0 - u))
    ensures x * (2.0 * (w - u * w)) == n * q
  {
    var d, a := 2.0 * (1.0 - u), n / w;
    assert x * d == a * q;
    assert x * (2.0 * (w - u * w)) == (x * d) * w;
    assert (a * q) * w == (a * w) * q;
  }

  lemma {:induction false} CastProduct(r: int, d: nat)
    ensures (r * d) as real == r as real * d as real
  {
    if d > 0 {
      CastProduct(r, d - 1);
      assert r * d == r * (d - 1) + r;
    }
  }

  lemma {:induction false} Ordered(a: real, x: real, b: real, d: real)
    requires a <= x < b && 0.0 < d
    ensures a * d <= x * d < b * d
  {
    RealFacts.Product(x - a, d);
    assert 0.0 < (b - x) * d;
  }

  /** r is total / d rounded down, or the limit if that is larger. */
  predicate Rounded(r: int, total: int, d: int, limit: int) {
    r * d <= total && (r == limit || total < (r + 1) * d)
  }

  lemma {:induction false} FloorScaled(x: real, d: int, total: int)
    requires 0 < d && x * d as real == total as real
    ensures x.Floor * d <= total < (x.Floor + 1) * d
  {
    var r := x.Floor;
    CastProduct(r, d);
    CastProduct(r + 1, d);
    Ordered(r as real, x, (r + 1) as real, d as real);
  }

  lemma {:induction false} LimitedFloor(x: real, d: int, total: int, limit: int)
    requires 0 < d && x * d as real == total as real
    ensures Rounded(if limit < x.Floor then limit else x.Floor, total, d, limit)
  {
    FloorScaled(x, d, total);
    if limit < x.Floor {
      assert 0 < (x.Floor - limit) * d;
    }
  }

  lemma {:induction false} WaitCleared(window: int, n: int, sum: int, sum2: int)
    requires 0 < window && 0 < n && 0 <= sum && 0 <= sum2
    ensures var x, total := MeanWait(window, n, sum, sum2), n * (sum2 / n);
            if 100 * sum <= 99 * window then x * (2 * (window - sum)) as real == total as real
            else x * window as real == (50 * total) as real
  {
    var w, q, u := window as real, sum2 / n, Utilisation(window, sum);
    var x := MeanWait(window, n, sum, sum2);
    Cleared(w, n as real, q as real, u, x);
    assert n as real * q as real == (n * q) as real;
    assert 100 * sum <= 99 * window ==> u * w == sum as real;
    hide Utilisation, MeanWait;
    if 99 * window < 100 * sum {
      Fiftieth(x, w);
    }
  }

  lemma {:induction false} Fiftieth(x: real, w: real)
    ensures x * w == 50.0 * (x * (2.0 * (w - 0.99 * w)))
  {
  }

  /** The delay over whole numbers. With q the mean square service, n arrivals of total service s in a
      window W wait n q / (2 (W - s)), rounded down, until s reaches 0.99 W; from there 50 n q / W; never
      more than W. */
  lemma {:induction false} DelayFormula(window: int, n: int, sum: int, sum2: int)
    requires 0 < window && 1 < n && 0 <= sum && 0 <= sum2
    ensures var r, total := Delay(window, n, sum, sum2), n * (sum2 / n);
            if 100 * sum <= 99 * window then Rounded(r, total, 2 * (window - sum), window)
            else Rounded(r, 50 * total, window, window)
  {
    WaitCleared(window, n, sum, sum2);
    hide MeanWait, Rounded;
    var x, total := MeanWait(window, n, sum, sum2), n * (sum2 / n);
    if 100 * sum <= 99 * window {
      LimitedFloor(x, 2 * (window - sum), total, window);
    } else {
      LimitedFloor(x, window, 50 * total, window);
    }
  }

  /** The delay recomputed from a list of arrivals. */
  function DelayOf(window: int, w: seq<Item>): int
    requires 0 < window
  {
    Delay(window, Wrap(|w|), Wrap(Sum(w)), Wrap(SquareSum(w)))
  }

  class WindowedQueue {
    const windowSize: int
    var entries: seq<Item>
    var arrivals: int
    var serviceSum: int
    var serviceSum2: int
    ghost var history: seq<Item>

    /** The three running sums are the folds of the window. */
    ghost predicate Counted()
      reads this`entries, this`arrivals, this`serviceSum, this`serviceSum2
    {
      Counts(entries, arrivals, serviceSum, serviceSum2)
    }

    ghost predicate Valid()
      reads this
    {
      0 < windowSize && Counted() && Sorted(entries) && CoversHistory(entries, history, windowSize)
    }

    constructor (window: int)
      requires 0 < window
      ensures Valid() && windowSize == window && history == []
    {
      windowSize := window;
      entries, arrivals, serviceSum, serviceSum2, history := [], 0, 0, 0, [];
    }

    /** Drop the entries older than the cutoff from the front. */
    method RemoveItems(cutoff: int)
      requires Counted() && Sorted(entries)
      modifies this`entries, this`arrivals, this`serviceSum, this`serviceSum2
      ensures Counted() && Sorted(entries) && entries == Recent(old(entries), cutoff)
      ensures forall i :: 0 <= i < |entries| ==> cutoff <= entries[i].time
    {
      while entries != [] && entries[0].time < cutoff
        invariant Counted() && Sorted(entries) && Recent(entries, cutoff) == Recent(old(entries), cutoff)
        decreases |entries|
      {
        var x := entries[0];
        RecentDropFirst(entries, cutoff);
        CountsDrop(entries, arrivals, serviceSum, serviceSum2);
        arrivals := Wrap(arrivals - 1);
        serviceSum := Wrap(serviceSum - Wrap(x.service));
        serviceSum2 := Wrap(serviceSum2 - Square(x));
        entries := entries[1..];
      }
      RecentIdentity(entries, cutoff);
    }

    /** Where the multimap puts a key: after every entry not above it. */
    method InsertionPoint(time: int) returns (k: nat)
      requires Sorted(entries)
      ensures SplitsAt(entries, k, time)
    {
      k := |entries|;
      while 0 < k && time < entries[k - 1].time
        invariant k <= |entries| && forall i :: k <= i < |entries| ==> time < entries[i].time
      {
        k := k - 1;
      }
    }

    method AddItem(x: Item)
      requires Counted() && Sorted(entries)
      modifies this`entries, this`arrivals, this`serviceSum, this`serviceSum2
      ensures Counted() && Sorted(entries) && multiset(entries) == multiset(old(entries)) + multiset{x}
      ensures UpTo(old(entries), x.time) ==> entries == old(entries) + [x]
    {
      var k := InsertionPoint(x.time);
      CountsInsert(entries, k, x, arrivals, serviceSum, serviceSum2);
      InsertSorted(entries, k, x);
      entries := entries[..k] + [x] + entries[k..];
      arrivals := Wrap(arrivals + 1);
      serviceSum := Wrap(serviceSum + Wrap(x.service));
      serviceSum2 := Wrap(serviceSum2 + Square(x));
    }

    /** The wait implied by the running sums. */
    method CurrentDelay() returns (delay: int)
      requires 0 < windowSize && Counted()
      ensures delay == DelayOf(windowSize, entries) && 0 <= delay <= windowSize
    {
      delay := Delay(windowSize, arrivals, serviceSum, serviceSum2);
    }

    /** Enter the arrival into the trimmed window and the history. */
    method Join(x: Item, ghost before: seq<Item>)
      requires 0 < windowSize && Counted() && Sorted(entries)
      requires CoversHistory(before, history, windowSize) && entries == Recent(before, x.time - windowSize)
      modifies this`entries, this`arrivals, this`serviceSum, this`serviceSum2, this`history
      ensures Valid() && history == old(history) + [x]
      ensures multiset(entries) == multiset(old(entries)) + multiset{x}
      ensures Sorted(history) ==> old(entries) == Recent(old(history), x.time - windowSize)
    {
      AddItem(x);
      CoversStep(history, x, before, old(entries), entries, windowSize);
      history := history + [x];
    }

    /** The wait of one arrival, from the window before it joins. In-order arrivals are charged exactly
        what a recomputation over the whole history would charge. */
    method ComputeQueueDelay(x: Item) returns (delay: int)
      requires Valid()
      modifies this`entries, this`arrivals, this`serviceSum, this`serviceSum2, this`history
      ensures Valid() && history == old(history) + [x] && 0 <= delay <= windowSize
      ensures multiset(entries) == multiset(Recent(old(entries), x.time - windowSize)) + multiset{x}
      ensures delay == DelayOf(windowSize, Recent(old(entries), x.time - windowSize))
      ensures Sorted(history) ==> delay == DelayOf(windowSize, Recent(old(history), x.time - windowSize))
    {
      RemoveItems(x.time - windowSize);
      delay := CurrentDelay();
      Join(x, old(entries));
    }
  }
}
