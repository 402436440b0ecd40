/** Slipping booked reads: a read placed in the bubble ahead of booked reads pushes their
    calendar entries to the earliest spacing legal after everything before them. */
module OpusSlip {
  import opened Basics
  import opened OpusTypes
  import opened OpusCalendar
  import opened OpusSlots

  function AfterOne(cfg: Config, c: Command, bg: int): int {
    c.t + cfg.ColGap(c.write, c.bankGroup, false, bg)
  }

  /** The least time at or after t at which a read of group bg may follow all of `before`. */
  function LeastAfter(cfg: Config, before: seq<Command>, bg: int, t: int): int {
    if before == [] then t
    else Max(LeastAfter(cfg, before[..|before| - 1], bg, t), AfterOne(cfg, before[|before| - 1], bg))
  }

  /** It follows every predecessor, and is forced by one of them (or is t itself). */
  lemma {:induction false} LeastAfterIsLeast(cfg: Config, before: seq<Command>, bg: int, t: int)
    ensures var r := LeastAfter(cfg, before, bg, t);
            && t <= r
            && (forall i :: 0 <= i < |before| ==> AfterOne(cfg, before[i], bg) <= r)
            && (r == t || exists i :: 0 <= i < |before| && AfterOne(cfg, before[i], bg) == r)
  {
    if before != [] {
      var front := before[..|before| - 1];
      LeastAfterIsLeast(cfg, front, bg, t);
      var r0 := LeastAfter(cfg, front, bg, t);
      if r0 != t {
        var i :| 0 <= i < |front| && AfterOne(cfg, front[i], bg) == r0;
        assert before[i] == front[i];
      }
      assert AfterOne(cfg, before[|before| - 1], bg) <= LeastAfter(cfg, before, bg, t);
    }
  }

  /** A bound met by t or one predecessor, and by no predecessor exceeded, is LeastAfter. */
  lemma {:induction false} LeastAfterUnique(cfg: Config, before: seq<Command>, bg: int, t: int, r: int)
    requires t <= r
    requires forall i :: 0 <= i < |before| ==> AfterOne(cfg, before[i], bg) <= r
    requires r == t || exists i :: 0 <= i < |before| && AfterOne(cfg, before[i], bg) == r
    ensures r == LeastAfter(cfg, before, bg, t)
  {
    LeastAfterIsLeast(cfg, before, bg, t);
  }

  function Need(cfg: Config, cols: seq<Command>, k: nat): int
    requires k < |cols|
  {
    LeastAfter(cfg, cols[..k], cols[k].bankGroup, cols[k].t)
  }

  /** The entries after slipping from index k, before any re-sort: reads are moved until one
      need not move, a write is met, or the calendar ends. */
  function Slipped(cfg: Config, cols: seq<Command>, k: nat): (r: seq<Command>)
    ensures |r| == |cols|
    decreases |cols| - k
  {
    if k >= |cols| || cols[k].write || Need(cfg, cols, k) == cols[k].t then cols
    else Slipped(cfg, cols[k := cols[k].(t := Need(cfg, cols, k))], k + 1)
  }

  /** Where that pass stops. */
  function SlipStop(cfg: Config, cols: seq<Command>, k: nat): (stop: nat)
    requires k <= |cols|
    ensures k <= stop <= |cols|
    decreases |cols| - k
  {
    if k >= |cols| || cols[k].write || Need(cfg, cols, k) == cols[k].t then k
    else SlipStop(cfg, cols[k := cols[k].(t := Need(cfg, cols, k))], k + 1)
  }

  /** Entry i of the slipped calendar, against what it was before. */
  predicate MovedToLeast(cfg: Config, cols: seq<Command>, r: seq<Command>, i: int)
    requires 0 <= i < |cols| == |r|
  {
    && !cols[i].write
    && r[i] == cols[i].(t := LeastAfter(cfg, r[..i], cols[i].bankGroup, cols[i].t))
    && cols[i].t < r[i].t
  }

  /** Exactly the reads from k up to the stop move, each to the least time legal after all its
      (already moved) predecessors; the pass stops at the end, at a write, or at a read that is
      already far enough. */
  lemma {:induction false} SlippedPlaces(cfg: Config, cols: seq<Command>, k: nat)
    requires k <= |cols|
    ensures var r, stop := Slipped(cfg, cols, k), SlipStop(cfg, cols, k);
            && r[..k] == cols[..k] && r[stop..] == cols[stop..]
            && (forall i :: k <= i < stop ==> MovedToLeast(cfg, cols, r, i))
            && (stop < |cols| && !cols[stop].write ==> Need(cfg, r, stop) == r[stop].t)
    decreases |cols| - k
  {
    if k < |cols| && !cols[k].write && Need(cfg, cols, k) != cols[k].t {
      LeastAfterIsLeast(cfg, cols[..k], cols[k].bankGroup, cols[k].t);
      var next := cols[k := cols[k].(t := Need(cfg, cols, k))];
      SlippedPlaces(cfg, next, k + 1);
      var r, stop := Slipped(cfg, next, k + 1), SlipStop(cfg, next, k + 1);
      assert r[..k] == next[..k + 1][..k] == cols[..k];
      assert r[k] == next[..k + 1][k];
      forall i | k <= i < stop ensures MovedToLeast(cfg, cols, r, i) {
        if i > k {
          assert MovedToLeast(cfg, next, r, i);
        }
      }
    }
  }

  /** No write moves, no read moves earlier, and every command keeps its identity. */
  lemma {:induction false} SlippedKeepsCommands(cfg: Config, cols: seq<Command>, k: nat)
    requires k <= |cols|
    ensures var r := Slipped(cfg, cols, k);
            && Keys(r) == Keys(cols)
            && (forall i :: 0 <= i < |cols| ==> cols[i].t <= r[i].t && Key(r[i]) == Key(cols[i]))
            && (forall i :: 0 <= i < |cols| && cols[i].write ==> r[i] == cols[i])
  {
    SlippedPlaces(cfg, cols, k);
    var r, stop := Slipped(cfg, cols, k), SlipStop(cfg, cols, k);
    forall i | 0 <= i < |cols|
      ensures cols[i].t <= r[i].t && Key(r[i]) == Key(cols[i]) && (cols[i].write ==> r[i] == cols[i])
    {
      if i < k {
        assert r[i] == r[..k][i] == cols[..k][i];
      } else if i < stop {
        assert MovedToLeast(cfg, cols, r, i);
      } else {
        assert r[i] == r[stop..][i - stop] == cols[stop..][i - stop];
      }
    }
    assert Keys(r) == Keys(cols);
  }

  /** The moved prefix stays in order, so the calendar is out of order only if the pass ended at
      a write that the last moved read went past. */
  lemma {:induction false} SlippedOrder(cfg: Config, cols: seq<Command>, k: nat)
    requires cfg.Ok() && k <= |cols| && Sorted(cols)
    ensures var r, stop := Slipped(cfg, cols, k), SlipStop(cfg, cols, k);
            && Sorted(r[..stop])
            && (Sorted(r) <==> !(k < stop < |cols| && cols[stop].write && cols[stop].t < r[stop - 1].t))
  {
    hide Slipped, SlipStop, MovedToLeast;
    SlippedPlaces(cfg, cols, k);
    var r, stop := Slipped(cfg, cols, k), SlipStop(cfg, cols, k);
    SortedUpTo(cfg, cols, k, r, stop, stop);
    SortedTail(cols, r, stop);
    if stop == k {
      assert r == r[..k] + r[k..] == cols[..k] + cols[k..] == cols;
    } else if stop == |cols| {
      assert r[..stop] == r;
    } else {
      if !cols[stop].write {
        NextIsAfter(cfg, r, stop);
      }
      if r[stop - 1].t <= r[stop].t {
        SortedJoin(r, stop);
      }
    }
  }

  lemma {:induction false} SortedTail(cols: seq<Command>, r: seq<Command>, stop: nat)
    requires |r| == |cols| && stop <= |cols| && r[stop..] == cols[stop..] && Sorted(cols)
    ensures Sorted(r[stop..]) && (stop < |cols| ==> r[stop] == cols[stop])
  {
    assert stop < |cols| ==> r[stop] == r[stop..][0] == cols[stop..][0] == cols[stop];
  }

  /** A read that fits is not before the entry ahead of it. */
  lemma {:induction false} NextIsAfter(cfg: Config, r: seq<Command>, stop: nat)
    requires cfg.Ok() && 0 < stop < |r| && Need(cfg, r, stop) == r[stop].t
    ensures r[stop - 1].t <= r[stop].t
  {
    LeastAfterIsLeast(cfg, r[..stop], r[stop].bankGroup, r[stop].t);
    assert r[..stop][stop - 1] == r[stop - 1];
    GapBounds(cfg, r[stop - 1].write, r[stop - 1].bankGroup, false, r[stop].bankGroup);
  }

  lemma {:induction false} SortedJoin(r: seq<Command>, stop: nat)
    requires 0 < stop < |r| && Sorted(r[..stop]) && Sorted(r[stop..]) && r[stop - 1].t <= r[stop].t
    ensures Sorted(r)
  {
    forall i, j | 0 <= i < j < |r| ensures r[i].t <= r[j].t {
      if i < stop <= j {
        assert r[..stop][i].t <= r[..stop][stop - 1].t;
        assert r[stop..][0].t <= r[stop..][j - stop].t;
      } else if j < stop {
        assert r[..stop][i].t <= r[..stop][j].t;
      } else {
        assert r[stop..][i - stop].t <= r[stop..][j - stop].t;
      }
    }
  }

  lemma {:induction false} SortedUpTo(cfg: Config, cols: seq<Command>, k: nat, r: seq<Command>, stop: nat, n: nat)
    requires cfg.Ok() && Sorted(cols) && |r| == |cols| && k <= stop <= |cols| && n <= stop
    requires r[..k] == cols[..k]
    requires forall i :: k <= i < stop ==> MovedToLeast(cfg, cols, r, i)
    ensures Sorted(r[..n])
  {
    if n <= k {
      assert r[..n] == r[..k][..n] == cols[..n];
    } else {
      SortedUpTo(cfg, cols, k, r, stop, n - 1);
      var i := n - 1;
      assert MovedToLeast(cfg, cols, r, i);
      LeastAfterIsLeast(cfg, r[..i], cols[i].bankGroup, cols[i].t);
      forall a, b | 0 <= a < b < n ensures r[a].t <= r[b].t {
        if b == i {
          assert AfterOne(cfg, r[..i][a], cols[i].bankGroup) <= r[i].t;
          GapBounds(cfg, r[a].write, r[a].bankGroup, false, cols[i].bankGroup);
        } else {
          assert r[..n - 1][a].t <= r[..n - 1][b].t;
        }
      }
    }
  }

  // ----- Bandwidth: with reads only, slipping restores the full spacing -----

  /** Every pair keeps its whole gap; no overlap is left. */
  predicate FullySpaced(cfg: Config, cols: seq<Command>) {
    forall i, j :: 0 <= i < j < |cols| ==> FullGap(cfg, cols[i], cols[j])
  }

  predicate FullGap(cfg: Config, a: Command, b: Command) {
    a.t + cfg.ColGap(a.write, a.bankGroup, b.write, b.bankGroup) <= b.t
  }

  predicate ReadsOnly(cols: seq<Command>) {
    forall i :: 0 <= i < |cols| ==> !cols[i].write
  }

  lemma {:induction false} FullySpacedSorted(cfg: Config, cols: seq<Command>)
    requires cfg.Ok() && FullySpaced(cfg, cols)
    ensures Sorted(cols)
  {
    forall i, j | 0 <= i < j < |cols| ensures cols[i].t <= cols[j].t {
      assert FullGap(cfg, cols[i], cols[j]);
      GapBounds(cfg, cols[i].write, cols[i].bankGroup, cols[j].write, cols[j].bankGroup);
    }
  }

  /** If the entries before k and those from k on are each fully spaced, slipping from k makes the
      whole calendar fully spaced. Stopping at the first read that need not move is enough
      because two short gaps cover a long one. */
  lemma {:induction false} SlipRestoresSpacing(cfg: Config, cols: seq<Command>, k: nat)
    requires cfg.Ok() && cfg.tCCDL <= 2 * cfg.tCCDS && k <= |cols| && ReadsOnly(cols)
    requires FullySpaced(cfg, cols[..k]) && FullySpaced(cfg, cols[k..])
    ensures FullySpaced(cfg, Slipped(cfg, cols, k)) && ReadsOnly(Slipped(cfg, cols, k))
    decreases |cols| - k
  {
    if k == |cols| {
      assert cols[..k] == cols;
    } else {
      LeastAfterIsLeast(cfg, cols[..k], cols[k].bankGroup, cols[k].t);
      var need := Need(cfg, cols, k);
      if need == cols[k].t {
        FarEnough(cfg, cols, k);
      } else {
        MovedEntrySpaced(cfg, cols, k);
        SlipRestoresSpacing(cfg, cols[k := cols[k].(t := need)], k + 1);
      }
    }
  }

  /** A read that need not move separates everything before it from everything after it. */
  lemma {:induction false} FarEnough(cfg: Config, cols: seq<Command>, k: nat)
    requires cfg.Ok() && cfg.tCCDL <= 2 * cfg.tCCDS && k < |cols| && ReadsOnly(cols)
    requires FullySpaced(cfg, cols[..k]) && FullySpaced(cfg, cols[k..]) && Need(cfg, cols, k) == cols[k].t
    ensures FullySpaced(cfg, cols)
  {
    LeastAfterIsLeast(cfg, cols[..k], cols[k].bankGroup, cols[k].t);
    forall i, j | 0 <= i < j < |cols| ensures FullGap(cfg, cols[i], cols[j]) {
      if j < k {
        assert FullGap(cfg, cols[..k][i], cols[..k][j]);
      } else if k <= i {
        assert FullGap(cfg, cols[k..][i - k], cols[k..][j - k]);
      } else {
        assert AfterOne(cfg, cols[..k][i], cols[k].bankGroup) <= cols[k].t;
        if k < j {
          assert FullGap(cfg, cols[k..][0], cols[k..][j - k]);
        }
      }
    }
  }

  lemma {:induction false} MovedEntrySpaced(cfg: Config, cols: seq<Command>, k: nat)
    requires k < |cols| && ReadsOnly(cols) && FullySpaced(cfg, cols[..k]) && FullySpaced(cfg, cols[k..])
    ensures var next := cols[k := cols[k].(t := Need(cfg, cols, k))];
            ReadsOnly(next) && FullySpaced(cfg, next[..k + 1]) && FullySpaced(cfg, next[k + 1..])
  {
    LeastAfterIsLeast(cfg, cols[..k], cols[k].bankGroup, cols[k].t);
    var next := cols[k := cols[k].(t := Need(cfg, cols, k))];
    forall i, j | 0 <= i < j < k + 1 ensures FullGap(cfg, next[i], next[j]) {
      if j < k {
        assert FullGap(cfg, cols[..k][i], cols[..k][j]);
      } else {
        assert AfterOne(cfg, cols[..k][i], cols[k].bankGroup) <= Need(cfg, cols, k);
      }
    }
    forall i, j | k + 1 <= i < j < |cols| ensures FullGap(cfg, next[i], next[j]) {
      assert FullGap(cfg, cols[k..][i - k], cols[k..][j - k]);
    }
  }

  /** A legal read inserted into a fully spaced read calendar, then slipped. */
  function InsertAndSlip(cfg: Config, cols: seq<Command>, c: Command): seq<Command> {
    var k := UpperIndex(cols, c.t);
    StableSort(Slipped(cfg, InsertAt(cols, k, c), k + 1))
  }

  lemma {:induction false} InsertAndSlipSpaced(cfg: Config, cols: seq<Command>, c: Command, k: nat)
    requires cfg.Ok() && cfg.tCCDL <= 2 * cfg.tCCDS && ReadsOnly(cols) && !c.write && k <= |cols|
    requires FullySpaced(cfg, cols)
    requires forall i :: 0 <= i < k ==> FullGap(cfg, cols[i], c)
    ensures var r := StableSort(Slipped(cfg, InsertAt(cols, k, c), k + 1));
            FullySpaced(cfg, r) && ReadsOnly(r)
  {
    var s := InsertAt(cols, k, c);
    assert FullySpaced(cfg, s[..k + 1]);
    assert s[k + 1..] == cols[k..];
    SlipRestoresSpacing(cfg, s, k + 1);
    FullySpacedSorted(cfg, Slipped(cfg, s, k + 1));
    StableSortIdentity(Slipped(cfg, s, k + 1));
  }

  predicate GapsCover(cfg: Config) {
    cfg.colSqueeze == 0 || cfg.tCCDL <= Max(2 * cfg.tCCDS, 1)
  }

  /** Bandwidth is conserved by every squeezed read exactly when no read may be squeezed or two
      short gaps cover a long one; otherwise the slip stops one read too early. */
  lemma {:induction false} BandwidthConserved(cfg: Config)
    requires cfg.Ok()
    ensures (forall cols: seq<Command>, c: Command ::
              ReadsOnly(cols) && FullySpaced(cfg, cols) && !c.write
              && ColLegal(cfg, cols, c.t, c.bankGroup, false, false)
              ==> FullySpaced(cfg, InsertAndSlip(cfg, cols, c)))
            <==> GapsCover(cfg)
  {
    if GapsCover(cfg) {
      forall cols: seq<Command>, c: Command |
        ReadsOnly(cols) && FullySpaced(cfg, cols) && !c.write
        && ColLegal(cfg, cols, c.t, c.bankGroup, false, false)
        ensures FullySpaced(cfg, InsertAndSlip(cfg, cols, c))
      {
        InsertAndSlipLegal(cfg, cols, c);
      }
    } else {
      SlipStopsTooEarly(cfg);
    }
  }

  lemma {:induction false} InsertAndSlipLegal(cfg: Config, cols: seq<Command>, c: Command)
    requires cfg.Ok() && ReadsOnly(cols) && FullySpaced(cfg, cols) && !c.write
    requires ColLegal(cfg, cols, c.t, c.bankGroup, false, false)
    requires GapsCover(cfg)
    ensures FullySpaced(cfg, InsertAndSlip(cfg, cols, c))
  {
    FullySpacedSorted(cfg, cols);
    var k := UpperIndex(cols, c.t);
    forall i | 0 <= i < |cols|
      ensures i < k ==> FullGap(cfg, cols[i], c)
      ensures k <= i && (cfg.colSqueeze == 0 || cfg.tCCDL <= 1) ==> FullGap(cfg, c, cols[i])
    {
      assert ColClear(cfg, cols[i], c.t, c.bankGroup, false, false);
    }
    if cfg.tCCDL <= 2 * cfg.tCCDS {
      InsertAndSlipSpaced(cfg, cols, c, k);
    } else {
      InsertedSpaced(cfg, cols, c, k);
      NothingToSlip(cfg, InsertAt(cols, k, c), k + 1);
    }
  }

  lemma {:induction false} InsertedSpaced(cfg: Config, cols: seq<Command>, c: Command, k: nat)
    requires cfg.Ok() && ReadsOnly(cols) && FullySpaced(cfg, cols) && !c.write && k <= |cols|
    requires forall i :: 0 <= i < k ==> FullGap(cfg, cols[i], c)
    requires forall i :: k <= i < |cols| ==> FullGap(cfg, c, cols[i])
    ensures var s := InsertAt(cols, k, c); FullySpaced(cfg, s) && ReadsOnly(s) && StableSort(s) == s
  {
    FullySpacedSorted(cfg, InsertAt(cols, k, c));
    StableSortIdentity(InsertAt(cols, k, c));
  }

  lemma {:induction false} NothingToSlip(cfg: Config, s: seq<Command>, k: nat)
    requires FullySpaced(cfg, s) && ReadsOnly(s) && k <= |s|
    ensures Slipped(cfg, s, k) == s
  {
    if k < |s| {
      LeastAfterIsLeast(cfg, s[..k], s[k].bankGroup, s[k].t);
      assert forall i :: 0 <= i < k ==> FullGap(cfg, s[i], s[k]);
    }
  }

  /** Group-0 read at 0, then a booked group-1 read and a booked group-0 read: the group-1 read is
      already far enough, so the group-0 read behind it is never moved. */
  lemma {:induction false} SlipStopsTooEarly(cfg: Config)
    requires cfg.Ok() && 0 < cfg.colSqueeze && Max(2 * cfg.tCCDS, 1) < cfg.tCCDL
    ensures exists cols: seq<Command>, c: Command ::
              && ReadsOnly(cols) && FullySpaced(cfg, cols) && !c.write
              && ColLegal(cfg, cols, c.t, c.bankGroup, false, false)
              && !FullySpaced(cfg, InsertAndSlip(cfg, cols, c))
  {
    var c := Command(0, 0, false, 0, false);
    var near := Command(Max(cfg.tCCDS, 1), 1, false, 1, false);
    var far := Command(cfg.tCCDL - 1, 0, false, 2, false);
    assert ColLegal(cfg, [near, far], 0, 0, false, false);
    SpacedPair(cfg, near, far);
    TooEarly(cfg, c, near, far);
  }

  lemma {:induction false} SpacedPair(cfg: Config, a: Command, b: Command)
    requires !a.write && !b.write && FullGap(cfg, a, b)
    ensures FullySpaced(cfg, [a, b]) && ReadsOnly([a, b])
  {
  }

  lemma {:induction false} TooEarly(cfg: Config, c: Command, near: Command, far: Command)
    requires !c.write && !near.write && !far.write
    requires c.t < near.t <= far.t && FullGap(cfg, c, near) && !FullGap(cfg, c, far)
    ensures !FullySpaced(cfg, InsertAndSlip(cfg, [near, far], c))
  {
    var cols := [near, far];
    var s := InsertAt(cols, 0, c);
    assert UpperIndex(cols, c.t) == 0;
    assert s == [c, near, far];
    assert s[..1] == [c];
    assert Need(cfg, s, 1) == Max(near.t, AfterOne(cfg, c, near.bankGroup)) by {
      assert LeastAfter(cfg, [c][..0], near.bankGroup, near.t) == near.t;
    }
    assert Slipped(cfg, s, 1) == s;
    assert Sorted(s);
    StableSortIdentity(s);
    assert !FullGap(cfg, s[0], s[2]);
  }
}
