/** When the write buffer drains and in which order, which buffered writes count as row hits, and what
    pruning the calendars may forget. */
module OpusDrains {
  import opened Basics
  import opened OpusTypes
  import opened OpusCalendar
  import opened OpusSlots
  import opened OpusBanks
  import opened OpusTimeline
  import opened OpusPolicy
  import opened OpusHorizons

  // ----- Writes that pass an activated read -----

  lemma {:induction false} OverlappingIsFirst(cfg: Config, s: State, from: int, rd: int, nextRead: int, i: nat)
    requires i <= |s.wq| && BufferOk(s.wq, |s.tl.banks|)
    ensures var r := Overlapping(cfg, s, from, rd, nextRead, i);
            && (r < |s.wq| ==> Overlaps(cfg, s, from, rd, nextRead, r))
            && forall j :: i <= j < r ==> !Overlaps(cfg, s, from, rd, nextRead, j)
    decreases |s.wq| - i
  {
    hide Overlaps;
    if i < |s.wq| && !Overlaps(cfg, s, from, rd, nextRead, i) {
      OverlappingIsFirst(cfg, s, from, rd, nextRead, i + 1);
    }
  }

  /** While an activated read waits for tRCD, write mode takes every buffered write whose WR precedes the RD
      and that starts before the next read: none is left, and each taken one starts before the next read. */
  lemma {:induction false} StarveTakesAll(cfg: Config, s: State, act: int, ready: int, bg: int, nextRead: int)
    requires cfg.Ok() && StateOk(cfg, s)
    ensures var r := Starve(cfg, s, act, ready, bg, nextRead);
            && (forall i :: 0 <= i < |r.wq| ==>
                  ReadSlot(cfg, r, ready, bg) <= PlanWrite(cfg, r.tl, r.wq[i], r.hitTime, act + 1).column
                  || nextRead <= PlanWrite(cfg, r.tl, r.wq[i], r.hitTime, act + 1).first)
            && s.booked <= r.booked
            && forall i :: |s.booked| <= i < |r.booked| ==> r.booked[i].plan.first < nextRead
    decreases |s.wq|
  {
    hide BankOk, ColumnsOk, ActsOk, PlanWrite, ReadSlot, CommitWrite;
    var rd := ReadSlot(cfg, s, ready, bg);
    var i := Overlapping(cfg, s, act + 1, rd, nextRead, 0);
    OverlappingIsFirst(cfg, s, act + 1, rd, nextRead, 0);
    if i == |s.wq| {
      forall j | 0 <= j < |s.wq|
        ensures rd <= PlanWrite(cfg, s.tl, s.wq[j], s.hitTime, act + 1).column
                || nextRead <= PlanWrite(cfg, s.tl, s.wq[j], s.hitTime, act + 1).first
      {
        assert !Overlaps(cfg, s, act + 1, rd, nextRead, j);
      }
    } else {
      CommitWriteOk(cfg, s, i, act + 1);
      CommitBooks(cfg, s, i, act + 1);
      StarveTakesAll(cfg, CommitWrite(cfg, s, i, act + 1), act, ready, bg, nextRead);
    }
  }

  lemma {:induction false} CommitBooks(cfg: Config, s: State, i: nat, from: int)
    requires cfg.Ok() && StateOk(cfg, s) && i < |s.wq|
    ensures CommitWrite(cfg, s, i, from).booked == s.booked + [BookedWrite(s.wq[i], Plan(cfg, s, i, from))]
  {
    hide ApplyWrite, BankOk, ColumnsOk, ActsOk;
  }

  // ----- Draining to the low mark -----

  /** A drain for a read books first the write that can start first. */
  lemma {:induction false} DrainsEarliestFirst(cfg: Config, s: State, expected: nat)
    requires cfg.Ok() && StateOk(cfg, s) && s.wq != [] && cfg.wqLow <= |s.wq| + expected
    ensures var r, n := DrainDown(cfg, s, expected), |s.booked|;
            n < |r.booked|
            && exists p :: 0 <= p < |s.wq|
                 && r.booked[n] == BookedWrite(s.wq[p], PlanWrite(cfg, s.tl, s.wq[p], s.hitTime, s.drainStart))
                 && forall i :: 0 <= i < |s.wq| ==>
                      r.booked[n].plan.first <= PlanWrite(cfg, s.tl, s.wq[i], s.hitTime, s.drainStart).first
  {
    hide BankOk, ColumnsOk, ActsOk, PlanWrite, CommitWrite, Pick;
    var p := Pick(cfg, s, s.drainStart, |s.wq|);
    PickIsEarliest(cfg, s, s.drainStart, |s.wq|);
    CommitWriteOk(cfg, s, p, s.drainStart);
    CommitBooks(cfg, s, p, s.drainStart);
    var d := DrainOne(cfg, s, s.drainStart);
    assert DrainDown(cfg, s, expected) == DrainDown(cfg, d, expected);
    assert d.booked <= DrainDown(cfg, d, expected).booked;
    forall i | 0 <= i < |s.wq|
      ensures Plan(cfg, s, p, s.drainStart).first <= PlanWrite(cfg, s.tl, s.wq[i], s.hitTime, s.drainStart).first
    {
      assert Plan(cfg, s, i, s.drainStart) == PlanWrite(cfg, s.tl, s.wq[i], s.hitTime, s.drainStart);
    }
  }

  // ----- Entering write mode through the high mark -----

  /** A buffered write forces write mode exactly when the buffer reaches the high mark outside a forced
      drain; a drain under way keeps its start. */
  lemma {:induction false} HighMarkForces(cfg: Config, s: State, q: Request)
    ensures var r := Buffer(cfg, s, q);
            && r.wq == s.wq + [Pending(q)] && r.tl == s.tl
            && (if cfg.wqHigh <= |s.wq| + 1 && !(s.writeMode && s.forced) then
                  && r.writeMode && r.forced && r.forcedAt == q.now < r.drainStart
                  && r.hitTime == (if cfg.triggerHits && q.now + 1 < r.drainStart then q.now + 1 else -1)
                else
                  && r.writeMode == s.writeMode && r.forced == s.forced && r.drainStart == s.drainStart
                  && r.hitTime == s.hitTime)
  {
  }

  /** A write that forces a drain while reads wait leaves them all ahead of it: their RDs, their departures or
      their ACTs precede the drain's start, as drain_after_reads says, in every run. */
  lemma {:induction false} ForcedDrainFollowsReads(cfg: Config, n: nat, qs: seq<Request>, q: Request, i: nat)
    requires cfg.Ok() && RequestsFor(qs + [q], n) && RequestsFor(qs, n) && q.write && cfg.modelWrites
    requires var a := CatchUp(cfg, Run(cfg, n, qs), q);
             cfg.wqHigh <= |a.wq| + 1 && !(a.writeMode && a.forced) && q.now < a.tl.readHorizon
    ensures var r := Run(cfg, n, qs + [q]);
            && r.forced && r.forcedAt == q.now < r.drainStart
            && (cfg.drainAfterReads == 1 && i < |r.tl.cols| && !r.tl.cols[i].write ==> r.tl.cols[i].t < r.drainStart)
            && (cfg.drainAfterReads == 2 && i < |r.tl.cols| && r.tl.cols[i].leaves && Synced(cfg) ==>
                  r.tl.cols[i].t < r.drainStart)
            && (cfg.drainAfterReads in {2, 3} && i < |r.tl.acts| && r.tl.acts[i].leaves ==>
                  r.tl.acts[i].t < r.drainStart)
            && (cfg.drainAfterReads !in {1, 2, 3} ==> r.drainStart == q.now + 1)
  {
    hide Run, CatchUp, StateOk;
    assert (qs + [q])[..|qs|] == qs && (qs + [q])[..|qs| + 1] == qs + [q];
    RunStep(cfg, n, qs + [q], |qs|);
    ReachableHorizons(cfg, n, qs + [q], i);
  }

  // ----- Writes that hit the rows open at the trigger -----

  /** Window j is the one open at time t: the last activated by then, and not yet closed. */
  predicate OpenAt(ws: seq<Window>, n: nat, t: int, j: int)
    requires n <= |ws|
  {
    0 <= j < n && ws[j].act <= t && !ClosedBy(ws[j], t) && forall i :: j < i < n ==> t < ws[i].act
  }

  lemma {:induction false} WindowAtExact(ws: seq<Window>, n: nat, t: int, j: int)
    requires n <= |ws| && 0 <= j
    ensures WindowAt(ws, n, t) == j <==> OpenAt(ws, n, t, j)
  {
    if n > 0 && t < ws[n - 1].act {
      WindowAtExact(ws, n - 1, t, j);
    }
  }

  /** A buffered write is a row hit of the trigger exactly when its row was open then, in the bank's history,
      and is no longer the open one. */
  lemma {:induction false} TriggerHitExact(b: Bank, w: PendingWrite, hitTime: int, j: int)
    requires 0 <= j
    ensures TriggerHit(b, w, hitTime) == j
            <==> && 0 <= hitTime && b.row != w.row && OpenAt(b.windows, |b.windows|, hitTime, j)
                 && b.windows[j].row == w.row
  {
    WindowAtExact(b.windows, |b.windows|, hitTime, j);
  }

  /** Such a write takes the least legal WR from tRCD after its row's ACT, and opens nothing. */
  lemma {:induction false} TriggerHitPlan(cfg: Config, tl: Timeline, w: PendingWrite, hitTime: int, from: int, j: int)
    requires cfg.Ok() && 0 <= w.bank < |tl.banks| && 0 <= hitTime && tl.banks[w.bank].row != w.row
    requires OpenAt(tl.banks[w.bank].windows, |tl.banks[w.bank].windows|, hitTime, j)
    requires tl.banks[w.bank].windows[j].row == w.row
    ensures var p, ready := PlanWrite(cfg, tl, w, hitTime, from),
                            Max(Max(from, w.arrive + 1), tl.banks[w.bank].windows[j].act + cfg.tRCD);
            && !p.opens && p.first == p.leave == p.column && ready <= p.column
            && ColLegal(cfg, tl.cols, p.column, w.bankGroup, true, false)
            && forall x :: ready <= x < p.column ==> !ColLegal(cfg, tl.cols, x, w.bankGroup, true, false)
  {
    hide ColSlot, PlanBook;
    TriggerHitExact(tl.banks[w.bank], w, hitTime, j);
    ColSlotIsLeast(cfg, tl.cols, Max(Max(from, w.arrive + 1), tl.banks[w.bank].windows[j].act + cfg.tRCD),
                   w.bankGroup, true, false);
  }

  // ----- Pruning -----

  /** Pruning forgets only commands too old to matter: from two cycles before the admission on, a time is
      legal on the pruned calendars exactly when it was on the full ones. */
  lemma {:induction false} PruneInvisible(cfg: Config, s: State, now: int, t: int, bg: int, write: bool, active: bool)
    requires cfg.Ok() && Sorted(s.tl.cols) && Sorted(s.tl.acts) && now - 2 <= t
    ensures var p := Prune(cfg, s, now).tl;
            && (ColLegal(cfg, p.cols, t, bg, write, active) <==> ColLegal(cfg, s.tl.cols, t, bg, write, active))
            && (ActLegal(cfg, p.acts, t, bg) <==> ActLegal(cfg, s.tl.acts, t, bg))
  {
    PrunedCols(cfg, s.tl.cols, now, t, bg, write, active);
    PrunedActs(cfg, s.tl.acts, now, t, bg);
  }

  lemma {:induction false} PrunedCols(cfg: Config, cols: seq<Command>, now: int, t: int, bg: int, write: bool,
                                      active: bool)
    requires cfg.Ok() && Sorted(cols) && now - 2 <= t
    ensures ColLegal(cfg, PruneCalendar(cols, now - (cfg.MaxColGap() + 1)), t, bg, write, active)
            <==> ColLegal(cfg, cols, t, bg, write, active)
  {
    var k := LowerIndex(cols, now - (cfg.MaxColGap() + 1));
    forall i | 0 <= i < k ensures ColClear(cfg, cols[i], t, bg, write, active) {
      GapBounds(cfg, cols[i].write, cols[i].bankGroup, write, bg);
    }
    forall i | k <= i < |cols| ensures cols[k..][i - k] == cols[i] {
    }
    if ColLegal(cfg, cols[k..], t, bg, write, active) {
      forall i | 0 <= i < |cols| ensures ColClear(cfg, cols[i], t, bg, write, active) {
        assert k <= i ==> ColClear(cfg, cols[k..][i - k], t, bg, write, active);
      }
    }
  }

  lemma {:induction false} PrunedActs(cfg: Config, acts: seq<Command>, now: int, t: int, bg: int)
    requires cfg.Ok() && Sorted(acts) && now - 2 <= t
    ensures ActLegal(cfg, PruneCalendar(acts, now - (cfg.MaxActGap() + 1)), t, bg) <==> ActLegal(cfg, acts, t, bg)
  {
    var k := LowerIndex(acts, now - (cfg.MaxActGap() + 1));
    forall i | 0 <= i < k ensures ActClear(cfg, acts[i], t, bg) {
      GapBounds(cfg, false, acts[i].bankGroup, false, bg);
    }
    if ActLegal(cfg, acts[k..], t, bg) {
      forall i | 0 <= i < |acts| ensures ActClear(cfg, acts[i], t, bg) {
        assert k <= i ==> ActClear(cfg, acts[k..][i - k], t, bg);
      }
    }
  }

  /** Pruning the calendar at `now` does not decide whether an ACT at t is legal. */
  predicate Unaffected(cfg: Config, acts: seq<Command>, now: int, t: int, bg: int) {
    ActLegal(cfg, PruneCalendar(acts, now - (cfg.MaxActGap() + 1)), t, bg) <==> ActLegal(cfg, acts, t, bg)
  }

  /** An ACT that stands in the way and is pruned. */
  lemma {:induction false} PrunedConflict(cfg: Config, now: int, t: int, bg: int) returns (acts: seq<Command>)
    requires cfg.Ok() && 0 < cfg.MaxActGap() && t < now - 2
    ensures Sorted(acts) && !Unaffected(cfg, acts, now, t, bg)
  {
    var at := Min(t, now - cfg.MaxActGap() - 2);
    acts := [Command(at, if cfg.tRRDS <= cfg.tRRDL then bg else bg + 1, false, 0, false)];
    assert !ActClear(cfg, acts[0], t, bg);
    LowerUnique(acts, now - (cfg.MaxActGap() + 1), 1);
    assert acts[1..] == [];
  }

  /** The bound is exact: before it some calendar loses an ACT that stood in the way. The replay issues
      commands of any time before the admission, so it does meet such calendars. */
  lemma {:induction false} PruneExact(cfg: Config, now: int, t: int, bg: int)
    requires cfg.Ok() && 0 < cfg.MaxActGap()
    ensures (forall acts :: Sorted(acts) ==> Unaffected(cfg, acts, now, t, bg)) <==> now - 2 <= t
  {
    hide Sorted, ActLegal, PruneCalendar;
    if now - 2 <= t {
      forall acts | Sorted(acts) ensures Unaffected(cfg, acts, now, t, bg) {
        PrunedActs(cfg, acts, now, t, bg);
      }
    } else {
      var acts := PrunedConflict(cfg, now, t, bg);
    }
  }
}
