/** What the answers of the reservation model mean: the replay leaves nothing that is due, and a read's
    completion is that of an RD on the calendar. */
module OpusAnswers {
  import opened Basics
  import opened OpusTypes
  import opened OpusCalendar
  import opened OpusSlots
  import opened OpusSlip
  import opened OpusBanks
  import opened OpusTimeline
  import opened OpusTimelineProofs
  import opened OpusPolicy

  // ----- The replay is complete -----

  /** Nothing is left to issue before `until`: no write is buffered, or the read queue empties or the
      oldest write arrives too late for write mode to begin, or write mode is on, still wanted, and no
      buffered write's first command comes before `until`. */
  ghost predicate NothingDue(cfg: Config, r: State, until: int, pending: nat)
    requires BufferOk(r.wq, |r.tl.banks|)
  {
    || r.wq == []
    || (!r.writeMode && until <= Max(r.tl.readHorizon, r.wq[0].arrive) + 1)
    || (&& r.writeMode
        && !(r.forced && |r.wq| + pending < cfg.wqLow && r.forcedAt < r.tl.readHorizon)
        && forall i :: 0 <= i < |r.wq| ==> until <= PlanWrite(cfg, r.tl, r.wq[i], r.hitTime, r.drainStart).first)
  }

  /** With the earliest write's first command not before `until`, nothing is due. */
  lemma {:induction false} EarliestNotDue(cfg: Config, e: State, until: int, pending: nat)
    requires StateOk(cfg, e) && e.wq != [] && e.writeMode
    requires !ForcedOver(cfg, e, pending) && until <= Best(cfg, e).first
    ensures NothingDue(cfg, e, until, pending)
  {
    hide PlanWrite, Pick, TimelineOk;
    PickIsEarliest(cfg, e, e.drainStart, |e.wq|);
    forall i | 0 <= i < |e.wq| ensures until <= PlanWrite(cfg, e.tl, e.wq[i], e.hitTime, e.drainStart).first {
      assert Plan(cfg, e, i, e.drainStart) == PlanWrite(cfg, e.tl, e.wq[i], e.hitTime, e.drainStart);
    }
  }

  lemma {:induction false} NotEnteredNotDue(cfg: Config, s: State, until: int, pending: nat)
    requires BufferOk(s.wq, |s.tl.banks|) && (s.wq != [] ==> !s.writeMode && until <= EntryTime(s))
    ensures NothingDue(cfg, s, until, pending) && NothingDue(cfg, Leave(s), until, pending)
  {
  }

  /** The replay issues everything that is due. */
  lemma {:induction false} AdvanceIssuesAllDue(cfg: Config, s: State, until: int, pending: nat)
    requires cfg.Ok() && StateOk(cfg, s)
    ensures NothingDue(cfg, Advance(cfg, s, until, pending), until, pending)
    decreases |s.wq|, OpenRows(s.tl.banks), s.forced
  {
    hide NothingDue, Best, Next, ColumnsOk, ActsOk, BankOk;
    if s.wq == [] || (!s.writeMode && until <= EntryTime(s)) {
      NotEnteredNotDue(cfg, s, until, pending);
    } else {
      var e := Entered(s);
      if ForcedOver(cfg, e, pending) {
        AdvanceIssuesAllDue(cfg, Leave(e), until, pending);
      } else if until <= Best(cfg, e).first {
        EarliestNotDue(cfg, e, until, pending);
      } else {
        NextOk(cfg, e, until);
        AdvanceIssuesAllDue(cfg, Next(cfg, e, until), until, pending);
      }
    }
  }

  /** Before an access is served everything issued before its cycle, or in it with same_cycle_writes,
      is on the calendars. */
  lemma {:induction false} CaughtUp(cfg: Config, s: State, q: Request)
    requires cfg.Ok() && StateOk(cfg, s) && cfg.modelWrites
    ensures NothingDue(cfg, CatchUp(cfg, s, q), if cfg.sameCycleWrites then q.now + 1 else q.now,
                       Capped(cfg, q.replayEstimate))
  {
    hide Advance, NothingDue, StateOk;
    PruneOk(cfg, s, q.now);
    AdvanceIssuesAllDue(cfg, Prune(cfg, s, q.now), Until(cfg, q.now), Capped(cfg, q.replayEstimate));
  }

  // ----- A read's RD -----

  /** A placed command stays where it was put: what slips is behind it. */
  lemma {:induction false} PlacedStays(cfg: Config, tl: Timeline, c: Command, active: bool)
    requires 0 <= c.bank < |tl.banks| && BanksKnown(tl.cols, |tl.banks|) && Sorted(tl.cols)
    ensures c in PlaceColumn(cfg, tl, c, active).cols
  {
    hide StableSort, Slipped, SlipLoop;
    var k := if active then LowerIndex(tl.cols, c.t) else UpperIndex(tl.cols, c.t);
    var s := InsertAt(tl.cols, k, c);
    assert s[k] == c;
    InsertKnown(tl.cols, k, c, |tl.banks|);
    if active || (!c.write && cfg.colSlip && cfg.colSqueeze != 0) {
      UpperAfterInsert(tl.cols, c);
      SlippedPlaces(cfg, s, k + 1);
      assert Slipped(cfg, s, k + 1)[..k + 1][k] == s[..k + 1][k];
      StableSortSorts(Slipped(cfg, s, k + 1));
    }
  }

  /** An extension moves only commands at or after the PRE it delays. */
  lemma {:induction false} ExtensionLeaves(cfg: Config, tl: Timeline, bank: nat, j: nat, c: Command)
    requires bank < |tl.banks| && j < |tl.banks[bank].windows| && c in tl.cols
    requires tl.banks[bank].windows[j].pre.At? ==> c.t < tl.banks[bank].windows[j].pre.cycle
    ensures c in ExtendWindow(cfg, tl, bank, j, c.t).cols
  {
    hide StableSort;
    var w := tl.banks[bank].windows[j];
    var delta := Extension(cfg, w, c.t);
    if delta != 0 {
      var i :| 0 <= i < |tl.cols| && tl.cols[i] == c;
      var s := Shifted(tl.cols, bank, w.pre.cycle, delta);
      assert s[i] == c;
      StableSortSorts(s);
    }
  }

  /** The RD of a booking, at the time the booking gives. */
  function ReadCommand(q: Request, t: int, leaves: bool): Command {
    Command(t, q.bankGroup, false, q.bank, leaves)
  }

  lemma {:induction false} BookedOnCalendar(cfg: Config, tl: Timeline, q: Request, earliest: int)
    requires cfg.Ok() && TimelineOk(cfg, tl) && q.bank < |tl.banks|
    ensures var p := PlanBook(cfg, tl, q.bank, q.bankGroup, q.row, false, earliest);
            ReadCommand(q, p.column, !p.opens)
              in ApplyBook(cfg, tl, q.bank, q.bankGroup, q.row, false, earliest).cols
  {
    var p := PlanBook(cfg, tl, q.bank, q.bankGroup, q.row, false, earliest);
    var h := WindowHit(cfg, tl.cols, tl.banks[q.bank], q.bankGroup, q.row, false, earliest);
    var c := ReadCommand(q, p.column, !p.opens);
    if h.HitAt? {
      HitOnCalendar(cfg, tl, q, earliest);
    } else {
      hide PlaceColumn;
      var o := if p.opens then OpenRow(cfg, tl, q.bank, q.bankGroup, q.row, p, true) else tl;
      var u := o.(banks := o.banks[q.bank := Used(cfg, o.banks[q.bank], false, p.column)]);
      PlacedStays(cfg, u, c, cfg.activeFirst && p.opens);
    }
  }

  lemma {:induction false} HitOnCalendar(cfg: Config, tl: Timeline, q: Request, earliest: int)
    requires cfg.Ok() && TimelineOk(cfg, tl) && q.bank < |tl.banks|
    requires WindowHit(cfg, tl.cols, tl.banks[q.bank], q.bankGroup, q.row, false, earliest).HitAt?
    ensures var p := PlanBook(cfg, tl, q.bank, q.bankGroup, q.row, false, earliest);
            ReadCommand(q, p.column, !p.opens)
              in ApplyBook(cfg, tl, q.bank, q.bankGroup, q.row, false, earliest).cols
  {
    hide PlaceColumn, ExtendWindow, FindHit;
    var b := tl.banks[q.bank];
    var h := WindowHit(cfg, tl.cols, b, q.bankGroup, q.row, false, earliest);
    var c := ReadCommand(q, h.column, true);
    PlacedStays(cfg, tl, c, false);
    PlaceColumnBanks(cfg, tl, c, false);
    var tl' := PlaceColumn(cfg, tl, c, false);
    ExtensionLeaves(cfg, tl', q.bank, h.index, c);
  }

  /** The calendar holds the RD of a read, at time t. */
  predicate HoldsRead(s: State, q: Request, t: int) {
    exists c :: c in s.tl.cols && !c.write && c.bank == q.bank && c.bankGroup == q.bankGroup && c.t == t
  }

  lemma {:induction false} StarvedOnCalendar(cfg: Config, o: State, q: Request, act: int)
    requires cfg.Ok() && StateOk(cfg, o) && q.bank < |o.tl.banks|
    ensures HoldsRead(StarvedState(cfg, o, q, act), q, StarvedSlot(cfg, o, q, act))
  {
    hide Starve, PlaceColumn, StateOk, ColSlot;
    var d := Starve(cfg, o, act, act + cfg.tRCD, q.bankGroup, q.nextRead);
    FinishOnCalendar(cfg, d, q, act + cfg.tRCD);
  }

  lemma {:induction false} FinishOnCalendar(cfg: Config, d: State, q: Request, ready: int)
    requires cfg.Ok() && StateOk(cfg, d) && q.bank < |d.tl.banks|
    ensures HoldsRead(FinishRead(cfg, d, q.bank, q.bankGroup, ready), q, ReadSlot(cfg, d, ready, q.bankGroup))
  {
    hide PlaceColumn, ColSlot;
    var rd := ReadSlot(cfg, d, ready, q.bankGroup);
    var c := ReadCommand(q, rd, false);
    var u := d.tl.(banks := d.tl.banks[q.bank := Used(cfg, d.tl.banks[q.bank], false, rd)]);
    PlacedStays(cfg, u, c, cfg.activeFirst);
  }

  lemma {:induction false} BookReadOnCalendar(cfg: Config, s: State, q: Request, earliest: int)
    requires cfg.Ok() && StateOk(cfg, s) && q.bank < |s.tl.banks|
    ensures var (r, b) := BookRead(cfg, s, q, earliest); HoldsRead(r, q, b.column)
  {
    hide PlanBook, ApplyBook, StarvedState, StarvedSlot, TimelineOk;
    var b := PlanBook(cfg, s.tl, q.bank, q.bankGroup, q.row, false, earliest);
    if Starves(cfg, s, b, q.nextRead) {
      OpenForReadOk(cfg, s, q, earliest);
      StarvedOnCalendar(cfg, OpenForRead(cfg, s, q, b), q, b.leave);
    } else {
      BookedOnCalendar(cfg, s.tl, q, earliest);
    }
  }

  /** What an answer means. A write is acknowledged; a read is answered from the buffer exactly when a
      write to its address is still buffered after the replay; any other read completes the read latency
      after an RD that is then on the calendar, for its bank. */
  ghost predicate Answered(cfg: Config, s: State, q: Request, r: State, done: int)
    requires cfg.Ok() && StateOk(cfg, s)
  {
    var a := CatchUp(cfg, s, q);
    if q.write then done == q.now + cfg.writeAck
    else if cfg.modelWrites && exists i :: 0 <= i < |a.wq| && a.wq[i].address == q.address
    then done == q.now + cfg.forwardLatency && r == a
    else HoldsRead(r, q, done - cfg.readLatency)
  }

  lemma {:induction false} PredictAnswers(cfg: Config, s: State, q: Request)
    requires cfg.Ok() && StateOk(cfg, s) && q.bank < |s.tl.banks|
    ensures var (r, done) := Predict(cfg, s, q); Answered(cfg, s, q, r, done)
  {
    hide Advance, EndWriteMode, BookRead, StateOk, CatchUp;
    var a := CatchUp(cfg, s, q);
    if !q.write && !(cfg.modelWrites && Forwarded(a, q.address)) {
      var (e, earliest) := EndWriteMode(cfg, a, q.now, q.drainEstimate);
      BookReadOnCalendar(cfg, e, q, earliest);
    }
  }

  /** Every answer of every run means that at its own admission. */
  lemma {:induction false} EveryAnswer(cfg: Config, n: nat, qs: seq<Request>, i: nat)
    requires cfg.Ok() && RequestsFor(qs, n) && i < |qs|
    ensures Answered(cfg, Run(cfg, n, qs[..i]), qs[i], Run(cfg, n, qs[..i + 1]), Completions(cfg, n, qs)[i])
  {
    hide Predict, StateOk, Answered, Run;
    PredictAnswers(cfg, Run(cfg, n, qs[..i]), qs[i]);
    RunStep(cfg, n, qs, i);
    CompletionsPrefix(cfg, n, qs, i + 1);
  }

  lemma {:induction false} CompletionsPrefix(cfg: Config, n: nat, qs: seq<Request>, k: nat)
    requires cfg.Ok() && RequestsFor(qs, n) && k <= |qs|
    ensures Completions(cfg, n, qs[..k]) == Completions(cfg, n, qs)[..k]
    decreases |qs| - k
  {
    hide Predict, Run, Completions, StateOk;
    if k == |qs| {
      assert qs[..k] == qs;
    } else {
      CompletionsPrefix(cfg, n, qs, k + 1);
      RunStep(cfg, n, qs, k);
    }
  }

  // ----- Bookings are as early as the bank and the calendars allow -----

  /** The earliest PRE of an open row: a limit set by a read or an ACT is waited out longer. */
  function PreLimit(cfg: Config, b: Bank): int {
    b.preOk + (if b.preAfterWrite then 0 else cfg.preWait)
  }

  /** t is the least time from lo on that is legal for the command. */
  ghost predicate LeastColumn(cfg: Config, cols: seq<Command>, bg: int, write: bool, active: bool, lo: int, t: int) {
    && lo <= t && ColLegal(cfg, cols, t, bg, write, active)
    && forall x :: lo <= x < t ==> !ColLegal(cfg, cols, x, bg, write, active)
  }

  ghost predicate LeastAct(cfg: Config, acts: seq<Command>, bg: int, lo: int, t: int) {
    lo <= t && ActLegal(cfg, acts, t, bg) && forall x :: lo <= x < t ==> !ActLegal(cfg, acts, x, bg)
  }

  /** An access that hits no earlier window: an open row's column command is the least legal one the bank
      allows; otherwise PRE, ACT and column command each come as early as the one before, the bank and
      the calendars allow. */
  lemma {:induction false} BookedAsEarlyAsPossible(cfg: Config, tl: Timeline, bank: nat, bg: int, row: int,
                                                   write: bool, earliest: int)
    requires cfg.Ok() && bank < |tl.banks|
    requires WindowHit(cfg, tl.cols, tl.banks[bank], bg, row, write, earliest).NoHit?
    ensures var p, b := PlanBook(cfg, tl, bank, bg, row, write, earliest), tl.banks[bank];
            if b.row == row then
              && !p.opens && p.first == p.leave == p.column
              && LeastColumn(cfg, tl.cols, bg, write, false, Max(earliest, b.colOk), p.column)
            else
              && p.opens
              && LeastColumn(cfg, tl.cols, bg, write, cfg.activeFirst && !write, p.leave + cfg.tRCD, p.column)
              && (if b.row < 0 then p.first == p.leave && LeastAct(cfg, tl.acts, bg, Max(earliest, b.actOk), p.leave)
                  else
                    var ready := Max(Max(earliest, b.actOk), p.first + cfg.tRP + cfg.rpAdjust);
                    p.first == Max(earliest, PreLimit(cfg, b)) && LeastAct(cfg, tl.acts, bg, ready, p.leave))
  {
    hide WindowHit, ColSlot, ActSlot;
    var b := tl.banks[bank];
    var p := PlanBook(cfg, tl, bank, bg, row, write, earliest);
    ColSlotIsLeast(cfg, tl.cols, if p.opens then p.leave + cfg.tRCD else Max(earliest, b.colOk), bg, write,
                   cfg.activeFirst && p.opens && !write);
    if p.opens {
      var ready := Max(earliest, b.actOk);
      var pre := Max(earliest, PreLimit(cfg, b));
      ActSlotIsLeast(cfg, tl.acts, if 0 <= b.row then Max(ready, pre + cfg.tRP + cfg.rpAdjust) else ready, bg);
    }
  }

  /** Window j is the one an access may still use: of its row, open when it can issue, with only open
      windows of other rows after it, and with a free slot before its PRE. */
  ghost predicate Usable(cfg: Config, cols: seq<Command>, ws: seq<Window>, n: nat, bg: int, row: int, write: bool,
                         earliest: int, j: nat, t: int)
    requires n <= |ws|
  {
    && j < n && ws[j].row == row && !ClosedBy(ws[j], earliest)
    && (forall i :: j < i < n ==> ws[i].row != row && !ClosedBy(ws[i], earliest))
    && LeastColumn(cfg, cols, bg, write, false, Max(earliest, ws[j].act + cfg.tRCD), t) && !ClosedBy(ws[j], t)
  }

  /** The search finds a window exactly when there is one to use, and then that one and its slot. */
  lemma {:induction false} HitIsUsable(cfg: Config, cols: seq<Command>, ws: seq<Window>, n: nat, bg: int, row: int,
                                       write: bool, earliest: int, j: nat, t: int)
    requires cfg.Ok() && n <= |ws|
    ensures FindHit(cfg, cols, ws, n, bg, row, write, earliest) == HitAt(j, t)
            <==> Usable(cfg, cols, ws, n, bg, row, write, earliest, j, t)
  {
    hide ColSlot;
    if n != 0 && !ClosedBy(ws[n - 1], earliest) {
      if ws[n - 1].row != row {
        HitIsUsable(cfg, cols, ws, n - 1, bg, row, write, earliest, j, t);
      } else {
        ColSlotIsLeast(cfg, cols, Max(earliest, ws[n - 1].act + cfg.tRCD), bg, write, false);
      }
    }
  }

  /** A read hit holds its window open for tRTP and the observed wait, no longer; a PRE of write mode does
      not wait under hit_extend 2. Later windows keep their distance from it. */
  lemma {:induction false} ExtensionExact(cfg: Config, tl: Timeline, bank: nat, j: nat, col: int)
    requires bank < |tl.banks| && j < |tl.banks[bank].windows| && tl.banks[bank].windows[j].pre.At?
    ensures var ws, ws' := tl.banks[bank].windows, ExtendWindow(cfg, tl, bank, j, col).banks[bank].windows;
            var pre := if cfg.hitExtend == 2 && ws[j].writeClose then ws[j].pre.cycle
                       else Max(ws[j].pre.cycle, col + cfg.tRTP + cfg.preWait);
            && |ws'| == |ws| && ws'[j].pre == At(pre) && ws'[j].act == ws[j].act
            && (forall k :: 0 <= k < j ==> ws'[k] == ws[k])
            && (forall k :: j < k < |ws| ==> ws'[k].act - pre == ws[k].act - ws[j].pre.cycle)
  {
    hide StableSort, Shifted, Raised;
  }

  // ----- A read that finds write mode on -----

  /** A read that drains the buffer starts after the last drained write has left it, earlier by the
      shift of a swapped drain when it joins that drain, and otherwise in the next cycle. */
  lemma {:induction false} ReadWaitsForDrain(cfg: Config, s: State, now: int, estimate: nat)
    requires cfg.Ok() && StateOk(cfg, s) && s.writeMode
    ensures var (r, earliest) := EndWriteMode(cfg, s, now, estimate);
            var shift := if cfg.drainJoin && s.forced then Max(0, s.drainStart - s.forcedAt - 1) else 0;
            && s.booked <= r.booked && now < earliest
            && (forall i :: |s.booked| <= i < |r.booked| ==> r.booked[i].plan.leave < earliest + shift)
            && (earliest == now + 1
                || exists i :: |s.booked| <= i < |r.booked| && earliest + shift == r.booked[i].plan.leave + 1)
  {
    hide DrainDown, StateOk;
    var expected := if s.forced || cfg.wqLow <= |s.wq| then Capped(cfg, estimate) else 0;
    var d := DrainDown(cfg, s, expected);
    LatestIsLatest(d.booked, |s.booked|, now);
    if !StillAbove(cfg, s, expected) {
      DrainBooksNothing(cfg, s, expected);
    }
  }

  lemma {:induction false} DrainBooksNothing(cfg: Config, s: State, expected: nat)
    requires cfg.Ok() && StateOk(cfg, s) && !StillAbove(cfg, s, expected)
    ensures DrainDown(cfg, s, expected) == s
  {
  }

  lemma {:induction false} LatestIsLatest(booked: seq<BookedWrite>, k: nat, floor: int)
    requires k <= |booked|
    ensures var t := LatestLeave(booked, k, floor);
            && floor <= t && (forall i :: k <= i < |booked| ==> booked[i].plan.leave <= t)
            && (t == floor || exists i :: k <= i < |booked| && t == booked[i].plan.leave)
    decreases |booked|
  {
    if k < |booked| {
      LatestIsLatest(booked[..|booked| - 1], k, floor);
    }
  }

  /** While a booked drain is under way, a read admitted outside write mode waits for it too. */
  lemma {:induction false} ReadWaitsForBookedDrain(cfg: Config, s: State, now: int, estimate: nat)
    requires cfg.Ok() && StateOk(cfg, s) && !s.writeMode
    ensures var (r, earliest) := EndWriteMode(cfg, s, now, estimate);
            && r == s
            && (if 1 <= cfg.drainBlock && now <= s.drainExit && !(cfg.drainJoin && s.drainExit - s.drainShift <= now)
                then earliest == s.drainExit + 1 - (if cfg.drainJoin then s.drainShift else 0)
                else earliest == now + 1)
  {
  }
}
