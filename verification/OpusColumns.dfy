/** Where column commands fall in their bank: over every run each live RD or WR is inside one of the
    bank's row windows, tRCD after its ACT and its recovery time before its PRE. */
module OpusColumns {
  import opened Basics
  import opened OpusTypes
  import opened OpusCalendar
  import opened OpusSlots
  import opened OpusBanks
  import opened OpusTimeline
  import opened OpusTimelineProofs
  import opened OpusPolicy

  /** Settings under which no booked column command moves on its own, and recoveries take time. */
  predicate Steady(cfg: Config) {
    && cfg.Ok() && (!cfg.colSlip || cfg.colSqueeze == 0) && !cfg.activeFirst && !cfg.triggerHits
    && 1 <= cfg.tRTP && 1 <= cfg.tCWL + cfg.tBL + cfg.tWR
  }

  /** How long after a column command its bank may be precharged. */
  function Recovery(cfg: Config, write: bool): int {
    if write then cfg.tCWL + cfg.tBL + cfg.tWR else cfg.tRTP
  }

  /** A read booked into window w after its PRE keeps it open for the recovery. */
  predicate Guarded(cfg: Config, w: Window) {
    !cfg.hitWindows || (0 < cfg.hitExtend && !(cfg.hitExtend == 2 && w.writeClose))
  }

  /** What is kept between a column command and the PRE of its window: the whole recovery, or one cycle
      when later hits may be booked into the window without holding it open. */
  function Margin(cfg: Config, w: Window, write: bool): int {
    if (if write then !cfg.hitWindows else Guarded(cfg, w)) then Recovery(cfg, write) else 1
  }

  /** Column command c falls in window i of its bank. */
  predicate Inside(cfg: Config, b: Bank, c: Command, i: int)
    requires 0 <= i < |b.windows|
  {
    var w := b.windows[i];
    && w.act + cfg.tRCD <= c.t
    && (if w.pre.At? then c.t + Margin(cfg, w, c.write) <= w.pre.cycle else c.t + Recovery(cfg, c.write) <= b.preOk)
  }

  /** It falls in some window, or before the eight that are remembered. */
  ghost predicate Located(cfg: Config, b: Bank, c: Command) {
    (|b.windows| == 8 && c.t < b.windows[0].act) || exists i :: 0 <= i < |b.windows| && Inside(cfg, b, c, i)
  }

  ghost predicate AllLocated(cfg: Config, banks: seq<Bank>, cols: seq<Command>) {
    forall c :: c in cols ==> 0 <= c.bank < |banks| && Located(cfg, banks[c.bank], c)
  }

  // ----- One bank -----

  lemma {:induction false} OpenedLocated(cfg: Config, b: Bank, row: int, plan: Booking, read: bool, c: Command)
    requires Steady(cfg) && BankOk(cfg, b) && Located(cfg, b, c) && b.actOk <= plan.leave
    requires 0 <= b.row ==> b.preOk <= plan.first && plan.first + cfg.tRP + cfg.rpAdjust <= plan.leave
    ensures Located(cfg, Opened(cfg, b, row, plan, read), c)
  {
    var r := Opened(cfg, b, row, plan, read);
    var n := |b.windows|;
    if i :| 0 <= i < n && Inside(cfg, b, c, i) {
      assert i < n - 1 ==> Follows(cfg, b.windows[i], b.windows[i + 1]);
      if n < 8 {
        assert Inside(cfg, r, c, i);
      } else if 0 < i {
        assert Inside(cfg, r, c, i - 1);
      }
    } else {
      assert Follows(cfg, b.windows[0], b.windows[1]);
    }
  }

  lemma {:induction false} PrechargedLocated(cfg: Config, b: Bank, pre: int, c: Command)
    requires Steady(cfg) && BankOk(cfg, b) && Located(cfg, b, c) && 0 <= b.row && b.preOk <= pre
    ensures Located(cfg, Precharged(cfg, b, pre), c)
  {
    if i :| 0 <= i < |b.windows| && Inside(cfg, b, c, i) {
      assert i < |b.windows| - 1 ==> Follows(cfg, b.windows[i], b.windows[i + 1]);
      assert Inside(cfg, Precharged(cfg, b, pre), c, i);
    }
  }

  lemma {:induction false} UsedLocated(cfg: Config, b: Bank, write: bool, col: int, c: Command)
    requires Located(cfg, b, c)
    ensures Located(cfg, Used(cfg, b, write, col), c)
  {
    if i :| 0 <= i < |b.windows| && Inside(cfg, b, c, i) {
      assert Inside(cfg, Used(cfg, b, write, col), c, i);
    }
  }

  /** A column command on the open row. */
  lemma {:induction false} NewLocated(cfg: Config, b: Bank, c: Command)
    requires BankOk(cfg, b) && 0 <= b.row && Last(b.windows).act + cfg.tRCD <= c.t
    ensures Located(cfg, Used(cfg, b, c.write, c.t), c)
  {
    assert Inside(cfg, Used(cfg, b, c.write, c.t), c, |b.windows| - 1);
  }

  function Moved(c: Command, from: int, delta: int): Command {
    c.(t := ShiftFrom(c.t, from, delta))
  }

  lemma {:induction false} WindowOrder(cfg: Config, ws: seq<Window>, i: nat, j: nat)
    requires cfg.Ok() && WindowsOk(cfg, ws) && i <= j < |ws| && ws[j].pre.At? && ClosedLegally(cfg, ws[j])
    ensures ws[i].act <= ws[j].pre.cycle && ws[i].pre.At? && ws[i].pre.cycle <= ws[j].pre.cycle
  {
    if i < j {
      LaterActs(cfg, ws, i, j);
      assert Follows(cfg, ws[i], ws[i + 1]);
    }
  }

  lemma {:induction false} ClosedIsLegal(cfg: Config, b: Bank, j: nat)
    requires BankOk(cfg, b) && j < |b.windows| && b.windows[j].pre.At?
    ensures ClosedLegally(cfg, b.windows[j])
  {
    if j < |b.windows| - 1 {
      assert Follows(cfg, b.windows[j], b.windows[j + 1]);
    }
  }

  /** A window extension moves each column command with its window. */
  lemma {:induction false} ExtendedLocated(cfg: Config, b: Bank, j: nat, delta: int, c: Command)
    requires Steady(cfg) && BankOk(cfg, b) && j < |b.windows| && b.windows[j].pre.At? && 0 <= delta
    requires Located(cfg, b, c)
    ensures Located(cfg, Extended(b, j, delta), Moved(c, b.windows[j].pre.cycle, delta))
  {
    var r, from := Extended(b, j, delta), b.windows[j].pre.cycle;
    ClosedIsLegal(cfg, b, j);
    WindowOrder(cfg, b.windows, 0, j);
    if i :| 0 <= i < |b.windows| && Inside(cfg, b, c, i) {
      if i <= j {
        WindowOrder(cfg, b.windows, i, j);
      } else {
        LaterActs(cfg, b.windows, j, i);
      }
      assert Inside(cfg, r, Moved(c, from, delta), i);
    }
  }

  /** A hit read held its window open. */
  lemma {:induction false} HitLocated(cfg: Config, b: Bank, c: Command, j: nat)
    requires Steady(cfg) && BankOk(cfg, b) && j < |b.windows| && b.windows[j].pre.At?
    requires b.windows[j].act + cfg.tRCD <= c.t < b.windows[j].pre.cycle && cfg.hitWindows
    ensures c.write || cfg.hitExtend <= 0 ==> Located(cfg, b, c)
    ensures var delta := Extension(cfg, b.windows[j], c.t);
            !c.write && 0 < cfg.hitExtend ==>
              Located(cfg, if delta == 0 then b else Extended(b, j, delta), c)
  {
    if c.write || cfg.hitExtend <= 0 {
      assert Inside(cfg, b, c, j);
    } else {
      var delta := Extension(cfg, b.windows[j], c.t);
      var r := if delta == 0 then b else Extended(b, j, delta);
      assert Inside(cfg, r, c, j);
    }
  }

  // ----- The timeline -----

  /** A change to one bank that keeps its own columns located keeps all of them. */
  lemma {:induction false} OneBank(cfg: Config, banks: seq<Bank>, cols: seq<Command>, k: nat, b: Bank)
    requires AllLocated(cfg, banks, cols) && k < |banks|
    requires forall c :: c in cols && c.bank == k ==> Located(cfg, b, c)
    ensures AllLocated(cfg, banks[k := b], cols)
  {
  }

  lemma {:induction false} PlaceIsInsert(cfg: Config, tl: Timeline, c: Command)
    requires Steady(cfg) && 0 <= c.bank < |tl.banks| && BanksKnown(tl.cols, |tl.banks|)
    ensures PlaceColumn(cfg, tl, c, false) == tl.(cols := Insert(tl.cols, c))
  {
  }

  lemma {:induction false} InsertLocated(cfg: Config, banks: seq<Bank>, cols: seq<Command>, c: Command)
    requires AllLocated(cfg, banks, cols) && 0 <= c.bank < |banks| && Located(cfg, banks[c.bank], c)
    ensures AllLocated(cfg, banks, Insert(cols, c))
  {
    hide Located;
    InsertMembers(cols, UpperIndex(cols, c.t), c);
  }

  lemma {:induction false} OpenRowLocated(cfg: Config, tl: Timeline, bank: nat, bg: int, row: int, earliest: int,
                                          read: bool)
    requires Steady(cfg) && TimelineOk(cfg, tl) && bank < |tl.banks| && 0 <= row && tl.banks[bank].row != row
    requires AllLocated(cfg, tl.banks, tl.cols)
    ensures var r := OpenRow(cfg, tl, bank, bg, row, PlanOpen(cfg, tl.acts, tl.banks[bank], bg, row, earliest), read);
            AllLocated(cfg, r.banks, r.cols)
  {
    hide Located, PlanOpen, Opened;
    var b := tl.banks[bank];
    var p := PlanOpen(cfg, tl.acts, b, bg, row, earliest);
    PlanOpenLegal(cfg, tl.acts, b, bg, row, earliest);
    forall c | c in tl.cols && c.bank == bank ensures Located(cfg, Opened(cfg, b, row, p, read), c) {
      OpenedLocated(cfg, b, row, p, read, c);
    }
    OneBank(cfg, tl.banks, tl.cols, bank, Opened(cfg, b, row, p, read));
  }

  lemma {:induction false} FinishColumnLocated(cfg: Config, tl: Timeline, bank: nat, bg: int, write: bool, col: int,
                                               leaves: bool)
    requires Steady(cfg) && TimelineOk(cfg, tl) && bank < |tl.banks| && AllLocated(cfg, tl.banks, tl.cols)
    requires 0 <= tl.banks[bank].row && Last(tl.banks[bank].windows).act + cfg.tRCD <= col
    ensures var r := FinishColumn(cfg, tl, bank, bg, write, col, leaves, false);
            AllLocated(cfg, r.banks, r.cols)
  {
    hide Located, Used;
    var u := Used(cfg, tl.banks[bank], write, col);
    var c := Command(col, bg, write, bank, leaves && !write);
    forall d | d in tl.cols && d.bank == bank ensures Located(cfg, u, d) {
      UsedLocated(cfg, tl.banks[bank], write, col, d);
    }
    OneBank(cfg, tl.banks, tl.cols, bank, u);
    NewLocated(cfg, tl.banks[bank], c);
    InsertLocated(cfg, tl.banks[bank := u], tl.cols, c);
    PlaceIsInsert(cfg, tl.(banks := tl.banks[bank := u]), c);
  }

  lemma {:induction false} ShiftedMembers(cols: seq<Command>, bank: int, from: int, delta: int, c: Command)
    requires c in StableSort(Shifted(cols, bank, from, delta))
    ensures exists d :: d in cols && d.bank == c.bank && c == (if d.bank == bank then Moved(d, from, delta) else d)
  {
    var s := Shifted(cols, bank, from, delta);
    StableSortSorts(s);
    var i :| 0 <= i < |s| && s[i] == c;
    assert cols[i] in cols;
  }

  /** A read hit that extends its window. */
  lemma {:induction false} ExtendLocated(cfg: Config, tl: Timeline, cols: seq<Command>, c: Command, bank: nat, j: nat)
    requires Steady(cfg) && BanksOk(cfg, tl.banks) && bank < |tl.banks| && c.bank == bank && !c.write
    requires j < |tl.banks[bank].windows| && tl.banks[bank].windows[j].pre.At? && cfg.hitWindows && 0 < cfg.hitExtend
    requires tl.banks[bank].windows[j].act + cfg.tRCD <= c.t < tl.banks[bank].windows[j].pre.cycle
    requires AllLocated(cfg, tl.banks, cols) && tl.cols == Insert(cols, c)
    ensures var r := ExtendWindow(cfg, tl, bank, j, c.t); AllLocated(cfg, r.banks, r.cols)
  {
    hide Located, StableSort, Shifted, Extended, BankOk;
    var b := tl.banks[bank];
    var delta := Extension(cfg, b.windows[j], c.t);
    InsertMembers(cols, UpperIndex(cols, c.t), c);
    HitLocated(cfg, b, c, j);
    if delta != 0 {
      var r := ExtendWindow(cfg, tl, bank, j, c.t);
      var from := b.windows[j].pre.cycle;
      forall x | x in r.cols ensures 0 <= x.bank < |r.banks| && Located(cfg, r.banks[x.bank], x) {
        ShiftedMembers(tl.cols, bank, from, delta, x);
        var d :| d in tl.cols && d.bank == x.bank && x == (if d.bank == bank then Moved(d, from, delta) else d);
        if d.bank == bank && d != c {
          ExtendedLocated(cfg, b, j, delta, d);
        }
      }
    }
  }

  /** A booked access keeps every column command inside its bank's windows. */
  lemma {:induction false} ApplyBookLocated(cfg: Config, tl: Timeline, bank: nat, bg: int, row: int, write: bool,
                                            earliest: int)
    requires Steady(cfg) && TimelineOk(cfg, tl) && bank < |tl.banks| && 0 <= row
    requires AllLocated(cfg, tl.banks, tl.cols)
    ensures var r := ApplyBook(cfg, tl, bank, bg, row, write, earliest); AllLocated(cfg, r.banks, r.cols)
  {
    if WindowHit(cfg, tl.cols, tl.banks[bank], bg, row, write, earliest).HitAt? {
      HitBookLocated(cfg, tl, bank, bg, row, write, earliest);
    } else {
      OpenBookLocated(cfg, tl, bank, bg, row, write, earliest);
    }
  }

  lemma {:induction false} HitBookLocated(cfg: Config, tl: Timeline, bank: nat, bg: int, row: int, write: bool,
                                          earliest: int)
    requires Steady(cfg) && TimelineOk(cfg, tl) && bank < |tl.banks|
    requires AllLocated(cfg, tl.banks, tl.cols)
    requires WindowHit(cfg, tl.cols, tl.banks[bank], bg, row, write, earliest).HitAt?
    ensures var r := ApplyBook(cfg, tl, bank, bg, row, write, earliest); AllLocated(cfg, r.banks, r.cols)
  {
    hide Located, ExtendWindow, PlaceColumn, FindHit;
    var b := tl.banks[bank];
    var h := WindowHit(cfg, tl.cols, b, bg, row, write, earliest);
    FindHitIssuesInWindow(cfg, tl.cols, b.windows, |b.windows|, bg, row, write, earliest);
    var c := Command(h.column, bg, write, bank, !write);
    PlaceIsInsert(cfg, tl, c);
    HitIsClosed(cfg, b, h.index);
    HitLocated(cfg, b, c, h.index);
    if !write && 0 < cfg.hitExtend {
      ExtendLocated(cfg, tl.(cols := Insert(tl.cols, c)), tl.cols, c, bank, h.index);
    } else {
      InsertLocated(cfg, tl.banks, tl.cols, c);
    }
  }

  lemma {:induction false} HitIsClosed(cfg: Config, b: Bank, j: nat)
    requires BankOk(cfg, b) && j < |b.windows| && b.windows[j].row != b.row
    ensures b.windows[j].pre.At?
  {
    if j < |b.windows| - 1 {
      assert Follows(cfg, b.windows[j], b.windows[j + 1]);
    }
  }

  lemma {:induction false} OpenBookLocated(cfg: Config, tl: Timeline, bank: nat, bg: int, row: int, write: bool,
                                           earliest: int)
    requires Steady(cfg) && TimelineOk(cfg, tl) && bank < |tl.banks| && 0 <= row
    requires AllLocated(cfg, tl.banks, tl.cols)
    requires WindowHit(cfg, tl.cols, tl.banks[bank], bg, row, write, earliest).NoHit?
    ensures var r := ApplyBook(cfg, tl, bank, bg, row, write, earliest); AllLocated(cfg, r.banks, r.cols)
  {
    hide Located, FinishColumn, OpenRow, PlanOpen;
    var p := PlanBook(cfg, tl, bank, bg, row, write, earliest);
    PlanColumnLegal(cfg, tl, bank, bg, row, write, earliest);
    PlanBookOrder(cfg, tl, bank, bg, row, write, earliest);
    var o := OpenedFor(cfg, tl, bank, bg, row, write, earliest);
    OpenedForOk(cfg, tl, bank, bg, row, write, earliest);
    FinishColumnLocated(cfg, o, bank, bg, write, p.column, !p.opens);
  }

  /** The timeline once the row of an access is open. */
  ghost function OpenedFor(cfg: Config, tl: Timeline, bank: nat, bg: int, row: int, write: bool,
                           earliest: int): Timeline
    requires bank < |tl.banks|
  {
    var p := PlanBook(cfg, tl, bank, bg, row, write, earliest);
    if p.opens then OpenRow(cfg, tl, bank, bg, row, p, !write) else tl
  }

  lemma {:induction false} OpenedForOk(cfg: Config, tl: Timeline, bank: nat, bg: int, row: int, write: bool,
                                       earliest: int)
    requires Steady(cfg) && TimelineOk(cfg, tl) && bank < |tl.banks| && 0 <= row
    requires AllLocated(cfg, tl.banks, tl.cols)
    requires WindowHit(cfg, tl.cols, tl.banks[bank], bg, row, write, earliest).NoHit?
    ensures var o := OpenedFor(cfg, tl, bank, bg, row, write, earliest);
            && TimelineOk(cfg, o) && |o.banks| == |tl.banks| && AllLocated(cfg, o.banks, o.cols)
            && o.banks[bank].row == row
            && Last(o.banks[bank].windows).act + cfg.tRCD <= PlanBook(cfg, tl, bank, bg, row, write, earliest).column
  {
    var p := PlanBook(cfg, tl, bank, bg, row, write, earliest);
    PlanColumnLegal(cfg, tl, bank, bg, row, write, earliest);
    if p.opens {
      OpenRowOk(cfg, tl, bank, bg, row, earliest, !write);
      OpenRowLocated(cfg, tl, bank, bg, row, earliest, !write);
      PlanBookOrder(cfg, tl, bank, bg, row, write, earliest);
      OpenedLast(cfg, tl.banks[bank], row, p, !write);
    } else {
      ColSlotIsLeast(cfg, tl.cols, Max(earliest, tl.banks[bank].colOk), bg, write, false);
    }
  }

  lemma {:induction false} OpenedLast(cfg: Config, b: Bank, row: int, plan: Booking, read: bool)
    ensures var ws := Opened(cfg, b, row, plan, read).windows; ws != [] && Last(ws).act == plan.leave
  {
  }

  // ----- The policy -----

  /** Every live column command is inside its bank's windows, and no drain judges rows at its trigger. */
  ghost predicate Placed(cfg: Config, s: State) {
    AllLocated(cfg, s.tl.banks, s.tl.cols) && s.hitTime < 0
  }

  lemma {:induction false} CommitPlaced(cfg: Config, s: State, i: nat, from: int)
    requires Steady(cfg) && StateOk(cfg, s) && i < |s.wq| && Placed(cfg, s)
    ensures Placed(cfg, CommitWrite(cfg, s, i, from))
  {
    hide AllLocated, ApplyBook, PlanBook, TimelineOk;
    var w := s.wq[i];
    ApplyBookLocated(cfg, s.tl, w.bank, w.bankGroup, w.row, true, Max(from, w.arrive + 1));
  }

  lemma {:induction false} NextPlaced(cfg: Config, s: State, until: int)
    requires Steady(cfg) && StateOk(cfg, s) && s.wq != [] && Best(cfg, s).first < until && Placed(cfg, s)
    ensures Placed(cfg, Next(cfg, s, until))
  {
    hide CommitWrite, Pick, Located, PlanWrite;
    var i := Pick(cfg, s, s.drainStart, |s.wq|);
    if Best(cfg, s).leave < until {
      CommitPlaced(cfg, s, i, s.drainStart);
    } else {
      var k := s.wq[i].bank;
      PrechargeClosesRow(cfg, s.tl, s.wq[i], s.hitTime, s.drainStart);
      forall c | c in s.tl.cols && c.bank == k
        ensures Located(cfg, Precharged(cfg, s.tl.banks[k], Best(cfg, s).first), c)
      {
        PrechargedLocated(cfg, s.tl.banks[k], Best(cfg, s).first, c);
      }
      OneBank(cfg, s.tl.banks, s.tl.cols, k, Precharged(cfg, s.tl.banks[k], Best(cfg, s).first));
    }
  }

  lemma {:induction false} AdvancePlaced(cfg: Config, s: State, until: int, pending: nat)
    requires Steady(cfg) && StateOk(cfg, s) && Placed(cfg, s)
    ensures Placed(cfg, Advance(cfg, s, until, pending))
    decreases |s.wq|, OpenRows(s.tl.banks), s.forced
  {
    hide AllLocated, Best, Next, Steady;
    assert cfg.Ok() by { SteadyOk(cfg); }
    if s.wq != [] && (s.writeMode || EntryTime(s) < until) {
      var e := Entered(s);
      if ForcedOver(cfg, e, pending) {
        AdvancePlaced(cfg, Leave(e), until, pending);
      } else if Best(cfg, e).first < until {
        NextOk(cfg, e, until);
        NextPlaced(cfg, e, until);
        AdvancePlaced(cfg, Next(cfg, e, until), until, pending);
      }
    }
  }

  lemma {:induction false} SteadyOk(cfg: Config)
    requires Steady(cfg)
    ensures cfg.Ok()
  {
  }

  lemma {:induction false} DrainDownPlaced(cfg: Config, s: State, expected: nat)
    requires Steady(cfg) && StateOk(cfg, s) && Placed(cfg, s)
    ensures Placed(cfg, DrainDown(cfg, s, expected))
    decreases |s.wq|
  {
    hide AllLocated;
    if StillAbove(cfg, s, expected) {
      var i := Pick(cfg, s, s.drainStart, |s.wq|);
      CommitWriteOk(cfg, s, i, s.drainStart);
      CommitPlaced(cfg, s, i, s.drainStart);
      DrainDownPlaced(cfg, DrainOne(cfg, s, s.drainStart), expected);
    }
  }

  lemma {:induction false} EndWriteModePlaced(cfg: Config, s: State, now: int, estimate: nat)
    requires Steady(cfg) && StateOk(cfg, s) && Placed(cfg, s)
    ensures Placed(cfg, EndWriteMode(cfg, s, now, estimate).0)
  {
    hide DrainDown, StateOk, LatestLeave, AllLocated;
    if s.writeMode {
      DrainDownPlaced(cfg, s, if s.forced || cfg.wqLow <= |s.wq| then Capped(cfg, estimate) else 0);
    }
  }

  // ----- A read that lets writes pass after its ACT -----

  /** The read's bank has a row open whose ACT is tRCD before the read's slot. */
  ghost predicate RowReady(cfg: Config, s: State, bank: nat, bg: int, ready: int) {
    && bank < |s.tl.banks| && 0 <= s.tl.banks[bank].row && s.tl.banks[bank].windows != []
    && Last(s.tl.banks[bank].windows).act + cfg.tRCD <= ReadSlot(cfg, s, ready, bg)
  }

  /** More commands on the calendar only push a slot later. */
  lemma {:induction false} SlotMonotone(cfg: Config, cols: seq<Command>, c: Command, t: int, bg: int)
    requires cfg.Ok()
    ensures ColSlot(cfg, cols, t, bg, false, false) <= ColSlot(cfg, Insert(cols, c), t, bg, false, false)
  {
    hide ColSlot;
    ColSlotIsLeast(cfg, cols, t, bg, false, false);
    ColSlotIsLeast(cfg, Insert(cols, c), t, bg, false, false);
    var x := ColSlot(cfg, Insert(cols, c), t, bg, false, false);
    InsertMembers(cols, UpperIndex(cols, c.t), c);
    assert ColLegal(cfg, cols, x, bg, false, false) by {
      forall i | 0 <= i < |cols| ensures ColClear(cfg, cols[i], x, bg, false, false) {
        assert cols[i] in Insert(cols, c);
      }
    }
  }

  /** A write let pass before the read's slot keeps the bank's open row ready for the read. */
  lemma {:induction false} CommitKeepsReady(cfg: Config, s: State, i: nat, from: int, bank: nat, bg: int, ready: int)
    requires Steady(cfg) && StateOk(cfg, s) && i < |s.wq| && s.hitTime < 0 && RowReady(cfg, s, bank, bg, ready)
    requires Plan(cfg, s, i, from).column < ReadSlot(cfg, s, ready, bg)
    ensures RowReady(cfg, CommitWrite(cfg, s, i, from), bank, bg, ready)
  {
    hide ColSlot, PlanOpen, FindHit;
    var w := s.wq[i];
    var earliest := Max(from, w.arrive + 1);
    var p := PlanBook(cfg, s.tl, w.bank, w.bankGroup, w.row, true, earliest);
    PlanBookOrder(cfg, s.tl, w.bank, w.bankGroup, w.row, true, earliest);
    WriteEffect(cfg, s.tl, w.bank, w.bankGroup, w.row, earliest);
    SlotMonotone(cfg, s.tl.cols, Command(p.column, w.bankGroup, true, w.bank, false), ready, bg);
    OpenedLast(cfg, s.tl.banks[w.bank], w.row, p, false);
  }

  /** What booking a write does: its WR on the calendar, and its row opened if it was not. */
  lemma {:induction false} WriteEffect(cfg: Config, tl: Timeline, bank: nat, bg: int, row: int, earliest: int)
    requires Steady(cfg) && TimelineOk(cfg, tl) && bank < |tl.banks| && 0 <= row
    ensures var p := PlanBook(cfg, tl, bank, bg, row, true, earliest);
            var r := ApplyBook(cfg, tl, bank, bg, row, true, earliest);
            var o := if p.opens then Opened(cfg, tl.banks[bank], row, p, false) else tl.banks[bank];
            && r.cols == Insert(tl.cols, Command(p.column, bg, true, bank, false)) && |r.banks| == |tl.banks|
            && r.banks[bank].windows == o.windows && r.banks[bank].row == o.row
            && forall k :: 0 <= k < |tl.banks| && k != bank ==> r.banks[k] == tl.banks[k]
  {
    hide ColSlot, PlanOpen, FindHit, Opened;
  }

  lemma {:induction false} StarvePlaced(cfg: Config, s: State, act: int, ready: int, bank: nat, bg: int, nextRead: int)
    requires Steady(cfg) && StateOk(cfg, s) && Placed(cfg, s) && RowReady(cfg, s, bank, bg, ready)
    ensures var r := Starve(cfg, s, act, ready, bg, nextRead);
            Placed(cfg, r) && RowReady(cfg, r, bank, bg, ready)
    decreases |s.wq|
  {
    hide AllLocated, RowReady, Plan, ReadSlot;
    var i := Overlapping(cfg, s, act + 1, ReadSlot(cfg, s, ready, bg), nextRead, 0);
    if i < |s.wq| {
      OverlappingOverlaps(cfg, s, act + 1, ReadSlot(cfg, s, ready, bg), nextRead, 0);
      CommitWriteOk(cfg, s, i, act + 1);
      CommitPlaced(cfg, s, i, act + 1);
      CommitKeepsReady(cfg, s, i, act + 1, bank, bg, ready);
      StarvePlaced(cfg, CommitWrite(cfg, s, i, act + 1), act, ready, bank, bg, nextRead);
    }
  }

  lemma {:induction false} OverlappingOverlaps(cfg: Config, s: State, from: int, rd: int, nextRead: int, i: nat)
    requires i <= |s.wq| && BufferOk(s.wq, |s.tl.banks|)
    ensures var r := Overlapping(cfg, s, from, rd, nextRead, i);
            r < |s.wq| ==> Plan(cfg, s, r, from).column < rd
    decreases |s.wq| - i
  {
    if i < |s.wq| && !Overlaps(cfg, s, from, rd, nextRead, i) {
      OverlappingOverlaps(cfg, s, from, rd, nextRead, i + 1);
    }
  }

  lemma {:induction false} FinishReadPlaced(cfg: Config, d: State, bank: nat, bg: int, ready: int)
    requires Steady(cfg) && StateOk(cfg, d) && Placed(cfg, d) && RowReady(cfg, d, bank, bg, ready)
    ensures Placed(cfg, FinishRead(cfg, d, bank, bg, ready))
  {
    hide FinishColumn, ColSlot, AllLocated;
    FinishColumnLocated(cfg, d.tl, bank, bg, false, ReadSlot(cfg, d, ready, bg), false);
  }

  lemma {:induction false} StarvedPlaced(cfg: Config, o: State, q: Request, act: int)
    requires Steady(cfg) && StateOk(cfg, o) && q.bank < |o.tl.banks| && Placed(cfg, o)
    requires RowReady(cfg, o, q.bank, q.bankGroup, act + cfg.tRCD)
    ensures Placed(cfg, StarvedState(cfg, o, q, act))
  {
    hide Starve, FinishRead, StateOk, AllLocated, RowReady;
    var d := Starve(cfg, o, act, act + cfg.tRCD, q.bankGroup, q.nextRead);
    StarvePlaced(cfg, o, act, act + cfg.tRCD, q.bank, q.bankGroup, q.nextRead);
    FinishReadPlaced(cfg, d, q.bank, q.bankGroup, act + cfg.tRCD);
  }

  /** Opening a read's row leaves it ready for the read. */
  lemma {:induction false} OpenForReadPlaced(cfg: Config, s: State, q: Request, earliest: int)
    requires Steady(cfg) && StateOk(cfg, s) && q.bank < |s.tl.banks| && Placed(cfg, s)
    requires PlanBook(cfg, s.tl, q.bank, q.bankGroup, q.row, false, earliest).opens
    ensures var b := PlanBook(cfg, s.tl, q.bank, q.bankGroup, q.row, false, earliest);
            var o := OpenForRead(cfg, s, q, b);
            Placed(cfg, o) && RowReady(cfg, o, q.bank, q.bankGroup, b.leave + cfg.tRCD)
  {
    hide AllLocated, ColSlot;
    var b := PlanBook(cfg, s.tl, q.bank, q.bankGroup, q.row, false, earliest);
    PlanColumnLegal(cfg, s.tl, q.bank, q.bankGroup, q.row, false, earliest);
    OpenRowLocated(cfg, s.tl, q.bank, q.bankGroup, q.row, earliest, true);
    OpenedLast(cfg, s.tl.banks[q.bank], q.row, b, true);
    ColSlotIsLeast(cfg, s.tl.cols, b.leave + cfg.tRCD, q.bankGroup, false, false);
  }

  lemma {:induction false} BookReadPlaced(cfg: Config, s: State, q: Request, earliest: int)
    requires Steady(cfg) && StateOk(cfg, s) && q.bank < |s.tl.banks| && Placed(cfg, s)
    ensures Placed(cfg, BookRead(cfg, s, q, earliest).0)
  {
    hide StarvedState, PlanBook, ApplyBook, AllLocated, TimelineOk, RowReady;
    var b := PlanBook(cfg, s.tl, q.bank, q.bankGroup, q.row, false, earliest);
    if Starves(cfg, s, b, q.nextRead) {
      OpenForReadOk(cfg, s, q, earliest);
      OpenForReadPlaced(cfg, s, q, earliest);
      StarvedPlaced(cfg, OpenForRead(cfg, s, q, b), q, b.leave);
    } else {
      ApplyBookLocated(cfg, s.tl, q.bank, q.bankGroup, q.row, false, earliest);
    }
  }

  lemma {:induction false} PrunePlaced(cfg: Config, s: State, now: int)
    requires Placed(cfg, s)
    ensures Placed(cfg, Prune(cfg, s, now))
  {
    hide Located;
  }

  lemma {:induction false} PredictPlaced(cfg: Config, s: State, q: Request)
    requires Steady(cfg) && StateOk(cfg, s) && q.bank < |s.tl.banks| && Placed(cfg, s)
    ensures Placed(cfg, Predict(cfg, s, q).0)
  {
    hide Advance, EndWriteMode, BookRead, StateOk, AllLocated;
    PruneOk(cfg, s, q.now);
    PrunePlaced(cfg, s, q.now);
    var a := CatchUp(cfg, s, q);
    if cfg.modelWrites {
      AdvancePlaced(cfg, Prune(cfg, s, q.now), Until(cfg, q.now), Capped(cfg, q.replayEstimate));
    }
    if !q.write && !(cfg.modelWrites && Forwarded(a, q.address)) {
      var (e, earliest) := EndWriteMode(cfg, a, q.now, q.drainEstimate);
      EndWriteModePlaced(cfg, a, q.now, q.drainEstimate);
      BookReadPlaced(cfg, e, q, earliest);
    }
  }

  lemma {:induction false} RunPlaced(cfg: Config, n: nat, qs: seq<Request>)
    requires Steady(cfg) && RequestsFor(qs, n)
    ensures Placed(cfg, Run(cfg, n, qs))
  {
    if qs != [] {
      hide Predict, StateOk, Placed;
      RunPlaced(cfg, n, qs[..|qs| - 1]);
      PredictPlaced(cfg, Run(cfg, n, qs[..|qs| - 1]), qs[|qs| - 1]);
    }
  }

  /** Over every run each live column command is inside a row window of its bank: tRCD after its ACT and
      before its PRE, by the read-to-precharge time when hits hold their windows open and by the whole
      write recovery when there are no such hits; unless its window is older than the eight remembered. */
  lemma {:induction false} ReachableColumns(cfg: Config, n: nat, qs: seq<Request>, j: nat)
    requires Steady(cfg) && RequestsFor(qs, n) && j < |Run(cfg, n, qs).tl.cols|
    ensures var tl := Run(cfg, n, qs).tl;
            var c := tl.cols[j];
            && 0 <= c.bank < n
            && var ws := tl.banks[c.bank].windows;
               || (|ws| == 8 && c.t < ws[0].act)
               || exists i :: 0 <= i < |ws| && ws[i].act + cfg.tRCD <= c.t
                              && (ws[i].pre.At? ==> c.t + Margin(cfg, ws[i], c.write) <= ws[i].pre.cycle)
  {
    hide Run, StateOk;
    RunPlaced(cfg, n, qs);
    var tl := Run(cfg, n, qs).tl;
    var c := tl.cols[j];
    assert c in tl.cols;
    var b := tl.banks[c.bank];
    if i :| 0 <= i < |b.windows| && Inside(cfg, b, c, i) {
      assert b.windows[i].act + cfg.tRCD <= c.t;
    }
  }
}
