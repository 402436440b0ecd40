/** Every booking keeps the timeline's invariant. */
module OpusTimelineProofs {
  import opened Basics
  import opened OpusTypes
  import opened OpusCalendar
  import opened OpusSlots
  import opened OpusSlip
  import opened OpusBanks
  import opened OpusTimeline

  lemma {:induction false} BankUpdateOk(cfg: Config, banks: seq<Bank>, i: nat, b: Bank)
    requires BanksOk(cfg, banks) && i < |banks| && BankOk(cfg, b)
    ensures BanksOk(cfg, banks[i := b])
  {
  }

  lemma {:induction false} KnownIfMembers(cal: seq<Command>, r: seq<Command>, n: nat)
    requires BanksKnown(cal, n) && forall c :: c in r ==> c in cal
    ensures BanksKnown(r, n)
  {
    forall i | 0 <= i < |r| ensures 0 <= r[i].bank < n {
      assert r[i] in cal;
    }
  }

  lemma {:induction false} KnownIfKeys(cal: seq<Command>, r: seq<Command>, n: nat)
    requires BanksKnown(cal, n) && Keys(r) == Keys(cal)
    ensures BanksKnown(r, n)
  {
    forall i | 0 <= i < |r| ensures 0 <= r[i].bank < n {
      assert Keys(r)[i] == Key(cal[i]);
    }
  }

  lemma {:induction false} SortedCopyKnown(cal: seq<Command>, r: seq<Command>, n: nat)
    requires BanksKnown(cal, n) && Keys(r) == Keys(cal)
    ensures BanksKnown(StableSort(r), n) && Sorted(StableSort(r))
    ensures ReadsOnly(cal) ==> ReadsOnly(StableSort(r))
  {
    KnownIfKeys(cal, r, n);
    StableSortSorts(r);
    KnownIfMembers(r, StableSort(r), n);
    if ReadsOnly(cal) {
      forall i | 0 <= i < |r| ensures !r[i].write {
        assert Keys(r)[i] == Key(cal[i]);
      }
      forall i | 0 <= i < |StableSort(r)| ensures !StableSort(r)[i].write {
        assert StableSort(r)[i] in r;
      }
    }
  }

  lemma {:induction false} SlipLoopBanks(cfg: Config, tl: Timeline, k: nat)
    requires BanksOk(cfg, tl.banks) && BanksKnown(tl.cols, |tl.banks|)
    ensures BanksOk(cfg, SlipLoop(cfg, tl, k).banks)
    ensures forall i :: 0 <= i < |tl.banks| ==>
      && SlipLoop(cfg, tl, k).banks[i].windows == tl.banks[i].windows
      && SlipLoop(cfg, tl, k).banks[i].row == tl.banks[i].row
    decreases |tl.cols| - k
  {
    if k < |tl.cols| && !tl.cols[k].write && Need(cfg, tl.cols, k) != tl.cols[k].t {
      var next := SlipOne(cfg, tl, k, Need(cfg, tl.cols, k));
      assert BanksOk(cfg, next.banks);
      SlipLoopBanks(cfg, next, k + 1);
    }
  }

  /** A slip keeps the banks' windows and the same commands, in order. */
  lemma {:induction false} SlipFromOk(cfg: Config, tl: Timeline, k: nat)
    requires BanksOk(cfg, tl.banks) && Known(tl) && k <= |tl.cols|
    ensures var r := SlipFrom(cfg, tl, k);
            && BanksOk(cfg, r.banks) && Known(r) && |r.banks| == |tl.banks|
            && Sorted(r.cols) && r.acts == tl.acts
            && multiset(Keys(r.cols)) == multiset(Keys(tl.cols))
            && (ReadsOnly(tl.cols) ==> ReadsOnly(r.cols))
            && (forall i :: 0 <= i < |tl.banks| ==>
                  r.banks[i].windows == tl.banks[i].windows && r.banks[i].row == tl.banks[i].row)
  {
    SlipLoopBanks(cfg, tl, k);
    SlippedKeepsCommands(cfg, tl.cols, k);
    var s := Slipped(cfg, tl.cols, k);
    SortedCopyKnown(tl.cols, s, |tl.banks|);
    StableSortKeepsKeys(s);
  }

  lemma {:induction false} UpperAfterInsert(cal: seq<Command>, c: Command)
    requires Sorted(cal)
    ensures UpperIndex(Insert(cal, c), c.t) == UpperIndex(cal, c.t) + 1
  {
    var r, k := Insert(cal, c), UpperIndex(cal, c.t);
    InsertSorted(cal, c);
    assert r[k] == c;
    assert k + 1 < |r| ==> r[k + 1] == cal[k];
  }

  lemma {:induction false} InsertAtLowerSorted(cal: seq<Command>, c: Command)
    requires Sorted(cal)
    ensures Sorted(InsertAt(cal, LowerIndex(cal, c.t), c))
  {
  }

  lemma {:induction false} InsertKnown(cal: seq<Command>, k: nat, c: Command, n: nat)
    requires k <= |cal| && BanksKnown(cal, n) && 0 <= c.bank < n
    ensures BanksKnown(InsertAt(cal, k, c), n)
  {
  }

  /** With the reads-only settings, the calendar regains full spacing after every placement. */
  lemma {:induction false} PlaceColumnSpaced(cfg: Config, tl: Timeline, c: Command, active: bool)
    requires cfg.Ok() && Conserving(cfg) && ColumnsOk(cfg, tl.cols) && !c.write
    requires 0 <= c.bank < |tl.banks| && BanksKnown(tl.cols, |tl.banks|)
    requires ColLegal(cfg, tl.cols, c.t, c.bankGroup, false, active)
    ensures FullySpaced(cfg, PlaceColumn(cfg, tl, c, active).cols)
  {
    hide SlipLoop, Slipped, StableSort, FullySpaced, FullGap, ColLegal, Sorted;
    var cols := tl.cols;
    var k := if active then LowerIndex(cols, c.t) else UpperIndex(cols, c.t);
    LegalGaps(cfg, cols, c, active);
    if active || (cfg.colSlip && cfg.colSqueeze != 0) {
      UpperAfterInsert(cols, c);
      InsertAndSlipSpaced(cfg, cols, c, k);
    } else {
      InsertedSpaced(cfg, cols, c, k);
    }
  }

  /** A legal read keeps its gap after everything before its place and, unless reads may be squeezed,
      before everything after it. */
  lemma {:induction false} LegalGaps(cfg: Config, cols: seq<Command>, c: Command, active: bool)
    requires cfg.Ok() && Sorted(cols) && ReadsOnly(cols) && !c.write
    requires ColLegal(cfg, cols, c.t, c.bankGroup, false, active)
    ensures var k := if active then LowerIndex(cols, c.t) else UpperIndex(cols, c.t);
            && (forall i :: 0 <= i < k ==> FullGap(cfg, cols[i], c))
            && (!active && cfg.colSqueeze == 0 ==> forall i :: k <= i < |cols| ==> FullGap(cfg, c, cols[i]))
  {
    forall i | 0 <= i < |cols| ensures ColClear(cfg, cols[i], c.t, c.bankGroup, false, active) {
    }
  }

  predicate SameWindows(banks: seq<Bank>, r: seq<Bank>) {
    |r| == |banks| && forall i :: 0 <= i < |banks| ==> r[i].windows == banks[i].windows && r[i].row == banks[i].row
  }

  lemma {:induction false} PlaceColumnBanks(cfg: Config, tl: Timeline, c: Command, active: bool)
    requires BanksOk(cfg, tl.banks) && Known(tl) && Sorted(tl.cols) && 0 <= c.bank < |tl.banks|
    ensures var r := PlaceColumn(cfg, tl, c, active);
            && BanksOk(cfg, r.banks) && Known(r) && SameWindows(tl.banks, r.banks) && r.acts == tl.acts
            && Sorted(r.cols) && (ReadsOnly(tl.cols) && !c.write ==> ReadsOnly(r.cols))
  {
    hide SlipLoop, Slipped, StableSort, BankOk;
    var k := if active then LowerIndex(tl.cols, c.t) else UpperIndex(tl.cols, c.t);
    var s := tl.(cols := InsertAt(tl.cols, k, c));
    InsertKnown(tl.cols, k, c, |tl.banks|);
    InsertSorted(tl.cols, c);
    if active {
      SlipFromOk(cfg, s, k + 1);
    } else if !c.write && cfg.colSlip && cfg.colSqueeze != 0 {
      SlipFromOk(cfg, s, UpperIndex(s.cols, c.t));
    }
  }

  lemma {:induction false} PlaceColumnOk(cfg: Config, tl: Timeline, c: Command, active: bool)
    requires cfg.Ok() && TimelineOk(cfg, tl) && 0 <= c.bank < |tl.banks|
    requires c.write ==> cfg.modelWrites && !active
    requires active ==> cfg.activeFirst
    requires ColLegal(cfg, tl.cols, c.t, c.bankGroup, c.write, active)
    ensures var r := PlaceColumn(cfg, tl, c, active);
            TimelineOk(cfg, r) && SameWindows(tl.banks, r.banks) && r.acts == tl.acts
  {
    PlaceColumnBanks(cfg, tl, c, active);
    if Conserving(cfg) {
      PlaceColumnSpaced(cfg, tl, c, active);
    }
    if Fixed(cfg) {
      ColInsertKeepsSpacing(cfg, tl.cols, c);
      assert PlaceColumn(cfg, tl, c, active).cols == Insert(tl.cols, c);
    }
  }

  lemma {:induction false} FinishColumnOk(cfg: Config, tl: Timeline, bank: nat, bg: int, write: bool, col: int,
                                          leaves: bool, active: bool)
    requires cfg.Ok() && TimelineOk(cfg, tl) && bank < |tl.banks|
    requires write ==> cfg.modelWrites && !active
    requires active ==> cfg.activeFirst
    requires ColLegal(cfg, tl.cols, col, bg, write, active)
    ensures var r := FinishColumn(cfg, tl, bank, bg, write, col, leaves, active);
            TimelineOk(cfg, r) && |r.banks| == |tl.banks|
  {
    var tl' := tl.(banks := tl.banks[bank := Used(cfg, tl.banks[bank], write, col)]);
    BankUpdateOk(cfg, tl.banks, bank, Used(cfg, tl.banks[bank], write, col));
    PlaceColumnOk(cfg, tl', if active then Command(col, bg, false, bank, false)
                            else Command(col, bg, write, bank, leaves && !write), active);
  }

  lemma {:induction false} ExtendWindowOk(cfg: Config, tl: Timeline, bank: nat, j: nat, col: int)
    requires cfg.Ok() && TimelineOk(cfg, tl) && cfg.hitExtend > 0
    requires bank < |tl.banks| && j < |tl.banks[bank].windows|
    ensures var r := ExtendWindow(cfg, tl, bank, j, col);
            TimelineOk(cfg, r) && |r.banks| == |tl.banks|
  {
    var b := tl.banks[bank];
    var delta := Extension(cfg, b.windows[j], col);
    if delta != 0 {
      var from := b.windows[j].pre.cycle;
      ExtendedOk(cfg, b, j, delta);
      BankUpdateOk(cfg, tl.banks, bank, Extended(b, j, delta));
      SortedCopyKnown(tl.cols, Shifted(tl.cols, bank, from, delta), |tl.banks|);
      SortedCopyKnown(tl.acts, Shifted(tl.acts, bank, from, delta), |tl.banks|);
    }
  }

  lemma {:induction false} OpenRowOk(cfg: Config, tl: Timeline, bank: nat, bg: int, row: int, earliest: int, read: bool)
    requires cfg.Ok() && TimelineOk(cfg, tl) && bank < |tl.banks| && 0 <= row && tl.banks[bank].row != row
    ensures var r := OpenRow(cfg, tl, bank, bg, row, PlanOpen(cfg, tl.acts, tl.banks[bank], bg, row, earliest), read);
            TimelineOk(cfg, r) && |r.banks| == |tl.banks|
  {
    var b := tl.banks[bank];
    var p := PlanOpen(cfg, tl.acts, b, bg, row, earliest);
    PlanOpenLegal(cfg, tl.acts, b, bg, row, earliest);
    OpenedOk(cfg, b, row, p, read);
    BankUpdateOk(cfg, tl.banks, bank, Opened(cfg, b, row, p, read));
    var c := Command(p.leave, bg, false, bank, read);
    InsertKnown(tl.acts, UpperIndex(tl.acts, c.t), c, |tl.banks|);
    InsertSorted(tl.acts, c);
    if cfg.hitExtend <= 0 {
      ActInsertKeepsSpacing(cfg, tl.acts, c);
    }
  }

  /** Booking an access keeps every bank's windows legal, both calendars sorted and, where the
      settings allow it, all ACT and column pairs spaced. */
  lemma {:induction false} ApplyBookOk(cfg: Config, tl: Timeline, bank: nat, bg: int, row: int, write: bool,
                                       earliest: int)
    requires cfg.Ok() && TimelineOk(cfg, tl) && bank < |tl.banks| && 0 <= row
    requires write ==> cfg.modelWrites
    ensures var r := ApplyBook(cfg, tl, bank, bg, row, write, earliest);
            TimelineOk(cfg, r) && |r.banks| == |tl.banks|
  {
    if WindowHit(cfg, tl.cols, tl.banks[bank], bg, row, write, earliest).HitAt? {
      HitBookOk(cfg, tl, bank, bg, row, write, earliest);
    } else {
      OpenBookOk(cfg, tl, bank, bg, row, write, earliest);
    }
  }

  lemma {:induction false} HitBookOk(cfg: Config, tl: Timeline, bank: nat, bg: int, row: int, write: bool,
                                     earliest: int)
    requires cfg.Ok() && TimelineOk(cfg, tl) && bank < |tl.banks|
    requires write ==> cfg.modelWrites
    requires WindowHit(cfg, tl.cols, tl.banks[bank], bg, row, write, earliest).HitAt?
    ensures var r := ApplyBook(cfg, tl, bank, bg, row, write, earliest);
            TimelineOk(cfg, r) && |r.banks| == |tl.banks|
  {
    var b := tl.banks[bank];
    var h := WindowHit(cfg, tl.cols, b, bg, row, write, earliest);
    FindHitIssuesInWindow(cfg, tl.cols, b.windows, |b.windows|, bg, row, write, earliest);
    var c := Command(h.column, bg, write, bank, !write);
    PlaceColumnOk(cfg, tl, c, false);
    var tl' := PlaceColumn(cfg, tl, c, false);
    if cfg.hitExtend > 0 && !write {
      ExtendWindowOk(cfg, tl', bank, h.index, h.column);
    }
  }

  lemma {:induction false} OpenBookOk(cfg: Config, tl: Timeline, bank: nat, bg: int, row: int, write: bool,
                                      earliest: int)
    requires cfg.Ok() && TimelineOk(cfg, tl) && bank < |tl.banks| && 0 <= row
    requires write ==> cfg.modelWrites
    requires WindowHit(cfg, tl.cols, tl.banks[bank], bg, row, write, earliest).NoHit?
    ensures var r := ApplyBook(cfg, tl, bank, bg, row, write, earliest);
            TimelineOk(cfg, r) && |r.banks| == |tl.banks|
  {
    var p := PlanBook(cfg, tl, bank, bg, row, write, earliest);
    var active := cfg.activeFirst && p.opens && !write;
    PlanColumnLegal(cfg, tl, bank, bg, row, write, earliest);
    if p.opens {
      OpenRowOk(cfg, tl, bank, bg, row, earliest, !write);
      FinishColumnOk(cfg, OpenRow(cfg, tl, bank, bg, row, p, !write), bank, bg, write, p.column, false, active);
    } else {
      FinishColumnOk(cfg, tl, bank, bg, write, p.column, true, active);
    }
  }

  lemma {:induction false} PlanColumnLegal(cfg: Config, tl: Timeline, bank: nat, bg: int, row: int, write: bool,
                                           earliest: int)
    requires cfg.Ok() && bank < |tl.banks|
    requires WindowHit(cfg, tl.cols, tl.banks[bank], bg, row, write, earliest).NoHit?
    ensures var p, b := PlanBook(cfg, tl, bank, bg, row, write, earliest), tl.banks[bank];
            && ColLegal(cfg, tl.cols, p.column, bg, write, cfg.activeFirst && p.opens && !write)
            && p.opens == (b.row != row)
            && (p.opens ==> Opened(cfg, b, row, p, !write)
                            == Opened(cfg, b, row, PlanOpen(cfg, tl.acts, b, bg, row, earliest), !write)
                            && p.leave == PlanOpen(cfg, tl.acts, b, bg, row, earliest).leave)
  {
    var b := tl.banks[bank];
    var p := PlanBook(cfg, tl, bank, bg, row, write, earliest);
    ColSlotIsLeast(cfg, tl.cols, if p.opens then p.leave + cfg.tRCD else Max(earliest, b.colOk), bg, write,
                   cfg.activeFirst && p.opens && !write);
  }

  /** A booking's commands are ordered: nothing before `earliest`, the ACT no sooner than the PRE,
      the column command tRCD after the ACT. */
  lemma {:induction false} PlanBookOrder(cfg: Config, tl: Timeline, bank: nat, bg: int, row: int, write: bool,
                                         earliest: int)
    requires cfg.Ok() && BanksOk(cfg, tl.banks) && bank < |tl.banks|
    ensures var p := PlanBook(cfg, tl, bank, bg, row, write, earliest);
            && earliest <= p.first <= p.leave <= p.column
            && (p.opens ==> p.leave + cfg.tRCD <= p.column)
  {
    var b := tl.banks[bank];
    var h := WindowHit(cfg, tl.cols, b, bg, row, write, earliest);
    if h.HitAt? {
      FindHitIssuesInWindow(cfg, tl.cols, b.windows, |b.windows|, bg, row, write, earliest);
    } else {
      var p := PlanOpen(cfg, tl.acts, b, bg, row, earliest);
      if b.row != row {
        PlanOpenLegal(cfg, tl.acts, b, bg, row, earliest);
      }
      ColSlotIsLeast(cfg, tl.cols, if p.opens then p.leave + cfg.tRCD else Max(earliest, b.colOk), bg, write,
                     cfg.activeFirst && p.opens && !write);
    }
  }

  lemma {:induction false} PlaceColumnKeys(cfg: Config, tl: Timeline, c: Command, active: bool)
    requires BanksOk(cfg, tl.banks) && Known(tl) && Sorted(tl.cols) && 0 <= c.bank < |tl.banks|
    ensures multiset(Keys(PlaceColumn(cfg, tl, c, active).cols)) == multiset(Keys(tl.cols)) + multiset{Key(c)}
  {
    hide SlipLoop, Slipped, StableSort, BankOk;
    var k := if active then LowerIndex(tl.cols, c.t) else UpperIndex(tl.cols, c.t);
    var s := tl.(cols := InsertAt(tl.cols, k, c));
    InsertKnown(tl.cols, k, c, |tl.banks|);
    KeysInsert(tl.cols, k, c);
    if active {
      SlipFromOk(cfg, s, k + 1);
    } else if !c.write && cfg.colSlip && cfg.colSqueeze != 0 {
      SlipFromOk(cfg, s, UpperIndex(s.cols, c.t));
    }
  }

  lemma {:induction false} ExtendWindowKeys(cfg: Config, tl: Timeline, bank: nat, j: nat, col: int)
    requires bank < |tl.banks| && j < |tl.banks[bank].windows|
    ensures multiset(Keys(ExtendWindow(cfg, tl, bank, j, col).cols)) == multiset(Keys(tl.cols))
    ensures multiset(Keys(ExtendWindow(cfg, tl, bank, j, col).acts)) == multiset(Keys(tl.acts))
  {
    var b := tl.banks[bank];
    var delta := Extension(cfg, b.windows[j], col);
    if delta != 0 {
      StableSortKeepsKeys(Shifted(tl.cols, bank, b.windows[j].pre.cycle, delta));
      StableSortKeepsKeys(Shifted(tl.acts, bank, b.windows[j].pre.cycle, delta));
    }
  }

  /** Whatever it moves, a booking adds exactly its own column command and, if it opens a row, its own
      ACT to the calendars. */
  lemma {:induction false} BookingAddsOneColumn(cfg: Config, tl: Timeline, bank: nat, bg: int, row: int,
                                                write: bool, earliest: int)
    requires cfg.Ok() && TimelineOk(cfg, tl) && bank < |tl.banks| && 0 <= row
    ensures var p := PlanBook(cfg, tl, bank, bg, row, write, earliest);
            var r := ApplyBook(cfg, tl, bank, bg, row, write, earliest);
            && multiset(Keys(r.cols)) == multiset(Keys(tl.cols))
                                         + multiset{(bg, write, bank as int, !p.opens && !write)}
            && multiset(Keys(r.acts)) == multiset(Keys(tl.acts))
                                         + (if p.opens then multiset{(bg, false, bank as int, !write)} else multiset{})
  {
    var p := PlanBook(cfg, tl, bank, bg, row, write, earliest);
    var h := WindowHit(cfg, tl.cols, tl.banks[bank], bg, row, write, earliest);
    if h.HitAt? {
      var c := Command(h.column, bg, write, bank, !write);
      PlaceColumnKeys(cfg, tl, c, false);
      PlaceColumnBanks(cfg, tl, c, false);
      ExtendWindowKeys(cfg, PlaceColumn(cfg, tl, c, false), bank, h.index, h.column);
    } else {
      PlanColumnLegal(cfg, tl, bank, bg, row, write, earliest);
      if p.opens {
        OpenRowOk(cfg, tl, bank, bg, row, earliest, !write);
        KeysInsert(tl.acts, UpperIndex(tl.acts, p.leave), Command(p.leave, bg, false, bank, !write));
      }
      FinishColumnKeys(cfg, if p.opens then OpenRow(cfg, tl, bank, bg, row, p, !write) else tl,
                       bank, bg, write, p.column, !p.opens, cfg.activeFirst && p.opens && !write);
    }
  }

  lemma {:induction false} FinishColumnKeys(cfg: Config, tl: Timeline, bank: nat, bg: int, write: bool, col: int,
                                            leaves: bool, active: bool)
    requires TimelineOk(cfg, tl) && bank < |tl.banks| && (active ==> !write && !leaves)
    ensures multiset(Keys(FinishColumn(cfg, tl, bank, bg, write, col, leaves, active).cols))
            == multiset(Keys(tl.cols)) + multiset{(bg, write, bank as int, leaves && !write)}
    ensures FinishColumn(cfg, tl, bank, bg, write, col, leaves, active).acts == tl.acts
  {
    var tl' := tl.(banks := tl.banks[bank := Used(cfg, tl.banks[bank], write, col)]);
    BankUpdateOk(cfg, tl.banks, bank, Used(cfg, tl.banks[bank], write, col));
    var c := if active then Command(col, bg, false, bank, false) else Command(col, bg, write, bank, leaves && !write);
    PlaceColumnKeys(cfg, tl', c, active);
    PlaceColumnBanks(cfg, tl', c, active);
  }

  /** A committed write adds exactly its WR and, if it opens a row, its ACT; a trigger hit only its WR. */
  lemma {:induction false} WriteAddsOneColumn(cfg: Config, tl: Timeline, w: PendingWrite, hitTime: int, from: int)
    requires cfg.Ok() && TimelineOk(cfg, tl) && 0 <= w.bank < |tl.banks| && 0 <= w.row && cfg.modelWrites
    ensures var p := PlanWrite(cfg, tl, w, hitTime, from);
            var r := ApplyWrite(cfg, tl, w, hitTime, from);
            && multiset(Keys(r.cols)) == multiset(Keys(tl.cols)) + multiset{(w.bankGroup, true, w.bank, false)}
            && multiset(Keys(r.acts)) == multiset(Keys(tl.acts))
                                         + (if p.opens then multiset{(w.bankGroup, false, w.bank, false)}
                                            else multiset{})
  {
    hide PlanBook, ApplyBook, ColSlot, TimelineOk;
    if 0 <= TriggerHit(tl.banks[w.bank], w, hitTime) {
      var col := PlanWrite(cfg, tl, w, hitTime, from).column;
      KeysInsert(tl.cols, UpperIndex(tl.cols, col), Command(col, w.bankGroup, true, w.bank, false));
    } else {
      BookingAddsOneColumn(cfg, tl, w.bank, w.bankGroup, w.row, true, Max(from, w.arrive + 1));
    }
  }

  lemma {:induction false} ApplyWriteOk(cfg: Config, tl: Timeline, w: PendingWrite, hitTime: int, from: int)
    requires cfg.Ok() && TimelineOk(cfg, tl) && 0 <= w.bank < |tl.banks| && 0 <= w.row && cfg.modelWrites
    ensures var r := ApplyWrite(cfg, tl, w, hitTime, from);
            TimelineOk(cfg, r) && |r.banks| == |tl.banks|
  {
    var j := TriggerHit(tl.banks[w.bank], w, hitTime);
    if 0 <= j {
      var ready := Max(Max(from, w.arrive + 1), tl.banks[w.bank].windows[j].act + cfg.tRCD);
      ColSlotIsLeast(cfg, tl.cols, ready, w.bankGroup, true, false);
      var col := PlanWrite(cfg, tl, w, hitTime, from).column;
      PlaceColumnOk(cfg, tl, Command(col, w.bankGroup, true, w.bank, false), false);
    } else {
      ApplyBookOk(cfg, tl, w.bank, w.bankGroup, w.row, true, Max(from, w.arrive + 1));
    }
  }

  /** A booking whose first command precedes its departure is a PRE on a bank whose row is open:
      the replay's precharge branch always closes a row. */
  lemma {:induction false} PrechargeClosesRow(cfg: Config, tl: Timeline, w: PendingWrite, hitTime: int, from: int)
    requires cfg.Ok() && TimelineOk(cfg, tl) && 0 <= w.bank < |tl.banks| && 0 <= w.row
    ensures var p := PlanWrite(cfg, tl, w, hitTime, from);
            && p.first <= p.leave
            && (p.first < p.leave ==> 0 <= tl.banks[w.bank].row && tl.banks[w.bank].preOk <= p.first)
  {
    var b := tl.banks[w.bank];
    if b.row != w.row {
      PlanOpenLegal(cfg, tl.acts, b, w.bankGroup, w.row, Max(from, w.arrive + 1));
    }
  }

  lemma {:induction false} PrechargeOk(cfg: Config, tl: Timeline, bank: nat, pre: int)
    requires cfg.Ok() && TimelineOk(cfg, tl) && bank < |tl.banks|
    requires 0 <= tl.banks[bank].row && tl.banks[bank].preOk <= pre
    ensures var r := Precharge(cfg, tl, bank, pre);
            && TimelineOk(cfg, r) && |r.banks| == |tl.banks|
            && OpenRows(r.banks) < OpenRows(tl.banks)
  {
    PrechargedOk(cfg, tl.banks[bank], pre);
    BankUpdateOk(cfg, tl.banks, bank, Precharged(cfg, tl.banks[bank], pre));
    OpenRowsUpdate(tl.banks, bank, Precharged(cfg, tl.banks[bank], pre));
  }
}
