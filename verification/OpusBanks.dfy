/** Row windows of a bank and the operations that open, close, extend and use them. */
module OpusBanks {
  import opened Basics
  import opened OpusTypes
  import opened OpusSlots

  /** Window w may be followed by window v: closed no sooner than tRAS after its ACT, and the
      next ACT no sooner than tRP after that PRE and tRC after that ACT. */
  predicate Follows(cfg: Config, w: Window, v: Window) {
    && ClosedLegally(cfg, w)
    && w.pre.cycle + cfg.tRP + cfg.rpAdjust <= v.act
    && w.act + cfg.tRC <= v.act
  }

  predicate ClosedLegally(cfg: Config, w: Window) {
    w.pre.At? && w.act + cfg.tRAS <= w.pre.cycle
  }

  predicate WindowsOk(cfg: Config, ws: seq<Window>) {
    forall i :: 0 <= i < |ws| - 1 ==> Follows(cfg, ws[i], ws[i + 1])
  }

  function Last(ws: seq<Window>): Window
    requires ws != []
  {
    ws[|ws| - 1]
  }

  /** The windows are in order and legally spaced, the open row is exactly the last, unclosed
      window, and the bank's earliest times respect it. */
  predicate BankOk(cfg: Config, b: Bank) {
    && -1 <= b.row && |b.windows| <= 8 && WindowsOk(cfg, b.windows)
    && (0 <= b.row ==>
          && b.windows != [] && Last(b.windows).row == b.row && Last(b.windows).pre == Never
          && Last(b.windows).act + cfg.tRC <= b.actOk
          && Last(b.windows).act + cfg.tRAS <= b.preOk
          && Last(b.windows).act + cfg.tRCD <= b.colOk)
    && (b.row < 0 && b.windows != [] ==>
          && ClosedLegally(cfg, Last(b.windows))
          && Last(b.windows).pre.cycle + cfg.tRP + cfg.rpAdjust <= b.actOk
          && Last(b.windows).act + cfg.tRC <= b.actOk)
  }

  // ----- Planning -----

  /** PRE and ACT for a row that is not open; nothing for an open row. */
  ghost function PlanOpen(cfg: Config, acts: seq<Command>, b: Bank, bg: int, row: int, earliest: int): Booking {
    if b.row == row then Booking(0, 0, 0, false, false)
    else
      var pre := Max(earliest, b.preOk + (if b.preAfterWrite then 0 else cfg.preWait));
      var ready := Max(earliest, b.actOk);
      var leave := ActSlot(cfg, acts, if 0 <= b.row then Max(ready, pre + cfg.tRP + cfg.rpAdjust) else ready, bg);
      Booking(if 0 <= b.row then pre else leave, leave, 0, true, false)
  }

  datatype Hit = NoHit | HitAt(index: nat, column: int)

  predicate ClosedBy(w: Window, t: int) {
    w.pre.At? && w.pre.cycle <= t
  }

  /** Search windows n-1 down to 0 for one of `row` still open when the access can issue. */
  ghost function FindHit(cfg: Config, cols: seq<Command>, ws: seq<Window>, n: nat,
                         bg: int, row: int, write: bool, earliest: int): (h: Hit)
    requires n <= |ws|
    ensures h.HitAt? ==> h.index < n && ws[h.index].row == row && !ClosedBy(ws[h.index], h.column)
  {
    if n == 0 || ClosedBy(ws[n - 1], earliest) then NoHit
    else if ws[n - 1].row != row then FindHit(cfg, cols, ws, n - 1, bg, row, write, earliest)
    else
      var col := ColSlot(cfg, cols, Max(earliest, ws[n - 1].act + cfg.tRCD), bg, write, false);
      if ClosedBy(ws[n - 1], col) then NoHit else HitAt(n - 1, col)
  }

  /** The window hit a request may use: none when its row is the bank's open row. */
  ghost function WindowHit(cfg: Config, cols: seq<Command>, b: Bank, bg: int, row: int, write: bool,
                            earliest: int): (h: Hit)
    ensures h.HitAt? ==>
              && h.index < |b.windows| && b.row != row
              && b.windows[h.index].row == row && !ClosedBy(b.windows[h.index], h.column)
  {
    if cfg.hitWindows && b.row != row then
      FindHit(cfg, cols, b.windows, |b.windows|, bg, row, write, earliest)
    else NoHit
  }

  /** A row hit issues inside its row's window, tRCD after the ACT and before the PRE, at a time
      legal for the channel. */
  lemma {:induction false} FindHitIssuesInWindow(cfg: Config, cols: seq<Command>, ws: seq<Window>, n: nat, bg: int,
                                                 row: int, write: bool, earliest: int)
    requires cfg.Ok() && n <= |ws|
    ensures var h := FindHit(cfg, cols, ws, n, bg, row, write, earliest);
            h.HitAt? ==>
              && earliest <= h.column && ws[h.index].act + cfg.tRCD <= h.column
              && (ws[h.index].pre.At? ==> h.column < ws[h.index].pre.cycle)
              && ColLegal(cfg, cols, h.column, bg, write, false)
  {
    if n != 0 && !ClosedBy(ws[n - 1], earliest) {
      if ws[n - 1].row != row {
        FindHitIssuesInWindow(cfg, cols, ws, n - 1, bg, row, write, earliest);
      } else {
        ColSlotIsLeast(cfg, cols, Max(earliest, ws[n - 1].act + cfg.tRCD), bg, write, false);
      }
    }
  }

  // ----- State changes -----

  function CloseLast(ws: seq<Window>, pre: int, writeClose: bool): seq<Window> {
    if ws == [] then ws else ws[|ws| - 1 := Last(ws).(pre := At(pre), writeClose := writeClose)]
  }

  /** Keep the latest eight windows. */
  function Recent(ws: seq<Window>): seq<Window> {
    if |ws| > 8 then ws[1..] else ws
  }

  function Opened(cfg: Config, b: Bank, row: int, plan: Booking, read: bool): Bank {
    var closed := if 0 <= b.row then CloseLast(b.windows, plan.first, !read) else b.windows;
    Bank(row, plan.leave + cfg.tRC, plan.leave + cfg.tRAS, false, plan.leave + cfg.tRCD,
         Recent(closed + [Window(row, plan.leave, Never, false)]))
  }

  function Precharged(cfg: Config, b: Bank, pre: int): Bank {
    b.(row := -1, actOk := Max(b.actOk, pre + cfg.tRP + cfg.rpAdjust),
       windows := if 0 <= b.row then CloseLast(b.windows, pre, true) else b.windows)
  }

  function Used(cfg: Config, b: Bank, write: bool, col: int): Bank {
    var pre := if write then col + cfg.tCWL + cfg.tBL + cfg.tWR else col + cfg.tRTP;
    var b' := b.(colOk := Max(b.colOk, col));
    if b.preOk <= pre then b'.(preOk := pre, preAfterWrite := write) else b'
  }

  /** A slipped read still precedes its bank's next PRE and column command. */
  function Delayed(cfg: Config, b: Bank, need: int): Bank {
    var b' := b.(colOk := Max(b.colOk, need));
    if b.preOk < need + cfg.tRTP then b'.(preOk := need + cfg.tRTP, preAfterWrite := false) else b'
  }

  /** By how much a read at `col` in window w keeps it open; 0 when it does not. */
  function Extension(cfg: Config, w: Window, col: int): int {
    if (cfg.hitExtend == 2 && w.writeClose) || w.pre.Never? then 0
    else Max(0, col + cfg.tRTP + cfg.preWait - w.pre.cycle)
  }

  function ShiftWindow(w: Window, delta: int): Window {
    w.(act := w.act + delta, pre := if w.pre.At? then At(w.pre.cycle + delta) else Never)
  }

  function ShiftFrom(t: int, from: int, delta: int): int {
    if from <= t then t + delta else t
  }

  /** Window j closes `delta` later, and everything after it on the bank moves with it. */
  function Extended(b: Bank, j: nat, delta: int): Bank
    requires j < |b.windows| && b.windows[j].pre.At?
  {
    var oldPre := b.windows[j].pre.cycle;
    b.(actOk := ShiftFrom(b.actOk, oldPre, delta), preOk := ShiftFrom(b.preOk, oldPre, delta),
       colOk := ShiftFrom(b.colOk, oldPre, delta),
       windows := seq(|b.windows|, k requires 0 <= k < |b.windows| =>
         if k < j then b.windows[k]
         else if k == j then b.windows[k].(pre := At(oldPre + delta))
         else ShiftWindow(b.windows[k], delta)))
  }

  // ----- Every change keeps the windows legal -----

  /** What PlanOpen promises: the PRE respects tRAS, the ACT respects tRP, tRC and the ACT calendar. */
  lemma {:induction false} PlanOpenLegal(cfg: Config, acts: seq<Command>, b: Bank, bg: int, row: int, earliest: int)
    requires cfg.Ok() && BankOk(cfg, b) && b.row != row
    ensures var p := PlanOpen(cfg, acts, b, bg, row, earliest);
            && p.opens && earliest <= p.first <= p.leave && b.actOk <= p.leave
            && (0 <= b.row ==> b.preOk <= p.first && p.first + cfg.tRP + cfg.rpAdjust <= p.leave)
            && (b.row < 0 ==> p.first == p.leave)
            && ActLegal(cfg, acts, p.leave, bg)
  {
    var pre := Max(earliest, b.preOk + (if b.preAfterWrite then 0 else cfg.preWait));
    var ready := Max(earliest, b.actOk);
    ActSlotIsLeast(cfg, acts, if 0 <= b.row then Max(ready, pre + cfg.tRP + cfg.rpAdjust) else ready, bg);
  }

  lemma {:induction false} WindowsTail(cfg: Config, ws: seq<Window>)
    requires WindowsOk(cfg, ws)
    ensures WindowsOk(cfg, Recent(ws))
  {
    forall i | 0 <= i < |Recent(ws)| - 1 ensures Follows(cfg, Recent(ws)[i], Recent(ws)[i + 1]) {
      if |ws| > 8 {
        assert Follows(cfg, ws[i + 1], ws[i + 2]);
      } else {
        assert Follows(cfg, ws[i], ws[i + 1]);
      }
    }
  }

  lemma {:induction false} CloseLastOk(cfg: Config, ws: seq<Window>, pre: int, wc: bool)
    requires WindowsOk(cfg, ws)
    ensures WindowsOk(cfg, CloseLast(ws, pre, wc))
  {
    var r := CloseLast(ws, pre, wc);
    forall i | 0 <= i < |r| - 1 ensures Follows(cfg, r[i], r[i + 1]) {
      assert Follows(cfg, ws[i], ws[i + 1]);
    }
  }

  lemma {:induction false} OpenedOk(cfg: Config, b: Bank, row: int, plan: Booking, read: bool)
    requires cfg.Ok() && BankOk(cfg, b) && 0 <= row && b.actOk <= plan.leave
    requires 0 <= b.row ==> b.preOk <= plan.first && plan.first + cfg.tRP + cfg.rpAdjust <= plan.leave
    ensures BankOk(cfg, Opened(cfg, b, row, plan, read))
  {
    var closed := if 0 <= b.row then CloseLast(b.windows, plan.first, !read) else b.windows;
    CloseLastOk(cfg, b.windows, plan.first, !read);
    var w := Window(row, plan.leave, Never, false);
    var all := closed + [w];
    forall i | 0 <= i < |all| - 1 ensures Follows(cfg, all[i], all[i + 1]) {
      if i < |closed| - 1 {
        assert Follows(cfg, closed[i], closed[i + 1]);
      }
    }
    WindowsTail(cfg, all);
    assert Last(Recent(all)) == w;
  }

  lemma {:induction false} PrechargedOk(cfg: Config, b: Bank, pre: int)
    requires cfg.Ok() && BankOk(cfg, b) && 0 <= b.row && b.preOk <= pre
    ensures BankOk(cfg, Precharged(cfg, b, pre))
  {
    CloseLastOk(cfg, b.windows, pre, true);
  }

  /** The suffix shift keeps every PRE and ACT spacing. */
  lemma {:induction false} ExtendedOk(cfg: Config, b: Bank, j: nat, delta: int)
    requires cfg.Ok() && BankOk(cfg, b) && j < |b.windows| && b.windows[j].pre.At? && 0 <= delta
    ensures BankOk(cfg, Extended(b, j, delta))
  {
    var r := Extended(b, j, delta);
    var oldPre := b.windows[j].pre.cycle;
    forall i | 0 <= i < |r.windows| - 1 ensures Follows(cfg, r.windows[i], r.windows[i + 1]) {
      assert Follows(cfg, b.windows[i], b.windows[i + 1]);
    }
    if j < |b.windows| - 1 {
      LaterActs(cfg, b.windows, j, |b.windows| - 1);
    }
  }

  /** Every ACT after a window comes after that window's PRE. */
  lemma {:induction false} LaterActs(cfg: Config, ws: seq<Window>, j: nat, k: nat)
    requires cfg.Ok() && WindowsOk(cfg, ws) && j < k < |ws|
    ensures ws[j].pre.At? && ws[j].pre.cycle <= ws[k].act
  {
    assert Follows(cfg, ws[k - 1], ws[k]);
    if j < k - 1 {
      LaterActs(cfg, ws, j, k - 1);
    }
  }

  // ----- The bank count that bounds the replay -----

  /** Banks whose row is open. */
  function OpenRows(banks: seq<Bank>): nat {
    if banks == [] then 0 else OpenRows(banks[..|banks| - 1]) + (if 0 <= banks[|banks| - 1].row then 1 else 0)
  }

  lemma {:induction false} OpenRowsUpdate(banks: seq<Bank>, i: nat, b: Bank)
    requires i < |banks|
    ensures OpenRows(banks[i := b])
            == OpenRows(banks) - (if 0 <= banks[i].row then 1 else 0) + (if 0 <= b.row then 1 else 0)
  {
    var n := |banks| - 1;
    if i < n {
      assert banks[i := b][..n] == banks[..n][i := b];
      OpenRowsUpdate(banks[..n], i, b);
    } else {
      assert banks[i := b][..n] == banks[..n];
    }
  }
}
