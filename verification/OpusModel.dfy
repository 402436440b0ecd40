/** The reservation model itself: calendars, banks and the write buffer updated in place, with the
    windowed searches and early-stopping scans, each proved against the functions of OpusTimeline
    and OpusPolicy. */
module OpusModel {
  import opened Basics
  import opened OpusTypes
  import opened OpusCalendar
  import opened OpusSlots
  import opened OpusSlip
  import opened OpusBanks
  import opened OpusTimeline
  import opened OpusTimelineProofs
  import opened OpusPolicy

  /** Binary search: first entry at or after v. */
  method LowerBound(cal: seq<Command>, v: int) returns (k: nat)
    requires Sorted(cal)
    ensures k == LowerIndex(cal, v)
  {
    k := 0;
    var hi := |cal|;
    while k < hi
      invariant 0 <= k <= hi <= |cal|
      invariant forall i :: 0 <= i < k ==> cal[i].t < v
      invariant forall i :: hi <= i < |cal| ==> v <= cal[i].t
    {
      var mid := (k + hi) / 2;
      if cal[mid].t < v { k := mid + 1; } else { hi := mid; }
    }
    LowerUnique(cal, v, k);
  }

  /** Binary search: first entry after v. */
  method UpperBound(cal: seq<Command>, v: int) returns (k: nat)
    requires Sorted(cal)
    ensures k == UpperIndex(cal, v)
  {
    k := 0;
    var hi := |cal|;
    while k < hi
      invariant 0 <= k <= hi <= |cal|
      invariant forall i :: 0 <= i < k ==> cal[i].t <= v
      invariant forall i :: hi <= i < |cal| ==> v < cal[i].t
    {
      var mid := (k + hi) / 2;
      if v < cal[mid].t { hi := mid; } else { k := mid + 1; }
    }
    UpperUnique(cal, v, k);
  }

  class ReservationModel {
    const cfg: Config

    var banks: seq<Bank>
    var cols: seq<Command>
    var acts: seq<Command>
    var readHorizon: int
    var readColHorizon: int
    var readActHorizon: int
    var wq: seq<PendingWrite>
    var writeMode: bool
    var forced: bool
    var forcedAt: int
    var drainStart: int
    var drainExit: int
    var drainShift: int
    var hitTime: int
    ghost var admitted: seq<PendingWrite>
    ghost var booked: seq<BookedWrite>

    ghost function TL(): Timeline
      reads this
    {
      Timeline(banks, cols, acts, readHorizon, readColHorizon, readActHorizon)
    }

    ghost function S(): State
      reads this
    {
      State(TL(), wq, writeMode, forced, forcedAt, drainStart, drainExit, drainShift, hitTime, admitted, booked)
    }

    /** Enough to search and edit the calendars. */
    ghost predicate Usable()
      reads this
    {
      cfg.Ok() && Known(TL()) && Sorted(cols) && Sorted(acts)
    }

    ghost predicate Valid()
      reads this
    {
      cfg.Ok() && StateOk(cfg, S())
    }

    constructor (cfg: Config, n: nat)
      requires cfg.Ok()
      ensures this.cfg == cfg && S() == Initial(n) && Valid()
    {
      this.cfg := cfg;
      banks, cols, acts := seq(n, _ => INITIAL_BANK), [], [];
      readHorizon, readColHorizon, readActHorizon := 0, 0, 0;
      wq, writeMode, forced, forcedAt, drainStart := [], false, false, 0, 0;
      drainExit, drainShift, hitTime := -1, 0, -1;
      admitted, booked := [], [];
    }

    // ----- Slot searches -----

    /** The first booked command in the neighbourhood of t that conflicts with it, or |cols|. */
    method ScanCols(t: int, bg: int, write: bool, active: bool) returns (i: nat)
      requires Usable()
      ensures i <= |cols|
      ensures if i < |cols| then !ColClear(cfg, cols[i], t, bg, write, active)
              else ColLegal(cfg, cols, t, bg, write, active)
    {
      i := LowerBound(cols, t - cfg.MaxColGap());
      forall j | 0 <= j < i ensures ColClear(cfg, cols[j], t, bg, write, active) {
        FarColIsClear(cfg, cols[j], t, bg, write, active);
      }
      while i < |cols| && cols[i].t < t + cfg.MaxColGap()
        invariant 0 <= i <= |cols|
        invariant forall j :: 0 <= j < i ==> ColClear(cfg, cols[j], t, bg, write, active)
      {
        var c := cols[i];
        if !(active && c.leaves && t <= c.t) {
          if c.t <= t {
            if t < c.t + cfg.ColGap(c.write, c.bankGroup, write, bg) { return; }
          } else {
            if c.t - t < cfg.ColGap(write, bg, c.write, c.bankGroup) - cfg.Slack(write, c.write) { return; }
          }
        }
        i := i + 1;
      }
      forall j | i <= j < |cols| ensures ColClear(cfg, cols[j], t, bg, write, active) {
        FarColIsClear(cfg, cols[j], t, bg, write, active);
      }
      i := |cols|;
    }

    method FindColSlot(from: int, bg: int, write: bool, active: bool) returns (t: int)
      requires Usable()
      ensures t == ColSlot(cfg, cols, from, bg, write, active)
    {
      t := from;
      while true
        invariant ColSlot(cfg, cols, t, bg, write, active) == ColSlot(cfg, cols, from, bg, write, active)
        decreases Max(0, ColBound(cfg, cols) - t)
      {
        var i := ScanCols(t, bg, write, active);
        if i == |cols| {
          assert ColTest(cfg, cols, bg, write, active)(t);
          return;
        }
        ColJump(cfg, cols, i, t, bg, write, active);
        t := cols[i].t + cfg.ColGap(cols[i].write, cols[i].bankGroup, write, bg);
      }
    }

    method ScanActs(t: int, bg: int) returns (i: nat)
      requires Usable()
      ensures i <= |acts|
      ensures if i < |acts| then !ActClear(cfg, acts[i], t, bg) else ActLegal(cfg, acts, t, bg)
    {
      i := LowerBound(acts, t - cfg.MaxActGap());
      while i < |acts| && acts[i].t < t + cfg.MaxActGap()
        invariant 0 <= i <= |acts|
        invariant forall j :: 0 <= j < i ==> ActClear(cfg, acts[j], t, bg)
      {
        var gap := cfg.ActGap(acts[i].bankGroup, bg);
        if (acts[i].t <= t && t < acts[i].t + gap) || (t < acts[i].t && acts[i].t - t < gap) { return; }
        i := i + 1;
      }
      i := |acts|;
    }

    method FindActSlot(from: int, bg: int) returns (t: int)
      requires Usable()
      ensures t == ActSlot(cfg, acts, from, bg)
    {
      t := from;
      while true
        invariant ActSlot(cfg, acts, t, bg) == ActSlot(cfg, acts, from, bg)
        decreases Max(0, ActBound(cfg, acts) - t)
      {
        var i := ScanActs(t, bg);
        if i == |acts| {
          assert ActTest(cfg, acts, bg)(t);
          return;
        }
        ActJump(cfg, acts, i, t, bg);
        t := acts[i].t + cfg.ActGap(acts[i].bankGroup, bg);
      }
    }

    // ----- Slipping booked reads -----

    /** Backward scan, stopped once nothing further back can matter. */
    method NeedAt(k: nat) returns (need: int)
      requires cfg.Ok() && k < |cols| && Sorted(cols[..k])
      ensures need == Need(cfg, cols, k)
    {
      var bg := cols[k].bankGroup;
      need := cols[k].t;
      var j := k;
      while 0 < j && need < cols[j - 1].t + cfg.MaxColGap()
        invariant 0 <= j <= k && cols[k].t <= need
        invariant forall i :: j <= i < k ==> AfterOne(cfg, cols[i], bg) <= need
        invariant need == cols[k].t || exists i :: j <= i < k && AfterOne(cfg, cols[i], bg) == need
      {
        j := j - 1;
        need := Max(need, AfterOne(cfg, cols[j], bg));
      }
      var before := cols[..k];
      forall i | 0 <= i < k ensures AfterOne(cfg, before[i], bg) <= need {
        if i < j {
          assert before[i].t <= before[j - 1].t;
          GapBounds(cfg, before[i].write, before[i].bankGroup, false, bg);
        }
      }
      if need != cols[k].t {
        var i :| j <= i < k && AfterOne(cfg, cols[i], bg) == need;
        assert AfterOne(cfg, before[i], bg) == need;
      }
      LeastAfterUnique(cfg, before, bg, cols[k].t, need);
    }

    /** Move entry k to `need`; under slip_sync its bank and departure follow. */
    method SlipEntry(k: nat, need: int)
      requires k < |cols| && BanksKnown(cols, |banks|)
      modifies this`banks, this`cols, this`readHorizon, this`readColHorizon
      ensures TL() == SlipOne(cfg, old(TL()), k, need)
    {
      var c := cols[k];
      cols := cols[k := c.(t := need)];
      readColHorizon := Max(readColHorizon, need);
      if cfg.slipSync {
        banks := banks[c.bank := Delayed(cfg, banks[c.bank], need)];
        if c.leaves {
          readHorizon := Max(readHorizon, need);
        }
      }
    }

    /** Move reads to where they fit until one already does. */
    method SlipReads(start: nat) returns (moved: bool)
      requires Usable() && start <= |cols|
      modifies this`banks, this`cols, this`readHorizon, this`readColHorizon
      ensures TL() == SlipLoop(cfg, old(TL()), start) && (!moved ==> cols == old(cols))
    {
      hide Slipped, SlipOne, Need;
      var k := start;
      moved := false;
      while k < |cols|
        invariant start <= k <= |cols| && BanksKnown(cols, |banks|)
        invariant SlipLoop(cfg, TL(), k) == SlipLoop(cfg, old(TL()), start)
        invariant Sorted(cols[..k])
        invariant !moved ==> cols == old(cols)
      {
        var fits := SlipStep(k);
        if fits { return; }
        moved := true;
        k := k + 1;
      }
    }

    /** Move entry k to where it fits, unless it is a write or fits already. */
    method SlipStep(k: nat) returns (fits: bool)
      requires cfg.Ok() && k < |cols| && BanksKnown(cols, |banks|) && Sorted(cols[..k])
      modifies this`banks, this`cols, this`readHorizon, this`readColHorizon
      ensures BanksKnown(cols, |banks|) && |cols| == |old(cols)|
      ensures fits ==> TL() == SlipLoop(cfg, old(TL()), k) == old(TL())
      ensures !fits ==> Sorted(cols[..k + 1]) && SlipLoop(cfg, TL(), k + 1) == SlipLoop(cfg, old(TL()), k)
    {
      if cols[k].write { return true; }
      var need := NeedAt(k);
      if need == cols[k].t { return true; }
      ExtendSorted(k, need);
      SlipEntry(k, need);
      fits := false;
    }

    method SlipFromIndex(start: nat)
      requires Usable() && start <= |cols|
      modifies this`banks, this`cols, this`readHorizon, this`readColHorizon
      ensures TL() == SlipFrom(cfg, old(TL()), start)
    {
      var moved := SlipReads(start);
      if moved && !Sorted(cols) {
        cols := StableSort(cols);
      } else {
        StableSortIdentity(cols);
      }
    }

    /** Moving entry k to its needed time keeps the prefix sorted. */
    lemma {:induction false} ExtendSorted(k: nat, need: int)
      requires cfg.Ok() && k < |cols| && Sorted(cols[..k]) && need == Need(cfg, cols, k)
      ensures Sorted(cols[k := cols[k].(t := need)][..k + 1])
    {
      LeastAfterIsLeast(cfg, cols[..k], cols[k].bankGroup, cols[k].t);
      var r := cols[k := cols[k].(t := need)][..k + 1];
      forall i, j | 0 <= i < j < |r| ensures r[i].t <= r[j].t {
        if j == k {
          assert AfterOne(cfg, cols[..k][i], cols[k].bankGroup) <= need;
          GapBounds(cfg, r[i].write, r[i].bankGroup, false, cols[k].bankGroup);
        } else {
          assert cols[..k][i].t <= cols[..k][j].t;
        }
      }
    }

    /** Place a column command and slip the reads behind it. */
    method Place(c: Command, active: bool)
      requires Usable() && 0 <= c.bank < |banks|
      modifies this`banks, this`cols, this`acts, this`readHorizon, this`readColHorizon, this`readActHorizon
      ensures TL() == PlaceColumn(cfg, old(TL()), c, active)
    {
      if active {
        var k := LowerBound(cols, c.t);
        cols := InsertAt(cols, k, c);
        InsertKnown(old(cols), k, c, |banks|);
        InsertAtLowerSorted(old(cols), c);
        SlipFromIndex(k + 1);
      } else {
        var k := UpperBound(cols, c.t);
        cols := InsertAt(cols, k, c);
        InsertKnown(old(cols), k, c, |banks|);
        InsertSorted(old(cols), c);
        if !c.write && cfg.colSlip && cfg.colSqueeze != 0 {
          var u := UpperBound(cols, c.t);
          SlipFromIndex(u);
        }
      }
    }

    // ----- Window extension -----

    /** Raise the horizons a moved entry carries. */
    method RaiseFor(c: Command, t: int, act: bool)
      modifies this`readHorizon, this`readColHorizon, this`readActHorizon
      ensures readHorizon == if c.leaves then Max(old(readHorizon), t) else old(readHorizon)
      ensures readActHorizon == if act && c.leaves then Max(old(readActHorizon), t) else old(readActHorizon)
      ensures readColHorizon == if !act && !c.write then Max(old(readColHorizon), t) else old(readColHorizon)
    {
      if c.leaves { readHorizon := Max(readHorizon, t); }
      if act && c.leaves { readActHorizon := Max(readActHorizon, t); }
      if !act && !c.write { readColHorizon := Max(readColHorizon, t); }
    }

    /** Move a bank's entries at or after `from` later by `delta`, raising the horizons they carry. */
    method ShiftEntries(cal: seq<Command>, bank: int, from: int, delta: int, act: bool)
      returns (r: seq<Command>, moved: bool)
      modifies this`readHorizon, this`readColHorizon, this`readActHorizon
      ensures r == Shifted(cal, bank, from, delta) && (!moved ==> r == cal)
      ensures readHorizon == Raised(cal, bank, from, delta, Leaving, old(readHorizon))
      ensures readActHorizon == if act then Raised(cal, bank, from, delta, Leaving, old(readActHorizon))
                                else old(readActHorizon)
      ensures readColHorizon == if act then old(readColHorizon)
                                else Raised(cal, bank, from, delta, ReadColumn, old(readColHorizon))
    {
      r, moved := cal, false;
      for i := 0 to |cal|
        invariant |r| == |cal| && (!moved ==> r == cal)
        invariant forall k :: 0 <= k < i ==> r[k] == Shifted(cal, bank, from, delta)[k]
        invariant forall k :: i <= k < |cal| ==> r[k] == cal[k]
        invariant readHorizon == Raised(cal[..i], bank, from, delta, Leaving, old(readHorizon))
        invariant readActHorizon == if act then Raised(cal[..i], bank, from, delta, Leaving, old(readActHorizon))
                                    else old(readActHorizon)
        invariant readColHorizon == if act then old(readColHorizon)
                                    else Raised(cal[..i], bank, from, delta, ReadColumn, old(readColHorizon))
      {
        assert cal[..i + 1][..i] == cal[..i];
        if cal[i].bank == bank && from <= cal[i].t {
          var t := cal[i].t + delta;
          r := r[i := cal[i].(t := t)];
          moved := true;
          RaiseFor(cal[i], t, act);
        }
      }
      assert cal[..|cal|] == cal;
    }

    /** The same, with the calendar sorted again if anything moved. */
    method ShiftBank(cal: seq<Command>, bank: int, from: int, delta: int, act: bool) returns (r: seq<Command>)
      requires Sorted(cal)
      modifies this`readHorizon, this`readColHorizon, this`readActHorizon
      ensures r == StableSort(Shifted(cal, bank, from, delta))
      ensures readHorizon == Raised(cal, bank, from, delta, Leaving, old(readHorizon))
      ensures readActHorizon == if act then Raised(cal, bank, from, delta, Leaving, old(readActHorizon))
                                else old(readActHorizon)
      ensures readColHorizon == if act then old(readColHorizon)
                                else Raised(cal, bank, from, delta, ReadColumn, old(readColHorizon))
    {
      var moved;
      r, moved := ShiftEntries(cal, bank, from, delta, act);
      if moved {
        r := StableSort(r);
      } else {
        StableSortIdentity(r);
      }
    }

    method ExtendWindowAt(bank: nat, j: nat, col: int)
      requires Usable() && bank < |banks| && j < |banks[bank].windows|
      modifies this`banks, this`cols, this`acts, this`readHorizon, this`readColHorizon, this`readActHorizon
      ensures TL() == ExtendWindow(cfg, old(TL()), bank, j, col)
    {
      hide Raised, StableSort, Shifted, Extended;
      var b := banks[bank];
      var w := b.windows[j];
      if (cfg.hitExtend == 2 && w.writeClose) || w.pre.Never? { return; }
      var from := w.pre.cycle;
      var delta := col + cfg.tRTP + cfg.preWait - from;
      if delta <= 0 { return; }
      ExtendBank(bank, j, delta);
      cols := ShiftBank(cols, bank, from, delta, false);
      acts := ShiftBank(acts, bank, from, delta, true);
    }

    /** Close window j later by `delta` and move the bank's later windows and limits with it. */
    method ExtendBank(bank: nat, j: nat, delta: int)
      requires bank < |banks| && j < |banks[bank].windows| && banks[bank].windows[j].pre.At?
      modifies this`banks
      ensures banks == old(banks)[bank := Extended(old(banks)[bank], j, delta)]
    {
      var b := banks[bank];
      var w := b.windows[j];
      var from := w.pre.cycle;
      var ws := b.windows[j := w.(pre := At(from + delta))];
      for k := j + 1 to |ws|
        invariant |ws| == |b.windows|
        invariant forall i :: 0 <= i < k ==> ws[i] == Extended(b, j, delta).windows[i]
        invariant forall i :: k <= i < |ws| ==> ws[i] == b.windows[i]
      {
        ws := ws[k := ShiftWindow(ws[k], delta)];
      }
      assert ws == Extended(b, j, delta).windows;
      banks := banks[bank := b.(windows := ws, actOk := ShiftFrom(b.actOk, from, delta),
                                preOk := ShiftFrom(b.preOk, from, delta), colOk := ShiftFrom(b.colOk, from, delta))];
    }

    // ----- Booking -----

    method PlanOpening(b: Bank, bg: int, row: int, earliest: int) returns (out: Booking)
      requires Usable()
      ensures out == PlanOpen(cfg, acts, b, bg, row, earliest)
    {
      out := Booking(0, 0, 0, false, false);
      if b.row == row { return; }
      var ready := Max(earliest, b.actOk);
      if 0 <= b.row {
        var pre := Max(earliest, b.preOk + (if b.preAfterWrite then 0 else cfg.preWait));
        out := out.(first := pre);
        ready := Max(ready, pre + cfg.tRP + cfg.rpAdjust);
      }
      var leave := FindActSlot(ready, bg);
      out := out.(opens := true, leave := leave, first := if b.row < 0 then leave else out.first);
    }

    method OpenRowAt(bank: nat, bg: int, row: int, plan: Booking, read: bool)
      requires Usable() && bank < |banks|
      modifies this`banks, this`acts
      ensures TL() == OpenRow(cfg, old(TL()), bank, bg, row, plan, read)
    {
      var b := banks[bank];
      var ws := b.windows;
      if 0 <= b.row && ws != [] {
        ws := ws[|ws| - 1 := Last(ws).(pre := At(plan.first), writeClose := !read)];
      }
      ws := ws + [Window(row, plan.leave, Never, false)];
      if |ws| > 8 { ws := ws[1..]; }
      banks := banks[bank := Bank(row, plan.leave + cfg.tRC, plan.leave + cfg.tRAS, false, plan.leave + cfg.tRCD, ws)];
      var k := UpperBound(acts, plan.leave);
      acts := InsertAt(acts, k, Command(plan.leave, bg, false, bank, read));
    }

    method FinishColumnAt(bank: nat, bg: int, write: bool, col: int, leaves: bool, active: bool)
      requires Usable() && bank < |banks|
      modifies this`banks, this`cols, this`acts, this`readHorizon, this`readColHorizon, this`readActHorizon
      ensures TL() == FinishColumn(cfg, old(TL()), bank, bg, write, col, leaves, active)
    {
      var b := banks[bank];
      var pre := if write then col + cfg.tCWL + cfg.tBL + cfg.tWR else col + cfg.tRTP;
      var b' := b.(colOk := Max(b.colOk, col));
      if b.preOk <= pre {
        b' := b'.(preOk := pre, preAfterWrite := write);
      }
      banks := banks[bank := b'];
      assert b' == Used(cfg, b, write, col);
      if active {
        Place(Command(col, bg, false, bank, false), true);
      } else {
        Place(Command(col, bg, write, bank, leaves && !write), false);
      }
    }

    /** The newest window of `row` still open when the access can issue. */
    method SearchWindows(b: Bank, bg: int, row: int, write: bool, earliest: int) returns (h: Hit)
      requires Usable()
      ensures h == WindowHit(cfg, cols, b, bg, row, write, earliest)
    {
      h := NoHit;
      if !cfg.hitWindows || b.row == row { return; }
      var n := |b.windows|;
      while 0 < n
        invariant 0 <= n <= |b.windows|
        invariant FindHit(cfg, cols, b.windows, n, bg, row, write, earliest)
                  == FindHit(cfg, cols, b.windows, |b.windows|, bg, row, write, earliest)
      {
        var w := b.windows[n - 1];
        if ClosedBy(w, earliest) { return; }
        if w.row == row {
          var col := FindColSlot(Max(earliest, w.act + cfg.tRCD), bg, write, false);
          if !ClosedBy(w, col) { h := HitAt(n - 1, col); }
          return;
        }
        n := n - 1;
      }
    }

    /** Where an access goes: inside an earlier window, on the open row, or on a newly opened one. */
    method PlanAccess(bank: nat, bg: int, row: nat, write: bool, earliest: int) returns (h: Hit, out: Booking)
      requires Usable() && bank < |banks|
      ensures h == WindowHit(cfg, cols, banks[bank], bg, row, write, earliest)
      ensures out == PlanBook(cfg, TL(), bank, bg, row, write, earliest)
    {
      var b := banks[bank];
      h := SearchWindows(b, bg, row, write, earliest);
      if h.HitAt? {
        out := Booking(h.column, h.column, h.column, false, true);
        return;
      }
      out := PlanOpening(b, bg, row, earliest);
      var ready := if out.opens then out.leave + cfg.tRCD else Max(earliest, b.colOk);
      var col := FindColSlot(ready, bg, write, cfg.activeFirst && out.opens && !write);
      out := if out.opens then out.(column := col) else Booking(col, col, col, false, false);
    }

    /** Place one access. A probe (`commit` false) changes nothing and returns the same booking a
        commitment would make. */
    method Book(bank: nat, bg: int, row: nat, write: bool, earliest: int, commit: bool) returns (out: Booking)
      requires Valid() && bank < |banks| && (write ==> cfg.modelWrites)
      modifies this`banks, this`cols, this`acts, this`readHorizon, this`readColHorizon, this`readActHorizon
      ensures out == PlanBook(cfg, old(TL()), bank, bg, row, write, earliest)
      ensures TL() == if commit then ApplyBook(cfg, old(TL()), bank, bg, row, write, earliest) else old(TL())
    {
      var h;
      h, out := PlanAccess(bank, bg, row, write, earliest);
      if commit {
        if h.HitAt? {
          CommitHit(h, bank, bg, row, write, earliest);
        } else {
          CommitOpen(out, bank, bg, row, write, earliest);
        }
      }
    }

    method CommitOpen(out: Booking, bank: nat, bg: int, row: nat, write: bool, earliest: int)
      requires Valid() && bank < |banks| && out == PlanBook(cfg, TL(), bank, bg, row, write, earliest)
      requires WindowHit(cfg, cols, banks[bank], bg, row, write, earliest).NoHit?
      modifies this`banks, this`cols, this`acts, this`readHorizon, this`readColHorizon, this`readActHorizon
      ensures TL() == ApplyBook(cfg, old(TL()), bank, bg, row, write, earliest)
    {
      PlanColumnLegal(cfg, TL(), bank, bg, row, write, earliest);
      if out.opens {
        OpenRowOk(cfg, TL(), bank, bg, row, earliest, !write);
        OpenRowAt(bank, bg, row, out, !write);
      }
      FinishColumnAt(bank, bg, write, out.column, !out.opens, cfg.activeFirst && out.opens && !write);
    }

    method CommitHit(h: Hit, bank: nat, bg: int, row: nat, write: bool, earliest: int)
      requires Valid() && bank < |banks| && (write ==> cfg.modelWrites)
      requires h.HitAt? && h == WindowHit(cfg, cols, banks[bank], bg, row, write, earliest)
      modifies this`banks, this`cols, this`acts, this`readHorizon, this`readColHorizon, this`readActHorizon
      ensures TL() == ApplyBook(cfg, old(TL()), bank, bg, row, write, earliest)
    {
      FindHitIssuesInWindow(cfg, cols, banks[bank].windows, |banks[bank].windows|, bg, row, write, earliest);
      var c := Command(h.column, bg, write, bank, !write);
      PlaceColumnOk(cfg, TL(), c, false);
      Place(c, false);
      if cfg.hitExtend > 0 && !write {
        ExtendWindowAt(bank, h.index, h.column);
      }
    }

    /** The window open at the drain's trigger that makes w a row hit, or -1. */
    method SearchTrigger(b: Bank, w: PendingWrite) returns (j: int)
      ensures j == TriggerHit(b, w, hitTime)
    {
      if hitTime < 0 || b.row == w.row { return -1; }
      var n := |b.windows|;
      while 0 < n && hitTime < b.windows[n - 1].act
        invariant 0 <= n <= |b.windows|
        invariant WindowAt(b.windows, n, hitTime) == WindowAt(b.windows, |b.windows|, hitTime)
      {
        n := n - 1;
      }
      j := if 0 < n && !ClosedBy(b.windows[n - 1], hitTime) && b.windows[n - 1].row == w.row then n - 1 else -1;
    }

    /** Place a buffered write; during a swapped forced drain a write whose row was open at the
        trigger only takes a column slot. */
    method BookWrite(w: PendingWrite, from: int, commit: bool) returns (out: Booking)
      requires Valid() && cfg.modelWrites && WriteOk(w, |banks|)
      modifies this`banks, this`cols, this`acts, this`readHorizon, this`readColHorizon, this`readActHorizon
      ensures out == PlanWrite(cfg, old(TL()), w, hitTime, from)
      ensures TL() == if commit then ApplyWrite(cfg, old(TL()), w, hitTime, from) else old(TL())
    {
      hide PlanBook, ApplyBook, ColSlot;
      var earliest := Max(from, w.arrive + 1);
      var j := SearchTrigger(banks[w.bank], w);
      if 0 <= j {
        out := BookTriggerHit(w, Max(earliest, banks[w.bank].windows[j].act + cfg.tRCD), commit);
      } else {
        out := Book(w.bank, w.bankGroup, w.row, true, earliest, commit);
      }
    }

    /** A write whose row was open at the trigger: a WR slot and nothing on the bank. */
    method BookTriggerHit(w: PendingWrite, ready: int, commit: bool) returns (out: Booking)
      requires Usable() && WriteOk(w, |banks|)
      modifies this`cols
      ensures var col := ColSlot(cfg, old(cols), ready, w.bankGroup, true, false);
              && out == Booking(col, col, col, false, true)
              && cols == if commit then Insert(old(cols), Command(col, w.bankGroup, true, w.bank, false)) else old(cols)
    {
      hide ColSlot;
      var col := FindColSlot(ready, w.bankGroup, true, false);
      out := Booking(col, col, col, false, true);
      if commit {
        var k := UpperBound(cols, col);
        cols := InsertAt(cols, k, Command(col, w.bankGroup, true, w.bank, false));
      }
    }

    // ----- The write buffer -----

    method CommitWriteAt(i: nat, from: int) returns (out: Booking)
      requires Valid() && i < |wq|
      modifies this
      ensures out == Plan(cfg, old(S()), i, from)
      ensures S() == CommitWrite(cfg, old(S()), i, from)
    {
      hide ApplyWrite, PlanWrite;
      ghost var s := S();
      var w := wq[i];
      out := BookWrite(w, from, true);
      wq := wq[..i] + wq[i + 1..];
      booked := booked + [BookedWrite(w, out)];
      assert S() == CommitWrite(cfg, s, i, from);
    }

    /** Probe every buffered write and return the one that can start earliest. */
    method PickWrite(from: int) returns (pick: nat, best: Booking)
      requires Valid() && wq != []
      modifies this`banks, this`cols, this`acts, this`readHorizon, this`readColHorizon, this`readActHorizon
      ensures TL() == old(TL())
      ensures pick == Pick(cfg, old(S()), from, |wq|) && best == Plan(cfg, old(S()), pick, from)
    {
      hide PlanWrite, TimelineOk, ApplyWrite, WritesConserved;
      ghost var s := S();
      pick, best := 0, Booking(0, 0, 0, false, false);
      for i := 0 to |wq|
        invariant S() == s
        invariant 0 < i ==> pick == Pick(cfg, s, from, i) && best == Plan(cfg, s, pick, from)
      {
        var pk := BookWrite(wq[i], from, false);
        if i == 0 || pk.first < best.first {
          pick, best := i, pk;
        }
      }
    }

    method PrechargeBank(bank: nat, pre: int)
      requires bank < |banks|
      modifies this`banks
      ensures TL() == Precharge(cfg, old(TL()), bank, pre)
    {
      var b := banks[bank];
      var ws := b.windows;
      if 0 <= b.row && ws != [] {
        ws := ws[|ws| - 1 := Last(ws).(pre := At(pre), writeClose := true)];
      }
      banks := banks[bank := b.(row := -1, actOk := Max(b.actOk, pre + cfg.tRP + cfg.rpAdjust), windows := ws)];
    }

    /** One command of write mode (see Next). */
    method IssueNext(until: int) returns (idle: bool)
      requires Valid() && wq != []
      modifies this
      ensures idle == (until <= Best(cfg, old(S())).first)
      ensures S() == if idle then old(S()) else Next(cfg, old(S()), until)
    {
      hide Pick, CommitWrite, Precharge;
      var pick, best := PickWrite(drainStart);
      idle := until <= best.first;
      if idle { return; }
      if best.leave < until {
        var _ := CommitWriteAt(pick, drainStart);
      } else {
        PrechargeBank(wq[pick].bank, best.first);
      }
    }

    method LeaveWriteMode()
      modifies this`writeMode, this`forced, this`hitTime
      ensures S() == Leave(old(S()))
    {
      writeMode, forced, hitTime := false, false, -1;
    }

    /** Enter write mode when the read queue has emptied before `until`. */
    method EnterWriteMode(until: int) returns (entered: bool)
      requires wq != []
      modifies this`writeMode, this`forced, this`drainStart, this`hitTime
      ensures entered == (old(writeMode) || EntryTime(old(S())) < until)
      ensures S() == if entered then Entered(old(S())) else old(S())
    {
      entered := writeMode;
      if !writeMode {
        var start := Max(readHorizon + 1, wq[0].arrive + 1);
        if start < until {
          writeMode, forced, drainStart, hitTime, entered := true, false, start, -1, true;
        }
      }
    }

    /** One round of the replay: it returns for good, or gets closer to the end. */
    method AdvanceRound(until: int, pending: nat) returns (stop: bool)
      requires Valid() && wq != []
      modifies this
      ensures stop ==> S() == Advance(cfg, old(S()), until, pending)
      ensures !stop ==>
                && StateOk(cfg, S()) && Advance(cfg, S(), until, pending) == Advance(cfg, old(S()), until, pending)
                && Closer(S(), old(S()))
    {
      hide Best, Next;
      ghost var s := S();
      var entered := EnterWriteMode(until);
      if !entered { return true; }
      ghost var e := Entered(s);
      assert StateOk(cfg, e);
      if forced && |wq| + pending < cfg.wqLow && forcedAt < readHorizon {
        LeaveWriteMode();
        assert S() == Leave(e);
        return false;
      }
      stop := IssueNext(until);
      if !stop {
        NextOk(cfg, e, until);
        assert S() == Next(cfg, e, until);
      }
    }

    /** Replay the write-mode policy up to `now`. The loop ends because each round returns, books a
        buffered write, closes an open row, or clears `forced`. */
    method AdvanceTo(now: int, pending: nat)
      requires Valid()
      modifies this
      ensures S() == Advance(cfg, old(S()), Until(cfg, now), pending)
    {
      var until := if cfg.sameCycleWrites then now + 1 else now;
      ghost var s := S();
      while wq != []
        invariant S() == s && StateOk(cfg, s)
        invariant Advance(cfg, s, until, pending) == Advance(cfg, old(S()), until, pending)
        decreases |s.wq|, OpenRows(s.tl.banks), s.forced
      {
        var stop := AdvanceRound(until, pending);
        if stop { return; }
        s := S();
      }
      LeaveWriteMode();
    }

    /** A read ends write mode: drain to the low mark, counting the writebacks still expected. */
    method DrainBeforeRead(now: int, estimate: nat) returns (earliest: int)
      requires Valid() && writeMode
      modifies this
      ensures S() == DrainForRead(cfg, old(S()), now, estimate).0
      ensures earliest == DrainForRead(cfg, old(S()), now, estimate).1
    {
      hide DrainDown, StateOk, LatestLeave;
      var shift := if forced then Max(0, drainStart - forcedAt - 1) else 0;
      var expected: nat := if forced || cfg.wqLow <= |wq| then Capped(cfg, estimate) else 0;
      var exit, drained := DrainToLowMark(now, expected);
      earliest := SettleDrain(now, drained, exit, shift);
    }

    /** Record a booked drain's end and leave write mode. */
    method SettleDrain(now: int, drained: bool, exit: int, shift: int) returns (earliest: int)
      modifies this`drainExit, this`drainShift, this`writeMode, this`forced, this`hitTime
      ensures S() == Leave(if drained then old(S()).(drainExit := exit, drainShift := shift) else old(S()))
      ensures earliest == if drained then Max(now + 1, DrainWait(cfg, drainExit, drainShift, now)) else now + 1
    {
      earliest := now + 1;
      if drained {
        drainExit, drainShift := exit, shift;
        earliest := Max(earliest, DrainWait(cfg, drainExit, drainShift, now));
      }
      LeaveWriteMode();
    }

    method FinishWriteMode(now: int, estimate: nat) returns (earliest: int)
      requires Valid()
      modifies this
      ensures S() == EndWriteMode(cfg, old(S()), now, estimate).0
      ensures earliest == EndWriteMode(cfg, old(S()), now, estimate).1
    {
      if writeMode {
        earliest := DrainBeforeRead(now, estimate);
      } else if 1 <= cfg.drainBlock && now <= drainExit {
        earliest := Max(now + 1, DrainWait(cfg, drainExit, drainShift, now));
      } else {
        earliest := now + 1;
      }
    }

    method DrainToLowMark(now: int, expected: nat) returns (exit: int, drained: bool)
      requires Valid()
      modifies this
      ensures S() == DrainDown(cfg, old(S()), expected)
      ensures drained == StillAbove(cfg, old(S()), expected)
      ensures exit == LatestLeave(booked, |old(booked)|, now)
    {
      exit, drained := now, false;
      ghost var s, done := S(), booked;
      while wq != [] && cfg.wqLow <= |wq| + expected
        invariant S() == s && StateOk(cfg, s) && done <= s.booked
        invariant DrainDown(cfg, s, expected) == DrainDown(cfg, old(S()), expected)
        invariant exit == LatestLeave(s.booked, |done|, now)
        invariant if drained then StillAbove(cfg, old(S()), expected) else s == old(S())
        decreases |s.wq|
      {
        var out := DrainEarliest();
        exit, drained := Max(exit, out.leave), true;
        ghost var i := Pick(cfg, s, s.drainStart, |s.wq|);
        CommitWriteOk(cfg, s, i, s.drainStart);
        LatestLeaveAppend(s.booked, BookedWrite(s.wq[i], out), |done|, now);
        s := CommitWrite(cfg, s, i, s.drainStart);
      }
    }

    lemma {:induction false} LatestLeaveAppend(a: seq<BookedWrite>, x: BookedWrite, k: nat, floor: int)
      requires k <= |a|
      ensures LatestLeave(a + [x], k, floor) == Max(LatestLeave(a, k, floor), x.plan.leave)
    {
      assert (a + [x])[..|a|] == a;
    }

    /** Drain the buffered write that can start earliest. */
    method DrainEarliest() returns (out: Booking)
      requires Valid() && wq != []
      modifies this
      ensures S() == DrainOne(cfg, old(S()), old(drainStart))
      ensures out == Plan(cfg, old(S()), Pick(cfg, old(S()), old(drainStart), |old(wq)|), old(drainStart))
    {
      ghost var s := S();
      var pick, _ := PickWrite(drainStart);
      assert S() == s;
      out := CommitWriteAt(pick, drainStart);
    }

    // ----- Reads -----

    /** The first buffered write that would issue before the read's RD and before the next read. */
    method FindOverlapping(from: int, rd: int, nextRead: int) returns (i: nat)
      requires Valid()
      modifies this`banks, this`cols, this`acts, this`readHorizon, this`readColHorizon, this`readActHorizon
      ensures TL() == old(TL())
      ensures i == Overlapping(cfg, old(S()), from, rd, nextRead, 0)
    {
      hide Overlaps;
      ghost var s := S();
      i := 0;
      while i < |wq|
        invariant S() == s && 0 <= i <= |wq|
        invariant Overlapping(cfg, s, from, rd, nextRead, i) == Overlapping(cfg, s, from, rd, nextRead, 0)
      {
        var found := ProbeOverlap(i, from, rd, nextRead);
        if found { return; }
        i := i + 1;
      }
    }

    /** Whether buffered write i would issue before the read's RD and before the next read. */
    method ProbeOverlap(i: nat, from: int, rd: int, nextRead: int) returns (r: bool)
      requires Valid() && i < |wq|
      modifies this`banks, this`cols, this`acts, this`readHorizon, this`readColHorizon, this`readActHorizon
      ensures TL() == old(TL()) && r == Overlaps(cfg, old(S()), from, rd, nextRead, i)
    {
      var pk := BookWrite(wq[i], from, false);
      r := pk.column < rd && pk.first < nextRead;
    }

    /** Drain writes while an activated read waits for tRCD; returns the read's RD. */
    method StarveRead(act: int, ready: int, bg: int, nextRead: int) returns (rd: int)
      requires Valid()
      modifies this
      ensures S() == Starve(cfg, old(S()), act, ready, bg, nextRead)
      ensures Valid() && |banks| == |old(banks)| && rd == ReadSlot(cfg, S(), ready, bg)
    {
      ghost var s := S();
      rd := FindColSlot(ready, bg, false, cfg.activeFirst);
      var progress := true;
      while progress
        invariant S() == s && StateOk(cfg, s) && rd == ReadSlot(cfg, s, ready, bg)
        invariant Starve(cfg, s, act, ready, bg, nextRead) == Starve(cfg, old(S()), act, ready, bg, nextRead)
        invariant !progress ==> Overlapping(cfg, s, act + 1, rd, nextRead, 0) == |s.wq|
        decreases |s.wq|, progress
      {
        progress := StarveRound(act, rd, nextRead);
        s := S();
        if progress {
          rd := FindColSlot(ready, bg, false, cfg.activeFirst);
        }
      }
    }

    method StarveRound(act: int, rd: int, nextRead: int) returns (progress: bool)
      requires Valid()
      modifies this
      ensures var i := Overlapping(cfg, old(S()), act + 1, rd, nextRead, 0);
              && progress == (i < |old(wq)|)
              && S() == (if progress then CommitWrite(cfg, old(S()), i, act + 1) else old(S()))
              && StateOk(cfg, S()) && (progress ==> |wq| < |old(wq)|)
    {
      ghost var s := S();
      var i := FindOverlapping(act + 1, rd, nextRead);
      progress := i < |wq|;
      if progress {
        CommitWriteOk(cfg, s, i, act + 1);
        var _ := CommitWriteAt(i, act + 1);
      }
    }

    /** The read's row is already open (state o): drain overlapping writes, then place its RD. */
    method BookStarvedRead(q: Request, act: int) returns (rd: int, ghost d: State)
      requires Valid() && q.bank < |banks|
      modifies this
      ensures d == Starve(cfg, old(S()), act, act + cfg.tRCD, q.bankGroup, q.nextRead)
      ensures StateOk(cfg, d) && |d.tl.banks| == |old(banks)| && rd == ReadSlot(cfg, d, act + cfg.tRCD, q.bankGroup)
      ensures S() == FinishRead(cfg, d, q.bank, q.bankGroup, act + cfg.tRCD)
    {
      hide Starve, FinishRead, StateOk;
      rd := StarveRead(act, act + cfg.tRCD, q.bankGroup, q.nextRead);
      d := S();
      PlaceStarvedRead(q.bank, q.bankGroup, act + cfg.tRCD, rd);
    }

    method PlaceStarvedRead(bank: nat, bg: int, ready: int, rd: int)
      requires Valid() && bank < |banks| && rd == ReadSlot(cfg, S(), ready, bg)
      modifies this
      ensures S() == FinishRead(cfg, old(S()), bank, bg, ready)
    {
      hide FinishColumn, ColSlot;
      FinishColumnAt(bank, bg, false, rd, false, cfg.activeFirst);
    }

    method OpenAndStarve(ghost o: State, q: Request, plan: Booking) returns (rd: int)
      requires Usable() && q.bank < |banks| && o == OpenForRead(cfg, S(), q, plan) && StateOk(cfg, o)
      modifies this
      ensures S() == StarvedState(cfg, o, q, plan.leave) && rd == StarvedSlot(cfg, o, q, plan.leave)
    {
      hide Starve, FinishRead, StateOk;
      OpenRowAt(q.bank, q.bankGroup, q.row, plan, true);
      ghost var d;
      rd, d := BookStarvedRead(q, plan.leave);
    }

    method BookReadAt(q: Request, earliest: int) returns (b: Booking)
      requires Valid() && q.bank < |banks|
      modifies this
      ensures S() == BookRead(cfg, old(S()), q, earliest).0
      ensures b == BookRead(cfg, old(S()), q, earliest).1
    {
      hide StarvedState, StarvedSlot, PlanBook, ApplyBook, OpenForRead;
      ghost var s := S();
      b := Book(q.bank, q.bankGroup, q.row, false, earliest, false);
      assert S() == s;
      if b.opens && cfg.starveReads && cfg.modelWrites && wq != [] && readHorizon <= b.leave < q.nextRead {
        OpenForReadOk(cfg, s, q, earliest);
        var rd := OpenAndStarve(OpenForRead(cfg, s, q, b), q, b);
        b := b.(column := rd);
      } else {
        b := Book(q.bank, q.bankGroup, q.row, false, earliest, true);
      }
    }

    // ----- One admission -----

    method PruneCalendars(now: int)
      requires Usable()
      modifies this`cols, this`acts
      ensures S() == Prune(cfg, old(S()), now)
    {
      var k := LowerBound(cols, now - (cfg.MaxColGap() + 1));
      cols := cols[k..];
      var j := LowerBound(acts, now - (cfg.MaxActGap() + 1));
      acts := acts[j..];
    }

    /** When a forced drain starts: behind the reads it freezes, as configured. */
    method FindForcedStart(now: int) returns (start: int)
      ensures start == ForcedStart(cfg, TL(), now)
    {
      start := now + 1;
      if now < readHorizon {
        if cfg.drainAfterReads == 1 { start := Max(start, readColHorizon + 1); }
        if cfg.drainAfterReads == 2 { start := Max(start, readHorizon + 1); }
        if cfg.drainAfterReads == 3 { start := Max(start, readActHorizon + 1); }
      }
    }

    method ForceDrain(now: int, start: int)
      modifies this`writeMode, this`forced, this`forcedAt, this`drainStart, this`hitTime
      ensures S() == Force(cfg, old(S()), now, start)
    {
      writeMode, forced, forcedAt, drainStart := true, true, now, start;
      hitTime := if cfg.triggerHits && now + 1 < start then now + 1 else -1;
    }

    method BufferWrite(q: Request)
      modifies this`wq, this`admitted, this`writeMode, this`forced, this`forcedAt, this`drainStart, this`hitTime
      ensures S() == Buffer(cfg, old(S()), q)
    {
      wq, admitted := wq + [Pending(q)], admitted + [Pending(q)];
      if cfg.wqHigh <= |wq| && !(writeMode && forced) {
        var start := FindForcedStart(q.now);
        ForceDrain(q.now, start);
      }
    }

    method IsForwarded(address: int) returns (r: bool)
      ensures r == Forwarded(S(), address)
    {
      r := false;
      for i := 0 to |wq|
        invariant r == exists j :: 0 <= j < i && wq[j].address == address
      {
        r := r || wq[i].address == address;
      }
    }

    method PredictRead(q: Request) returns (done: int)
      requires Valid() && q.bank < |banks|
      modifies this
      ensures S() == ServeRead(cfg, old(S()), q).0 && done == ServeRead(cfg, old(S()), q).1
    {
      hide EndWriteMode, BookRead, StateOk;
      ghost var (e, from) := EndWriteMode(cfg, S(), q.now, q.drainEstimate);
      var earliest := FinishWriteMode(q.now, q.drainEstimate);
      assert S() == e;
      var b := BookReadAt(q, earliest);
      readHorizon := Max(readHorizon, b.leave);
      readColHorizon := Max(readColHorizon, b.column);
      if b.opens {
        readActHorizon := Max(readActHorizon, b.leave);
      }
      done := b.column + cfg.readLatency;
    }

    /** Bring the timeline up to an access's admission. */
    method CatchUpTo(q: Request)
      requires Valid()
      modifies this
      ensures S() == CatchUp(cfg, old(S()), q)
    {
      PruneOk(cfg, S(), q.now);
      PruneCalendars(q.now);
      if cfg.modelWrites {
        AdvanceTo(q.now, Capped(cfg, q.replayEstimate));
      }
    }

    /** Admit one access and return its completion time. */
    method Admit(q: Request) returns (done: int)
      requires Valid() && q.bank < |banks|
      modifies this
      ensures S() == Predict(cfg, old(S()), q).0 && done == Predict(cfg, old(S()), q).1
    {
      ghost var a := CatchUp(cfg, S(), q);
      CatchUpTo(q);
      assert S() == a;
      if q.write {
        if cfg.modelWrites {
          BufferWrite(q);
        }
        return q.now + cfg.writeAck;
      }
      var hit := IsForwarded(q.address);
      if cfg.modelWrites && hit { return q.now + cfg.forwardLatency; }
      done := PredictRead(q);
    }

    /** Admit the next access of a sequence. */
    method AdmitNext(ghost n: nat, qs: seq<Request>, i: nat) returns (done: int)
      requires cfg.Ok() && RequestsFor(qs, n) && i < |qs| && |banks| == n && S() == Run(cfg, n, qs[..i])
      modifies this
      ensures |banks| == n && S() == Run(cfg, n, qs[..i + 1])
      ensures Completions(cfg, n, qs[..i + 1]) == Completions(cfg, n, qs[..i]) + [done]
    {
      hide Completions, Run, Predict, StateOk;
      RunStep(cfg, n, qs, i);
      done := Admit(qs[i]);
    }

    /** Admit a whole sequence from power-up. */
    method AdmitAll(qs: seq<Request>) returns (done: seq<int>)
      requires cfg.Ok() && S() == Initial(|banks|) && RequestsFor(qs, |banks|)
      modifies this
      ensures S() == Run(cfg, |old(banks)|, qs) && done == Completions(cfg, |old(banks)|, qs)
    {
      hide Run, Completions, StateOk;
      done := [];
      ghost var n := |banks|;
      RunStart(cfg, n, qs);
      for i := 0 to |qs|
        invariant |banks| == n && S() == Run(cfg, n, qs[..i]) && done == Completions(cfg, n, qs[..i])
      {
        var d := AdmitNext(n, qs, i);
        done := done + [d];
      }
      assert qs[..|qs|] == qs;
    }
  }
}
