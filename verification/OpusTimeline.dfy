/** The reservation timeline as a value: what booking one access reads and changes. */
module OpusTimeline {
  import opened Basics
  import opened OpusTypes
  import opened OpusCalendar
  import opened OpusSlots
  import opened OpusSlip
  import opened OpusBanks

  datatype Timeline = Timeline(
    banks: seq<Bank>, cols: seq<Command>, acts: seq<Command>,
    readHorizon: int,     // latest time a booked read leaves the read queue
    readColHorizon: int,  // latest booked read column command
    readActHorizon: int   // latest booked read ACT
  )

  predicate BanksKnown(cal: seq<Command>, n: nat) {
    forall i :: 0 <= i < |cal| ==> 0 <= cal[i].bank < n
  }

  /** Settings under which nothing already booked is ever moved. */
  predicate Fixed(cfg: Config) {
    cfg.hitExtend <= 0 && !cfg.colSlip && !cfg.activeFirst
  }

  /** Read-only settings under which every squeezed read is slipped to full spacing. */
  predicate Conserving(cfg: Config) {
    && !cfg.modelWrites && cfg.hitExtend <= 0 && cfg.tCCDL <= 2 * cfg.tCCDS
    && (cfg.colSlip || cfg.colSqueeze == 0)
  }

  predicate ColumnsOk(cfg: Config, cols: seq<Command>) {
    && Sorted(cols)
    && (Fixed(cfg) ==> ColsSpaced(cfg, cols))
    && (!cfg.modelWrites ==> ReadsOnly(cols))
    && (Conserving(cfg) ==> FullySpaced(cfg, cols))
  }

  predicate ActsOk(cfg: Config, acts: seq<Command>) {
    Sorted(acts) && (cfg.hitExtend <= 0 ==> ActsSpaced(cfg, acts))
  }

  predicate BanksOk(cfg: Config, banks: seq<Bank>) {
    forall i :: 0 <= i < |banks| ==> BankOk(cfg, banks[i])
  }

  predicate Known(tl: Timeline) {
    BanksKnown(tl.cols, |tl.banks|) && BanksKnown(tl.acts, |tl.banks|)
  }

  /** Everything a run keeps about the timeline. */
  predicate TimelineOk(cfg: Config, tl: Timeline) {
    && BanksOk(cfg, tl.banks) && Known(tl)
    && ColumnsOk(cfg, tl.cols) && ActsOk(cfg, tl.acts)
  }

  // ----- Slipping -----

  function SlipOne(cfg: Config, tl: Timeline, k: nat, need: int): Timeline
    requires k < |tl.cols| && BanksKnown(tl.cols, |tl.banks|)
  {
    var c := tl.cols[k];
    tl.(cols := tl.cols[k := c.(t := need)],
        readColHorizon := Max(tl.readColHorizon, need),
        banks := if cfg.slipSync then tl.banks[c.bank := Delayed(cfg, tl.banks[c.bank], need)] else tl.banks,
        readHorizon := if cfg.slipSync && c.leaves then Max(tl.readHorizon, need) else tl.readHorizon)
  }

  function SlipLoop(cfg: Config, tl: Timeline, k: nat): (r: Timeline)
    requires BanksKnown(tl.cols, |tl.banks|)
    ensures |r.banks| == |tl.banks| && r.acts == tl.acts && r.readActHorizon == tl.readActHorizon
    ensures r.cols == Slipped(cfg, tl.cols, k)
    decreases |tl.cols| - k
  {
    if k >= |tl.cols| || tl.cols[k].write || Need(cfg, tl.cols, k) == tl.cols[k].t then tl
    else SlipLoop(cfg, SlipOne(cfg, tl, k, Need(cfg, tl.cols, k)), k + 1)
  }

  function SlipFrom(cfg: Config, tl: Timeline, k: nat): Timeline
    requires BanksKnown(tl.cols, |tl.banks|)
  {
    var r := SlipLoop(cfg, tl, k);
    r.(cols := StableSort(r.cols))
  }

  function SlipAfter(cfg: Config, tl: Timeline, t: int): Timeline
    requires BanksKnown(tl.cols, |tl.banks|)
  {
    if !cfg.colSlip || cfg.colSqueeze == 0 then tl else SlipFrom(cfg, tl, UpperIndex(tl.cols, t))
  }

  // ----- Window extension -----

  function Shifted(cal: seq<Command>, bank: int, from: int, delta: int): (r: seq<Command>)
    ensures |r| == |cal|
    ensures Keys(r) == Keys(cal)
  {
    var r := seq(|cal|, i requires 0 <= i < |cal| =>
      if cal[i].bank == bank && from <= cal[i].t then cal[i].(t := cal[i].t + delta) else cal[i]);
    assert Keys(r) == Keys(cal);
    r
  }

  datatype Tracked = Leaving | ReadColumn

  predicate Counts(c: Command, what: Tracked) {
    match what
    case Leaving => c.leaves
    case ReadColumn => !c.write
  }

  /** A horizon raised by the tracked commands of `bank` that move. */
  function Raised(cal: seq<Command>, bank: int, from: int, delta: int, what: Tracked, horizon: int): int {
    if cal == [] then horizon
    else
      var c, r := cal[|cal| - 1], Raised(cal[..|cal| - 1], bank, from, delta, what, horizon);
      if c.bank == bank && from <= c.t && Counts(c, what) then Max(r, c.t + delta) else r
  }

  function ExtendWindow(cfg: Config, tl: Timeline, bank: nat, j: nat, col: int): Timeline
    requires bank < |tl.banks| && j < |tl.banks[bank].windows|
  {
    var b := tl.banks[bank];
    var delta := Extension(cfg, b.windows[j], col);
    if delta == 0 then tl
    else
      var from := b.windows[j].pre.cycle;
      tl.(banks := tl.banks[bank := Extended(b, j, delta)],
          cols := StableSort(Shifted(tl.cols, bank, from, delta)),
          acts := StableSort(Shifted(tl.acts, bank, from, delta)),
          readHorizon := Raised(tl.acts, bank, from, delta, Leaving,
                                Raised(tl.cols, bank, from, delta, Leaving, tl.readHorizon)),
          readColHorizon := Raised(tl.cols, bank, from, delta, ReadColumn, tl.readColHorizon),
          readActHorizon := Raised(tl.acts, bank, from, delta, Leaving, tl.readActHorizon))
  }

  // ----- Booking -----

  function OpenRow(cfg: Config, tl: Timeline, bank: nat, bg: int, row: int, plan: Booking, read: bool): Timeline
    requires bank < |tl.banks|
  {
    tl.(banks := tl.banks[bank := Opened(cfg, tl.banks[bank], row, plan, read)],
        acts := Insert(tl.acts, Command(plan.leave, bg, false, bank, read)))
  }

  function Precharge(cfg: Config, tl: Timeline, bank: nat, pre: int): Timeline
    requires bank < |tl.banks|
  {
    tl.(banks := tl.banks[bank := Precharged(cfg, tl.banks[bank], pre)])
  }

  /** Put a column command on the calendar; a read slips the reads behind it. */
  function PlaceColumn(cfg: Config, tl: Timeline, c: Command, active: bool): Timeline
    requires 0 <= c.bank < |tl.banks| && BanksKnown(tl.cols, |tl.banks|)
  {
    if active then
      var k := LowerIndex(tl.cols, c.t);
      SlipFrom(cfg, tl.(cols := InsertAt(tl.cols, k, c)), k + 1)
    else
      var tl' := tl.(cols := Insert(tl.cols, c));
      if c.write then tl' else SlipAfter(cfg, tl', c.t)
  }

  function FinishColumn(cfg: Config, tl: Timeline, bank: nat, bg: int, write: bool, col: int,
                        leaves: bool, active: bool): Timeline
    requires bank < |tl.banks| && BanksKnown(tl.cols, |tl.banks|)
  {
    var tl' := tl.(banks := tl.banks[bank := Used(cfg, tl.banks[bank], write, col)]);
    if active then PlaceColumn(cfg, tl', Command(col, bg, false, bank, false), true)
    else PlaceColumn(cfg, tl', Command(col, bg, write, bank, leaves && !write), false)
  }

  /** What booking an access will do: the same whether it is a probe or a commitment. */
  ghost function PlanBook(cfg: Config, tl: Timeline, bank: nat, bg: int, row: int, write: bool, earliest: int): Booking
    requires bank < |tl.banks|
  {
    var b := tl.banks[bank];
    var h := WindowHit(cfg, tl.cols, b, bg, row, write, earliest);
    if h.HitAt? then Booking(h.column, h.column, h.column, false, true)
    else
      var p := PlanOpen(cfg, tl.acts, b, bg, row, earliest);
      var ready := if p.opens then p.leave + cfg.tRCD else Max(earliest, b.colOk);
      var col := ColSlot(cfg, tl.cols, ready, bg, write, cfg.activeFirst && p.opens && !write);
      if p.opens then p.(column := col) else Booking(col, col, col, false, false)
  }

  /** The timeline after committing that booking. */
  ghost function ApplyBook(cfg: Config, tl: Timeline, bank: nat, bg: int, row: int, write: bool,
                           earliest: int): Timeline
    requires bank < |tl.banks| && Known(tl)
  {
    var b := tl.banks[bank];
    var p := PlanBook(cfg, tl, bank, bg, row, write, earliest);
    var h := WindowHit(cfg, tl.cols, b, bg, row, write, earliest);
    if h.HitAt? then
      var tl' := PlaceColumn(cfg, tl, Command(h.column, bg, write, bank, !write), false);
      if cfg.hitExtend > 0 && !write && h.index < |tl'.banks[bank].windows|
      then ExtendWindow(cfg, tl', bank, h.index, h.column) else tl'
    else
      var tl' := if p.opens then OpenRow(cfg, tl, bank, bg, row, p, !write) else tl;
      FinishColumn(cfg, tl', bank, bg, write, p.column, !p.opens, cfg.activeFirst && p.opens && !write)
  }

  /** The window open at time t according to the bank's history, or -1. */
  function WindowAt(ws: seq<Window>, n: nat, t: int): (j: int)
    requires n <= |ws|
    ensures -1 <= j < n
    ensures 0 <= j ==> ws[j].act <= t && !ClosedBy(ws[j], t)
  {
    if n == 0 then -1
    else if ws[n - 1].act <= t then (if ClosedBy(ws[n - 1], t) then -1 else n - 1)
    else WindowAt(ws, n - 1, t)
  }

  /** The window that makes a buffered write a row hit at the drain's trigger, or -1. */
  function TriggerHit(b: Bank, w: PendingWrite, hitTime: int): (j: int)
    ensures -1 <= j < |b.windows|
  {
    if 0 <= hitTime && b.row != w.row then
      var j := WindowAt(b.windows, |b.windows|, hitTime);
      if 0 <= j && b.windows[j].row == w.row then j else -1
    else -1
  }

  ghost function PlanWrite(cfg: Config, tl: Timeline, w: PendingWrite, hitTime: int, from: int): Booking
    requires 0 <= w.bank < |tl.banks|
  {
    var earliest := Max(from, w.arrive + 1);
    var j := TriggerHit(tl.banks[w.bank], w, hitTime);
    if 0 <= j then
      var ready := Max(earliest, tl.banks[w.bank].windows[j].act + cfg.tRCD);
      var col := ColSlot(cfg, tl.cols, ready, w.bankGroup, true, false);
      Booking(col, col, col, false, true)
    else PlanBook(cfg, tl, w.bank, w.bankGroup, w.row, true, earliest)
  }

  ghost function ApplyWrite(cfg: Config, tl: Timeline, w: PendingWrite, hitTime: int, from: int): Timeline
    requires 0 <= w.bank < |tl.banks| && Known(tl)
  {
    if 0 <= TriggerHit(tl.banks[w.bank], w, hitTime) then
      var col := PlanWrite(cfg, tl, w, hitTime, from).column;
      tl.(cols := Insert(tl.cols, Command(col, w.bankGroup, true, w.bank, false)))
    else ApplyBook(cfg, tl, w.bank, w.bankGroup, w.row, true, Max(from, w.arrive + 1))
  }
}
