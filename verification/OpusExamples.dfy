/** Two runs from power-up that reach what the general results exclude: a read calendar the slip leaves
    too tight, and a read closer to its PRE than tRTP. */
module OpusExamples {
  import opened Basics
  import opened OpusTypes
  import opened OpusCalendar
  import opened OpusSlots
  import opened OpusSlip
  import opened OpusBanks
  import opened OpusTimeline
  import opened OpusPolicy
  import opened OpusColumns

  /** tBL 2, tRCD 10, tRP 7 less 1, tRAS 20, tRC 28, tRTP 5 with a wait of 2, tWR 6, tCWL 3, tCCD 1 and 4,
      tRRD 2 and 3, tWTR 1 and 2, tRTW 6, read latency 9; reads only, with window hits. */
  function Example(slip: bool): Config {
    Config(2, 10, 7, 20, 28, 5, 6, 3, 1, 4, 1, 4, 2, 3, 1, 2, 6, 9,
           -1, 2, 1, 1, 1, false, false, true, 0, slip, false, false, false, false, false, 0, 0, 1, 0)
  }

  function Read(bank: nat, bankGroup: int, row: nat, now: int): Request {
    Request(false, 0, bank, bankGroup, row, now, 0, 0, 0)
  }

  function Holding(tl: Timeline): State {
    Initial(0).(tl := tl)
  }

  /** A slot that is legal at once is taken. */
  lemma {:induction false} SlotsHere(cfg: Config, cols: seq<Command>, acts: seq<Command>, t: int, u: int, bg: int)
    requires cfg.Ok() && ColLegal(cfg, cols, t, bg, false, false) && ActLegal(cfg, acts, u, bg)
    ensures ColSlot(cfg, cols, t, bg, false, false) == t && ActSlot(cfg, acts, u, bg) == u
  {
    ColSlotIsLeast(cfg, cols, t, bg, false, false);
    ActSlotIsLeast(cfg, acts, u, bg);
  }

  /** The timeline a read leaves when writes are not modelled. */
  ghost function Served(cfg: Config, tl: Timeline, q: Request): Timeline
    requires q.bank < |tl.banks| && Known(tl)
  {
    var p := Prune(cfg, Holding(tl), q.now).tl;
    RaiseHorizons(Holding(ApplyBook(cfg, p, q.bank, q.bankGroup, q.row, false, q.now + 1)),
                  PlanBook(cfg, p, q.bank, q.bankGroup, q.row, false, q.now + 1)).tl
  }

  /** When it completes. */
  ghost function ServedAt(cfg: Config, tl: Timeline, q: Request): int
    requires q.bank < |tl.banks|
  {
    PlanBook(cfg, Prune(cfg, Holding(tl), q.now).tl, q.bank, q.bankGroup, q.row, false, q.now + 1).column
    + cfg.readLatency
  }

  lemma {:induction false} ReadStep(slip: bool, tl: Timeline, q: Request)
    requires var cfg := Example(slip); StateOk(cfg, Holding(tl)) && !q.write && q.bank < |tl.banks|
    ensures Predict(Example(slip), Holding(tl), q).0 == Holding(Served(Example(slip), tl, q))
    ensures Predict(Example(slip), Holding(tl), q).1 == ServedAt(Example(slip), tl, q)
  {
    hide PlanBook, ApplyBook, TimelineOk;
    PruneOk(Example(slip), Holding(tl), q.now);
  }

  /** A read that opens its row and whose column command goes to the end of the calendar; p is the
      timeline once pruned. */
  lemma {:induction false} Opens(cfg: Config, tl: Timeline, p: Timeline, q: Request, b: Booking)
    requires cfg.Ok() && !cfg.activeFirst && q.bank < |tl.banks| && Known(tl) && Sorted(tl.cols)
    requires Prune(cfg, Holding(tl), q.now) == Holding(p)
    requires WindowHit(cfg, p.cols, p.banks[q.bank], q.bankGroup, q.row, false, q.now + 1).NoHit?
    requires PlanOpen(cfg, p.acts, p.banks[q.bank], q.bankGroup, q.row, q.now + 1) == b.(column := 0)
    requires b.opens && ColSlot(cfg, p.cols, b.leave + cfg.tRCD, q.bankGroup, false, false) == b.column
    requires forall i :: 0 <= i < |p.cols| ==> p.cols[i].t <= b.column
    requires forall i :: 0 <= i < |p.acts| ==> p.acts[i].t <= b.leave
    ensures Served(cfg, tl, q) == Timeline(
      p.banks[q.bank := Used(cfg, Opened(cfg, p.banks[q.bank], q.row, b, true), false, b.column)],
      p.cols + [Command(b.column, q.bankGroup, false, q.bank, false)],
      p.acts + [Command(b.leave, q.bankGroup, false, q.bank, true)],
      Max(p.readHorizon, b.leave), Max(p.readColHorizon, b.column), Max(p.readActHorizon, b.leave))
    ensures ServedAt(cfg, tl, q) == b.column + cfg.readLatency
  {
    hide PlanBook, ApplyBook, Opened, Used;
    PruneShape(cfg, tl, q.now);
    OpensBook(cfg, p, q.bank, q.bankGroup, q.row, q.now + 1, b);
  }

  lemma {:induction false} PruneShape(cfg: Config, tl: Timeline, now: int)
    requires Known(tl) && Sorted(tl.cols)
    ensures var p := Prune(cfg, Holding(tl), now).tl; Known(p) && Sorted(p.cols) && p.banks == tl.banks
  {
  }

  lemma {:induction false} PruneKeeps(cfg: Config, tl: Timeline, now: int)
    requires Keeps(cfg, tl.cols, tl.acts, now)
    ensures Prune(cfg, Holding(tl), now) == Holding(tl)
  {
    LowerUnique(tl.cols, now - (cfg.MaxColGap() + 1), 0);
    LowerUnique(tl.acts, now - (cfg.MaxActGap() + 1), 0);
  }

  /** A read placed behind every other command slips nothing. */
  lemma {:induction false} AppendSlipsNothing(cfg: Config, tl: Timeline, c: Command)
    requires 0 <= c.bank < |tl.banks| && BanksKnown(tl.cols, |tl.banks|) && !c.write && Sorted(tl.cols)
    requires forall i :: 0 <= i < |tl.cols| ==> tl.cols[i].t <= c.t
    ensures PlaceColumn(cfg, tl, c, false) == tl.(cols := tl.cols + [c])
  {
    hide UpperIndex, StableSort;
    UpperUnique(tl.cols, c.t, |tl.cols|);
    UpperUnique(tl.cols + [c], c.t, |tl.cols| + 1);
    StableSortIdentity(tl.cols + [c]);
    assert InsertAt(tl.cols, |tl.cols|, c) == tl.cols + [c];
    var r := tl.(cols := tl.cols + [c]);
    assert SlipLoop(cfg, r, |r.cols|) == r;
  }

  lemma {:induction false} OpensBook(cfg: Config, tl: Timeline, bank: nat, bg: int, row: nat, earliest: int, b: Booking)
    requires cfg.Ok() && !cfg.activeFirst && bank < |tl.banks| && Known(tl) && Sorted(tl.cols)
    requires WindowHit(cfg, tl.cols, tl.banks[bank], bg, row, false, earliest).NoHit?
    requires PlanOpen(cfg, tl.acts, tl.banks[bank], bg, row, earliest) == b.(column := 0)
    requires b.opens && ColSlot(cfg, tl.cols, b.leave + cfg.tRCD, bg, false, false) == b.column
    requires forall i :: 0 <= i < |tl.cols| ==> tl.cols[i].t <= b.column
    requires forall i :: 0 <= i < |tl.acts| ==> tl.acts[i].t <= b.leave
    ensures PlanBook(cfg, tl, bank, bg, row, false, earliest) == b
    ensures ApplyBook(cfg, tl, bank, bg, row, false, earliest) == tl.(
      banks := tl.banks[bank := Used(cfg, Opened(cfg, tl.banks[bank], row, b, true), false, b.column)],
      cols := tl.cols + [Command(b.column, bg, false, bank, false)],
      acts := tl.acts + [Command(b.leave, bg, false, bank, true)])
  {
    hide WindowHit, PlanOpen, ColSlot, Opened, Used, PlaceColumn, UpperIndex;
    UpperUnique(tl.acts, b.leave, |tl.acts|);
    var o := OpenRow(cfg, tl, bank, bg, row, b, true);
    var u := o.(banks := o.banks[bank := Used(cfg, o.banks[bank], false, b.column)]);
    AppendSlipsNothing(cfg, u, Command(b.column, bg, false, bank, false));
  }

  /** Nothing is old enough to be pruned. */
  predicate Keeps(cfg: Config, cols: seq<Command>, acts: seq<Command>, now: int) {
    && (forall i :: 0 <= i < |cols| ==> now - (cfg.MaxColGap() + 1) <= cols[i].t)
    && (forall i :: 0 <= i < |acts| ==> now - (cfg.MaxActGap() + 1) <= acts[i].t)
  }

  // ----- A read one cycle before its PRE -----

  const HIT_READS: seq<Request> := [Read(0, 0, 0, 0), Read(0, 0, 1, 1), Read(0, 0, 0, 21)]

  const HIT_1: Timeline := Timeline(
    [Bank(0, 29, 21, false, 11, [Window(0, 1, Never, false)])],
    [Command(11, 0, false, 0, false)], [Command(1, 0, false, 0, true)], 1, 11, 1)

  const HIT_2: Timeline := Timeline(
    [Bank(1, 57, 49, false, 39, [Window(0, 1, At(23), false), Window(1, 29, Never, false)])],
    [Command(11, 0, false, 0, false), Command(39, 0, false, 0, false)],
    [Command(1, 0, false, 0, true), Command(29, 0, false, 0, true)], 29, 39, 29)

  const HIT_PRUNED: Timeline :=
    HIT_2.(cols := [Command(39, 0, false, 0, false)], acts := [Command(29, 0, false, 0, true)])

  /** No window of the bank is of the row. */
  lemma {:induction false} NoWindow(cfg: Config, cols: seq<Command>, ws: seq<Window>, n: nat, bg: int, row: int, t: int)
    requires n <= |ws| && forall i :: 0 <= i < n ==> ws[i].row != row
    ensures FindHit(cfg, cols, ws, n, bg, row, false, t) == NoHit
  {
    if n > 0 {
      NoWindow(cfg, cols, ws, n - 1, bg, row, t);
    }
  }

  lemma {:induction false} HitStep1()
    ensures Served(Example(false), Initial(1).tl, HIT_READS[0]) == HIT_1
    ensures ServedAt(Example(false), Initial(1).tl, HIT_READS[0]) == 20
  {
    hide ColSlot, ActSlot, FindHit, Served, ServedAt, Prune;
    var cfg, tl := Example(false), Initial(1).tl;
    assert tl == Timeline([INITIAL_BANK], [], [], 0, 0, 0);
    SlotsHere(cfg, [], [], 11, 1, 0);
    NoWindow(cfg, [], [], 0, 0, 0, 1);
    var b := Booking(1, 1, 11, true, false);
    PruneKeeps(cfg, tl, 0);
    Opens(cfg, tl, tl, HIT_READS[0], b);
    assert Used(cfg, Opened(cfg, tl.banks[0], 0, b, true), false, 11) == HIT_1.banks[0];
    assert tl.banks[0 := HIT_1.banks[0]] == HIT_1.banks;
  }

  lemma {:induction false} HitBank2()
    ensures var o := Opened(Example(false), HIT_1.banks[0], 1, Booking(23, 29, 39, true, false), true);
            Used(Example(false), o, false, 39) == HIT_2.banks[0]
  {
    var o := Opened(Example(false), HIT_1.banks[0], 1, Booking(23, 29, 39, true, false), true);
    assert o.windows == HIT_2.banks[0].windows;
  }

  lemma {:induction false} HitStep2()
    ensures Served(Example(false), HIT_1, HIT_READS[1]) == HIT_2
    ensures ServedAt(Example(false), HIT_1, HIT_READS[1]) == 48
  {
    hide ColSlot, ActSlot, FindHit, Served, ServedAt, Prune, Opened, Used;
    var cfg, tl := Example(false), HIT_1;
    SlotsHere(cfg, tl.cols, tl.acts, 39, 29, 0);
    NoWindow(cfg, tl.cols, tl.banks[0].windows, 1, 0, 1, 2);
    PruneKeeps(cfg, tl, 1);
    Opens(cfg, tl, tl, HIT_READS[1], Booking(23, 29, 39, true, false));
    HitBank2();
    assert tl.banks[0 := HIT_2.banks[0]] == HIT_2.banks;
  }

  lemma {:induction false} HitFound()
    ensures FindHit(Example(false), HIT_PRUNED.cols, HIT_2.banks[0].windows, 2, 0, 0, false, 22) == HitAt(0, 22)
  {
    hide ColSlot, ActSlot;
    var cfg, ws := Example(false), HIT_2.banks[0].windows;
    SlotsHere(cfg, HIT_PRUNED.cols, [], 22, 0, 0);
    assert FindHit(cfg, HIT_PRUNED.cols, ws, 1, 0, 0, false, 22) == HitAt(0, 22);
  }

  lemma {:induction false} HitBook()
    ensures var r := ApplyBook(Example(false), HIT_PRUNED, 0, 0, 0, false, 22);
            r.banks == HIT_2.banks && r.cols == [Command(22, 0, false, 0, true), HIT_PRUNED.cols[0]]
    ensures PlanBook(Example(false), HIT_PRUNED, 0, 0, 0, false, 22).column == 22
  {
    hide ColSlot, ActSlot, FindHit, PlaceColumn, UpperIndex;
    var p, c := HIT_PRUNED, Command(22, 0, false, 0, true);
    HitFound();
    PlaceIsInsert(Example(false), p, c);
    UpperUnique(p.cols, 22, 0);
    assert InsertAt(p.cols, 0, c) == [c, p.cols[0]];
  }

  lemma {:induction false} HitPruned()
    ensures Known(HIT_2) && Prune(Example(false), Holding(HIT_2), 21) == Holding(HIT_PRUNED)
  {
    hide LowerIndex;
    LowerUnique(HIT_2.cols, 13, 1);
    LowerUnique(HIT_2.acts, 17, 1);
  }

  lemma {:induction false} HitStep3()
    ensures var tl := Served(Example(false), HIT_2, HIT_READS[2]);
            tl.banks == HIT_2.banks && tl.cols == [Command(22, 0, false, 0, true), Command(39, 0, false, 0, false)]
    ensures ServedAt(Example(false), HIT_2, HIT_READS[2]) == 31
  {
    hide ApplyBook, PlanBook, Prune, Known;
    HitPruned();
    HitBook();
  }

  /** A run of reads, each served after the one before. */
  lemma {:induction false} RunReads(slip: bool, n: nat, qs: seq<Request>, ts: seq<Timeline>, ds: seq<int>)
    requires 0 < |qs| == |ts| == |ds| && RequestsFor(qs, n) && ts[0] == Initial(n).tl
    requires forall i :: 0 <= i < |qs| ==> !qs[i].write && Known(ts[i]) && |ts[i].banks| == n
    requires forall i :: 0 <= i < |qs| ==> ServedAt(Example(slip), ts[i], qs[i]) == ds[i]
    requires forall i :: 0 <= i < |qs| - 1 ==> Served(Example(slip), ts[i], qs[i]) == ts[i + 1]
    ensures Run(Example(slip), n, qs) == Holding(Served(Example(slip), ts[|ts| - 1], qs[|qs| - 1]))
    ensures Completions(Example(slip), n, qs) == ds
  {
    hide Predict, Served, ServedAt, Run, Known, Completions;
    RunStart(Example(slip), n, qs);
    for i := 0 to |qs|
      invariant Run(Example(slip), n, qs[..i]) == if i < |qs| then Holding(ts[i])
                                                  else Holding(Served(Example(slip), ts[i - 1], qs[i - 1]))
      invariant Completions(Example(slip), n, qs[..i]) == ds[..i]
    {
      RunRead(slip, n, qs, i, ts[i]);
      assert ds[..i + 1] == ds[..i] + [ds[i]];
    }
    assert qs[..|qs|] == qs && ds[..|ds|] == ds;
  }

  /** A first read, a row conflict and a hit in the closed row's window, with their answers. Without window
      extension the hit is in the row's window but only one cycle, not tRTP, before its PRE. */
  lemma {:induction false} HitBreaksRecovery()
    ensures var cfg := Example(false);
            && Steady(cfg) && !Guarded(cfg, HIT_2.banks[0].windows[0]) && RequestsFor(HIT_READS, 1)
            && Completions(cfg, 1, HIT_READS) == [20, 48, 31]
            && var tl := Run(cfg, 1, HIT_READS).tl;
               && |tl.cols| == 2 && tl.cols[0].t == 22 && tl.banks == HIT_2.banks
               && tl.banks[0].windows[0].pre == At(23) && 23 < tl.cols[0].t + cfg.tRTP
  {
    hide Served, ServedAt, Run, Completions;
    HitStep1();
    HitStep2();
    HitStep3();
    RunReads(false, 1, HIT_READS, [Initial(1).tl, HIT_1, HIT_2], [20, 48, 31]);
  }

  // ----- A calendar left too tight -----

  const SLIP_READS: seq<Request> := [Read(0, 0, 0, 0), Read(1, 1, 0, 100), Read(2, 0, 0, 102), Read(0, 0, 0, 109)]

  const FIRST_BANK: Bank := Bank(0, 29, 21, false, 11, [Window(0, 1, Never, false)])
  const SECOND_BANK: Bank := Bank(0, 129, 121, false, 111, [Window(0, 101, Never, false)])
  const THIRD_BANK: Bank := Bank(0, 131, 123, false, 113, [Window(0, 103, Never, false)])

  const SLIP_1: Timeline := Timeline(
    [FIRST_BANK, INITIAL_BANK, INITIAL_BANK],
    [Command(11, 0, false, 0, false)], [Command(1, 0, false, 0, true)], 1, 11, 1)

  const SLIP_2: Timeline := Timeline(
    [FIRST_BANK, SECOND_BANK, INITIAL_BANK],
    [Command(111, 1, false, 1, false)], [Command(101, 1, false, 1, true)], 101, 111, 101)

  const SLIP_3: Timeline := Timeline(
    [FIRST_BANK, SECOND_BANK, THIRD_BANK],
    [Command(111, 1, false, 1, false), Command(113, 0, false, 2, false)],
    [Command(101, 1, false, 1, true), Command(103, 0, false, 2, true)], 103, 113, 103)

  const TIGHT: seq<Command> :=
    [Command(110, 0, false, 0, true), Command(111, 1, false, 1, false), Command(113, 0, false, 2, false)]

  lemma {:induction false} SlipStep1()
    ensures Served(Example(true), Initial(3).tl, SLIP_READS[0]) == SLIP_1
    ensures ServedAt(Example(true), Initial(3).tl, SLIP_READS[0]) == 20
  {
    hide ColSlot, ActSlot, FindHit, Served, ServedAt, Prune;
    var cfg, tl := Example(true), Initial(3).tl;
    assert tl == Timeline([INITIAL_BANK, INITIAL_BANK, INITIAL_BANK], [], [], 0, 0, 0);
    SlotsHere(cfg, [], [], 11, 1, 0);
    NoWindow(cfg, [], [], 0, 0, 0, 1);
    var b := Booking(1, 1, 11, true, false);
    PruneKeeps(cfg, tl, 0);
    Opens(cfg, tl, tl, SLIP_READS[0], b);
    assert Used(cfg, Opened(cfg, INITIAL_BANK, 0, b, true), false, 11) == FIRST_BANK;
    assert tl.banks[0 := FIRST_BANK] == SLIP_1.banks;
  }

  lemma {:induction false} SlipStep2()
    ensures Served(Example(true), SLIP_1, SLIP_READS[1]) == SLIP_2
    ensures ServedAt(Example(true), SLIP_1, SLIP_READS[1]) == 120
  {
    hide ColSlot, ActSlot, FindHit, Served, ServedAt;
    var cfg, tl := Example(true), SLIP_1;
    var p := tl.(cols := [], acts := []);
    SlotsHere(cfg, [], [], 111, 101, 1);
    NoWindow(cfg, [], [], 0, 1, 0, 101);
    var b := Booking(101, 101, 111, true, false);
    assert Prune(cfg, Holding(tl), 100) == Holding(p) by {
      LowerUnique(tl.cols, 92, 1);
      LowerUnique(tl.acts, 96, 1);
    }
    Opens(cfg, tl, p, SLIP_READS[1], b);
    assert Used(cfg, Opened(cfg, INITIAL_BANK, 0, b, true), false, 111) == SECOND_BANK;
    assert tl.banks[1 := SECOND_BANK] == SLIP_2.banks;
  }

  lemma {:induction false} SlipStep3()
    ensures Served(Example(true), SLIP_2, SLIP_READS[2]) == SLIP_3
    ensures ServedAt(Example(true), SLIP_2, SLIP_READS[2]) == 122
  {
    hide ColSlot, ActSlot, FindHit, Served, ServedAt;
    var cfg, tl := Example(true), SLIP_2;
    SlotsHere(cfg, tl.cols, tl.acts, 113, 103, 0);
    NoWindow(cfg, tl.cols, [], 0, 0, 0, 103);
    var b := Booking(103, 103, 113, true, false);
    PruneKeeps(cfg, tl, 102);
    Opens(cfg, tl, tl, SLIP_READS[2], b);
    assert Used(cfg, Opened(cfg, INITIAL_BANK, 0, b, true), false, 113) == THIRD_BANK;
    assert tl.banks[2 := THIRD_BANK] == SLIP_3.banks;
  }

  /** The last read goes ahead of the two booked ones; the next already fits, so nothing slips. */
  lemma {:induction false} SlipBook(p: Timeline)
    requires p.banks == SLIP_3.banks && p.cols == SLIP_3.cols && Known(p)
    ensures ApplyBook(Example(true), p, 0, 0, 0, false, 110).cols == TIGHT
    ensures PlanBook(Example(true), p, 0, 0, 0, false, 110).column == 110
  {
    hide ColSlot, ActSlot, FindHit, UpperIndex, StableSort, Used, Need;
    var cfg := Example(true);
    SlotsHere(cfg, p.cols, [], 110, 0, 0);
    UpperUnique(p.cols, 110, 0);
    UpperUnique(TIGHT, 110, 1);
    assert InsertAt(p.cols, 0, TIGHT[0]) == TIGHT;
    TightFits();
    StableSortIdentity(TIGHT);
  }

  lemma {:induction false} TightFits()
    ensures Need(Example(true), TIGHT, 1) == TIGHT[1].t
  {
    var cfg, c := Example(true), TIGHT[0];
    assert TIGHT[..1] == [c];
    LeastAfterUnique(cfg, [c], 1, 111, 111);
  }

  lemma {:induction false} SlipPruned()
    ensures Known(SLIP_3)
    ensures var p := Prune(Example(true), Holding(SLIP_3), 109).tl;
            p.banks == SLIP_3.banks && p.cols == SLIP_3.cols && Known(p)
  {
    hide LowerIndex;
    LowerUnique(SLIP_3.cols, 101, 0);
    LowerUnique(SLIP_3.acts, 105, 2);
    PruneShape(Example(true), SLIP_3, 109);
  }

  lemma {:induction false} SlipStep4()
    ensures Served(Example(true), SLIP_3, SLIP_READS[3]).cols == TIGHT
    ensures ServedAt(Example(true), SLIP_3, SLIP_READS[3]) == 119
  {
    hide ApplyBook, PlanBook, Prune, Known;
    SlipPruned();
    SlipBook(Prune(Example(true), Holding(SLIP_3), 109).tl);
  }

  /** With two short gaps shorter than a long one, four reads from power-up reach a calendar that the slip
      leaves with two reads of one bank group less than tCCD_L apart. */
  lemma {:induction false} SlipLeavesTight()
    ensures var cfg := Example(true);
            && cfg.Ok() && !GapsCover(cfg) && RequestsFor(SLIP_READS, 3)
            && Completions(cfg, 3, SLIP_READS) == [20, 120, 122, 119]
            && var cols := Run(cfg, 3, SLIP_READS).tl.cols;
               cols == TIGHT && !FullGap(cfg, cols[0], cols[2])
  {
    hide Served, ServedAt, Run, Completions;
    SlipStep1();
    SlipStep2();
    SlipStep3();
    SlipStep4();
    RunReads(true, 3, SLIP_READS, [Initial(3).tl, SLIP_1, SLIP_2, SLIP_3], [20, 120, 122, 119]);
  }

  /** One more read of a run. */
  lemma {:induction false} RunRead(slip: bool, n: nat, qs: seq<Request>, i: nat, tl: Timeline)
    requires RequestsFor(qs, n) && i < |qs| && !qs[i].write && Known(tl) && |tl.banks| == n
    requires Run(Example(slip), n, qs[..i]) == Holding(tl)
    ensures Run(Example(slip), n, qs[..i + 1]) == Holding(Served(Example(slip), tl, qs[i]))
    ensures Completions(Example(slip), n, qs[..i + 1])
            == Completions(Example(slip), n, qs[..i]) + [ServedAt(Example(slip), tl, qs[i])]
  {
    hide Predict, Served, ServedAt, StateOk, Completions;
    RunStep(Example(slip), n, qs, i);
    ReadStep(slip, tl, qs[i]);
  }
}
