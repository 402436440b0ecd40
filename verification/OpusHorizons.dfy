/** The read horizons: over every run they are at or after every live read command, so that write mode
    never begins while a booked read is still to leave the read queue. */
module OpusHorizons {
  import opened Basics
  import opened OpusTypes
  import opened OpusCalendar
  import opened OpusSlots
  import opened OpusSlip
  import opened OpusBanks
  import opened OpusTimeline
  import opened OpusTimelineProofs
  import opened OpusPolicy

  /** Row hits that slip keep their departure in step, or nothing slips. */
  predicate Synced(cfg: Config) {
    cfg.slipSync || (!cfg.activeFirst && (!cfg.colSlip || cfg.colSqueeze == 0))
  }

  /** The three horizons: of departures from the read queue, of RDs, of reads' ACTs. */
  datatype Horizons = Horizons(leave: int, column: int, act: int)

  function Of(tl: Timeline): Horizons {
    Horizons(tl.readHorizon, tl.readColHorizon, tl.readActHorizon)
  }

  predicate ColumnCovered(cfg: Config, c: Command, h: Horizons) {
    (!c.write ==> c.t <= h.column) && (Synced(cfg) && c.leaves ==> c.t <= h.leave)
  }

  predicate ActCovered(a: Command, h: Horizons) {
    a.leaves ==> a.t <= h.leave && a.t <= h.act
  }

  ghost predicate Covered(cfg: Config, cols: seq<Command>, acts: seq<Command>, h: Horizons) {
    (forall c :: c in cols ==> ColumnCovered(cfg, c, h)) && forall a :: a in acts ==> ActCovered(a, h)
  }

  /** The horizons once a booking is counted. */
  function Counting(h: Horizons, b: Booking): Horizons {
    Horizons(Max(h.leave, b.leave), Max(h.column, b.column), if b.opens then Max(h.act, b.leave) else h.act)
  }

  // ----- Slips -----

  lemma {:induction false} SlipLoopCovered(cfg: Config, tl: Timeline, k: nat, b: Booking)
    requires BanksKnown(tl.cols, |tl.banks|) && (Synced(cfg) ==> cfg.slipSync)
    requires Covered(cfg, tl.cols, tl.acts, Counting(Of(tl), b))
    ensures var r := SlipLoop(cfg, tl, k); Covered(cfg, r.cols, r.acts, Counting(Of(r), b))
    decreases |tl.cols| - k
  {
    if k < |tl.cols| && !tl.cols[k].write && Need(cfg, tl.cols, k) != tl.cols[k].t {
      var need := Need(cfg, tl.cols, k);
      SlipOneCovered(cfg, tl, k, need, b);
      SlipLoopCovered(cfg, SlipOne(cfg, tl, k, need), k + 1, b);
    }
  }

  lemma {:induction false} SlipOneCovered(cfg: Config, tl: Timeline, k: nat, need: int, b: Booking)
    requires k < |tl.cols| && BanksKnown(tl.cols, |tl.banks|) && (Synced(cfg) ==> cfg.slipSync)
    requires !tl.cols[k].write && Covered(cfg, tl.cols, tl.acts, Counting(Of(tl), b))
    ensures var r := SlipOne(cfg, tl, k, need); Covered(cfg, r.cols, r.acts, Counting(Of(r), b))
  {
    var r := SlipOne(cfg, tl, k, need);
    forall c | c in r.cols ensures ColumnCovered(cfg, c, Counting(Of(r), b)) {
      var i :| 0 <= i < |r.cols| && r.cols[i] == c;
      if i != k {
        assert tl.cols[i] in tl.cols;
      }
    }
  }

  lemma {:induction false} SlipFromCovered(cfg: Config, tl: Timeline, k: nat, b: Booking)
    requires BanksKnown(tl.cols, |tl.banks|) && (Synced(cfg) ==> cfg.slipSync)
    requires Covered(cfg, tl.cols, tl.acts, Counting(Of(tl), b))
    ensures var r := SlipFrom(cfg, tl, k); Covered(cfg, r.cols, r.acts, Counting(Of(r), b))
  {
    hide SlipLoop, StableSort, ColumnCovered, ActCovered;
    SlipLoopCovered(cfg, tl, k, b);
    StableSortSorts(SlipLoop(cfg, tl, k).cols);
  }

  /** Placing a read that its booking counts. */
  lemma {:induction false} PlaceCovered(cfg: Config, tl: Timeline, c: Command, active: bool, b: Booking)
    requires 0 <= c.bank < |tl.banks| && BanksKnown(tl.cols, |tl.banks|) && !c.write && (active ==> cfg.activeFirst)
    requires Covered(cfg, tl.cols, tl.acts, Counting(Of(tl), b)) && c.t <= b.column && (c.leaves ==> c.t <= b.leave)
    ensures var r := PlaceColumn(cfg, tl, c, active); Covered(cfg, r.cols, r.acts, Counting(Of(r), b))
  {
    hide SlipFrom;
    var k := if active then LowerIndex(tl.cols, c.t) else UpperIndex(tl.cols, c.t);
    var s := tl.(cols := InsertAt(tl.cols, k, c));
    InsertMembers(tl.cols, k, c);
    InsertKnown(tl.cols, k, c, |tl.banks|);
    assert Covered(cfg, s.cols, s.acts, Counting(Of(s), b));
    if active {
      SlipFromCovered(cfg, s, k + 1, b);
    } else if cfg.colSlip && cfg.colSqueeze != 0 {
      SlipFromCovered(cfg, s, UpperIndex(s.cols, c.t), b);
    }
  }

  // ----- Window extension -----

  /** The raised horizon is at or after its old value and every entry that moved. */
  lemma {:induction false} RaisedCovers(cal: seq<Command>, bank: int, from: int, delta: int, what: Tracked, h: int)
    ensures var r := Raised(cal, bank, from, delta, what, h);
            && h <= r
            && forall i :: 0 <= i < |cal| && cal[i].bank == bank && from <= cal[i].t && Counts(cal[i], what) ==>
                 cal[i].t + delta <= r
  {
    if cal != [] {
      RaisedCovers(cal[..|cal| - 1], bank, from, delta, what, h);
    }
  }

  predicate NoEarlier(h: Horizons, g: Horizons) {
    h.leave <= g.leave && h.column <= g.column && h.act <= g.act
  }

  lemma {:induction false} ShiftedColumns(cfg: Config, cols: seq<Command>, bank: int, from: int, delta: int,
                                          h: Horizons, g: Horizons)
    requires NoEarlier(h, g) && forall c :: c in cols ==> ColumnCovered(cfg, c, h)
    requires Raised(cols, bank, from, delta, Leaving, h.leave) <= g.leave
    requires Raised(cols, bank, from, delta, ReadColumn, h.column) <= g.column
    ensures forall c :: c in StableSort(Shifted(cols, bank, from, delta)) ==> ColumnCovered(cfg, c, g)
  {
    hide StableSort, Raised;
    RaisedCovers(cols, bank, from, delta, Leaving, h.leave);
    RaisedCovers(cols, bank, from, delta, ReadColumn, h.column);
    StableSortSorts(Shifted(cols, bank, from, delta));
    forall c | c in StableSort(Shifted(cols, bank, from, delta)) ensures ColumnCovered(cfg, c, g) {
      var i :| 0 <= i < |cols| && Shifted(cols, bank, from, delta)[i] == c;
      assert cols[i] in cols;
    }
  }

  lemma {:induction false} ShiftedActs(acts: seq<Command>, bank: int, from: int, delta: int, h: Horizons, g: Horizons)
    requires NoEarlier(h, g) && forall a :: a in acts ==> ActCovered(a, h)
    requires Raised(acts, bank, from, delta, Leaving, h.leave) <= g.leave
    requires Raised(acts, bank, from, delta, Leaving, h.act) <= g.act
    ensures forall a :: a in StableSort(Shifted(acts, bank, from, delta)) ==> ActCovered(a, g)
  {
    hide StableSort, Raised;
    RaisedCovers(acts, bank, from, delta, Leaving, h.leave);
    RaisedCovers(acts, bank, from, delta, Leaving, h.act);
    StableSortSorts(Shifted(acts, bank, from, delta));
    forall a | a in StableSort(Shifted(acts, bank, from, delta)) ensures ActCovered(a, g) {
      var i :| 0 <= i < |acts| && Shifted(acts, bank, from, delta)[i] == a;
      assert acts[i] in acts;
    }
  }

  /** Raising a horizon from a later start raises it at least as far, and by no more than the start. */
  lemma {:induction false} RaisedFrom(cal: seq<Command>, bank: int, from: int, delta: int, what: Tracked, h: int, g: int)
    ensures Raised(cal, bank, from, delta, what, Max(h, g)) == Max(Raised(cal, bank, from, delta, what, h), g)
    ensures h <= Raised(cal, bank, from, delta, what, h)
  {
    if cal != [] {
      RaisedFrom(cal[..|cal| - 1], bank, from, delta, what, h, g);
    }
  }

  lemma {:induction false} ExtendCovered(cfg: Config, tl: Timeline, bank: nat, j: nat, col: int, b: Booking)
    requires bank < |tl.banks| && j < |tl.banks[bank].windows|
    requires Covered(cfg, tl.cols, tl.acts, Counting(Of(tl), b))
    ensures var r := ExtendWindow(cfg, tl, bank, j, col); Covered(cfg, r.cols, r.acts, Counting(Of(r), b))
  {
    var w := tl.banks[bank].windows[j];
    var delta := Extension(cfg, w, col);
    if delta != 0 {
      hide StableSort, Raised, Extended, Shifted, ColumnCovered, ActCovered;
      var from, r := w.pre.cycle, ExtendWindow(cfg, tl, bank, j, col);
      var h := Raised(tl.cols, bank, from, delta, Leaving, tl.readHorizon);
      RaisedFrom(tl.cols, bank, from, delta, Leaving, tl.readHorizon, b.leave);
      RaisedFrom(tl.cols, bank, from, delta, ReadColumn, tl.readColHorizon, b.column);
      RaisedFrom(tl.acts, bank, from, delta, Leaving, h, b.leave);
      RaisedFrom(tl.acts, bank, from, delta, Leaving, tl.readActHorizon, b.leave);
      ShiftedColumns(cfg, tl.cols, bank, from, delta, Counting(Of(tl), b), Counting(Of(r), b));
      RaisedMore(tl.acts, bank, from, delta, Leaving, Max(tl.readHorizon, b.leave), Max(h, b.leave));
      ShiftedActs(tl.acts, bank, from, delta, Counting(Of(tl), b), Counting(Of(r), b));
    }
  }

  lemma {:induction false} RaisedMore(cal: seq<Command>, bank: int, from: int, delta: int, what: Tracked, h: int, g: int)
    requires h <= g
    ensures Raised(cal, bank, from, delta, what, h) <= Raised(cal, bank, from, delta, what, g)
  {
    RaisedFrom(cal, bank, from, delta, what, h, g);
  }

  // ----- Bookings -----

  lemma {:induction false} CountMore(cfg: Config, cols: seq<Command>, acts: seq<Command>, h: Horizons, g: Horizons)
    requires Covered(cfg, cols, acts, h) && h.leave <= g.leave && h.column <= g.column && h.act <= g.act
    ensures Covered(cfg, cols, acts, g)
  {
  }

  lemma {:induction false} ReadCovered(cfg: Config, tl: Timeline, bank: nat, bg: int, row: int, earliest: int)
    requires cfg.Ok() && TimelineOk(cfg, tl) && bank < |tl.banks| && Covered(cfg, tl.cols, tl.acts, Of(tl))
    ensures var r := ApplyBook(cfg, tl, bank, bg, row, false, earliest);
            var p := PlanBook(cfg, tl, bank, bg, row, false, earliest);
            Covered(cfg, r.cols, r.acts, Counting(Of(r), p))
  {
    hide Covered, PlaceColumn, ExtendWindow, FindHit, PlanOpen, ColSlot;
    var p := PlanBook(cfg, tl, bank, bg, row, false, earliest);
    var h := WindowHit(cfg, tl.cols, tl.banks[bank], bg, row, false, earliest);
    CountMore(cfg, tl.cols, tl.acts, Of(tl), Counting(Of(tl), p));
    if h.HitAt? {
      var c := Command(h.column, bg, false, bank, true);
      PlaceCovered(cfg, tl, c, false, p);
      PlaceColumnBanks(cfg, tl, c, false);
      ExtendCovered(cfg, PlaceColumn(cfg, tl, c, false), bank, h.index, h.column, p);
    } else {
      var o := if p.opens then OpenRow(cfg, tl, bank, bg, row, p, true) else tl;
      OpenCovered(cfg, tl, bank, bg, row, p);
      FinishCovered(cfg, o, bank, bg, p.column, !p.opens, cfg.activeFirst && p.opens, p);
    }
  }

  lemma {:induction false} OpenCovered(cfg: Config, tl: Timeline, bank: nat, bg: int, row: int, p: Booking)
    requires bank < |tl.banks| && Covered(cfg, tl.cols, tl.acts, Counting(Of(tl), p))
    ensures p.opens ==> var o := OpenRow(cfg, tl, bank, bg, row, p, true);
                        Covered(cfg, o.cols, o.acts, Counting(Of(o), p))
  {
    InsertMembers(tl.acts, UpperIndex(tl.acts, p.leave), Command(p.leave, bg, false, bank, true));
  }

  lemma {:induction false} FinishCovered(cfg: Config, o: Timeline, bank: nat, bg: int, col: int, leaves: bool,
                                         active: bool, p: Booking)
    requires bank < |o.banks| && BanksKnown(o.cols, |o.banks|) && (active ==> cfg.activeFirst && !leaves)
    requires Covered(cfg, o.cols, o.acts, Counting(Of(o), p)) && col <= p.column && (leaves ==> col <= p.leave)
    ensures var r := FinishColumn(cfg, o, bank, bg, false, col, leaves, active);
            Covered(cfg, r.cols, r.acts, Counting(Of(r), p))
  {
    hide Covered, PlaceColumn;
    var u := o.(banks := o.banks[bank := Used(cfg, o.banks[bank], false, col)]);
    PlaceCovered(cfg, u, Command(col, bg, false, bank, leaves), active, p);
  }

  /** A write is on no read horizon. */
  lemma {:induction false} WriteCovered(cfg: Config, tl: Timeline, w: PendingWrite, hitTime: int, from: int,
                                        h: Horizons)
    requires 0 <= w.bank < |tl.banks| && Known(tl) && Covered(cfg, tl.cols, tl.acts, h)
    ensures var r := ApplyWrite(cfg, tl, w, hitTime, from); Covered(cfg, r.cols, r.acts, h) && Of(r) == Of(tl)
  {
    hide FindHit, PlanOpen, ColSlot, Opened, Used;
    var p := PlanWrite(cfg, tl, w, hitTime, from);
    InsertMembers(tl.cols, UpperIndex(tl.cols, p.column), Command(p.column, w.bankGroup, true, w.bank, false));
    InsertMembers(tl.acts, UpperIndex(tl.acts, p.leave), Command(p.leave, w.bankGroup, false, w.bank, false));
  }

  // ----- The policy -----

  ghost predicate CoveredBy(cfg: Config, s: State, h: Horizons) {
    Covered(cfg, s.tl.cols, s.tl.acts, h)
  }

  lemma {:induction false} CommitCovered(cfg: Config, s: State, i: nat, from: int, h: Horizons)
    requires StateOk(cfg, s) && i < |s.wq| && CoveredBy(cfg, s, h)
    ensures var r := CommitWrite(cfg, s, i, from); CoveredBy(cfg, r, h) && Of(r.tl) == Of(s.tl)
  {
    hide Covered, ApplyWrite, PlanWrite;
    WriteCovered(cfg, s.tl, s.wq[i], s.hitTime, from, h);
  }

  lemma {:induction false} AdvanceCovered(cfg: Config, s: State, until: int, pending: nat, h: Horizons)
    requires cfg.Ok() && StateOk(cfg, s) && CoveredBy(cfg, s, h)
    ensures var r := Advance(cfg, s, until, pending); CoveredBy(cfg, r, h) && Of(r.tl) == Of(s.tl)
    decreases |s.wq|, OpenRows(s.tl.banks), s.forced
  {
    hide Covered, Best, CommitWrite, Pick;
    if s.wq != [] && (s.writeMode || EntryTime(s) < until) {
      var e := Entered(s);
      if ForcedOver(cfg, e, pending) {
        AdvanceCovered(cfg, Leave(e), until, pending, h);
      } else if Best(cfg, e).first < until {
        NextOk(cfg, e, until);
        CommitCovered(cfg, e, Pick(cfg, e, e.drainStart, |e.wq|), e.drainStart, h);
        AdvanceCovered(cfg, Next(cfg, e, until), until, pending, h);
      }
    }
  }

  lemma {:induction false} DrainDownCovered(cfg: Config, s: State, expected: nat, h: Horizons)
    requires cfg.Ok() && StateOk(cfg, s) && CoveredBy(cfg, s, h)
    ensures var r := DrainDown(cfg, s, expected); CoveredBy(cfg, r, h) && Of(r.tl) == Of(s.tl)
    decreases |s.wq|
  {
    hide Covered;
    if StillAbove(cfg, s, expected) {
      var i := Pick(cfg, s, s.drainStart, |s.wq|);
      CommitWriteOk(cfg, s, i, s.drainStart);
      CommitCovered(cfg, s, i, s.drainStart, h);
      DrainDownCovered(cfg, DrainOne(cfg, s, s.drainStart), expected, h);
    }
  }

  lemma {:induction false} EndWriteModeCovered(cfg: Config, s: State, now: int, estimate: nat, h: Horizons)
    requires cfg.Ok() && StateOk(cfg, s) && CoveredBy(cfg, s, h)
    ensures var r := EndWriteMode(cfg, s, now, estimate).0; CoveredBy(cfg, r, h) && Of(r.tl) == Of(s.tl)
  {
    hide DrainDown, StateOk, LatestLeave, Covered;
    if s.writeMode {
      DrainDownCovered(cfg, s, if s.forced || cfg.wqLow <= |s.wq| then Capped(cfg, estimate) else 0, h);
    }
  }

  lemma {:induction false} StarveCovered(cfg: Config, s: State, act: int, ready: int, bg: int, nextRead: int,
                                         h: Horizons)
    requires cfg.Ok() && StateOk(cfg, s) && CoveredBy(cfg, s, h)
    ensures var r := Starve(cfg, s, act, ready, bg, nextRead); CoveredBy(cfg, r, h) && Of(r.tl) == Of(s.tl)
    decreases |s.wq|
  {
    hide Covered;
    var i := Overlapping(cfg, s, act + 1, ReadSlot(cfg, s, ready, bg), nextRead, 0);
    if i < |s.wq| {
      CommitWriteOk(cfg, s, i, act + 1);
      CommitCovered(cfg, s, i, act + 1, h);
      StarveCovered(cfg, CommitWrite(cfg, s, i, act + 1), act, ready, bg, nextRead, h);
    }
  }

  /** The starved read's RD, counted by its booking. */
  lemma {:induction false} StarvedCovered(cfg: Config, o: State, q: Request, b: Booking)
    requires cfg.Ok() && StateOk(cfg, o) && q.bank < |o.tl.banks| && b.opens
    requires CoveredBy(cfg, o, Counting(Of(o.tl), b)) && b.column == StarvedSlot(cfg, o, q, b.leave)
    ensures var r := StarvedState(cfg, o, q, b.leave); CoveredBy(cfg, r, Counting(Of(r.tl), b))
  {
    hide Covered, Starve, FinishColumn, ColSlot, StateOk;
    var d := Starve(cfg, o, b.leave, b.leave + cfg.tRCD, q.bankGroup, q.nextRead);
    StarveCovered(cfg, o, b.leave, b.leave + cfg.tRCD, q.bankGroup, q.nextRead, Counting(Of(o.tl), b));
    StateKnown(cfg, d);
    FinishCovered(cfg, d.tl, q.bank, q.bankGroup, b.column, false, cfg.activeFirst, b);
  }

  lemma {:induction false} StateKnown(cfg: Config, s: State)
    requires StateOk(cfg, s)
    ensures BanksKnown(s.tl.cols, |s.tl.banks|)
  {
  }

  lemma {:induction false} BookReadCovered(cfg: Config, s: State, q: Request, earliest: int)
    requires cfg.Ok() && StateOk(cfg, s) && q.bank < |s.tl.banks| && CoveredBy(cfg, s, Of(s.tl))
    ensures var (r, b) := BookRead(cfg, s, q, earliest); CoveredBy(cfg, r, Counting(Of(r.tl), b))
  {
    hide Covered, PlanBook, ApplyBook, StarvedState, StarvedSlot, TimelineOk;
    var p := PlanBook(cfg, s.tl, q.bank, q.bankGroup, q.row, false, earliest);
    if Starves(cfg, s, p, q.nextRead) {
      OpenForReadOk(cfg, s, q, earliest);
      var o := OpenForRead(cfg, s, q, p);
      var b := p.(column := StarvedSlot(cfg, o, q, p.leave));
      CountMore(cfg, s.tl.cols, s.tl.acts, Of(s.tl), Counting(Of(s.tl), b));
      OpenCovered(cfg, s.tl, q.bank, q.bankGroup, q.row, b);
      StarvedCovered(cfg, o, q, b);
    } else {
      ReadCovered(cfg, s.tl, q.bank, q.bankGroup, q.row, earliest);
    }
  }

  lemma {:induction false} PruneCovered(cfg: Config, s: State, now: int)
    requires CoveredBy(cfg, s, Of(s.tl))
    ensures var p := Prune(cfg, s, now); CoveredBy(cfg, p, Of(p.tl))
  {
  }

  lemma {:induction false} PredictCovered(cfg: Config, s: State, q: Request)
    requires cfg.Ok() && StateOk(cfg, s) && q.bank < |s.tl.banks| && CoveredBy(cfg, s, Of(s.tl))
    ensures var r := Predict(cfg, s, q).0; CoveredBy(cfg, r, Of(r.tl))
  {
    hide Advance, EndWriteMode, BookRead, StateOk, Covered;
    PruneOk(cfg, s, q.now);
    PruneCovered(cfg, s, q.now);
    var p, a := Prune(cfg, s, q.now), CatchUp(cfg, s, q);
    if cfg.modelWrites {
      AdvanceCovered(cfg, p, Until(cfg, q.now), Capped(cfg, q.replayEstimate), Of(p.tl));
    }
    if !q.write && !(cfg.modelWrites && Forwarded(a, q.address)) {
      var (e, earliest) := EndWriteMode(cfg, a, q.now, q.drainEstimate);
      EndWriteModeCovered(cfg, a, q.now, q.drainEstimate, Of(a.tl));
      BookReadCovered(cfg, e, q, earliest);
    }
  }

  lemma {:induction false} RunCovered(cfg: Config, n: nat, qs: seq<Request>)
    requires cfg.Ok() && RequestsFor(qs, n)
    ensures var s := Run(cfg, n, qs); CoveredBy(cfg, s, Of(s.tl))
  {
    if qs != [] {
      hide Predict, StateOk, CoveredBy;
      RunCovered(cfg, n, qs[..|qs| - 1]);
      PredictCovered(cfg, Run(cfg, n, qs[..|qs| - 1]), qs[|qs| - 1]);
    }
  }

  /** Over every run no live read command is past its horizon: RDs are covered by the column horizon, reads'
      ACTs by the ACT horizon and by the departure horizon, and departing RDs by the departure horizon
      unless they may slip without it. */
  lemma {:induction false} ReachableHorizons(cfg: Config, n: nat, qs: seq<Request>, i: nat)
    requires cfg.Ok() && RequestsFor(qs, n)
    ensures var tl := Run(cfg, n, qs).tl;
            && (i < |tl.cols| && !tl.cols[i].write ==> tl.cols[i].t <= tl.readColHorizon)
            && (i < |tl.acts| && tl.acts[i].leaves ==> tl.acts[i].t <= Min(tl.readHorizon, tl.readActHorizon))
            && (i < |tl.cols| && tl.cols[i].leaves && Synced(cfg) ==> tl.cols[i].t <= tl.readHorizon)
  {
    hide Run;
    RunCovered(cfg, n, qs);
    var tl := Run(cfg, n, qs).tl;
    assert i < |tl.cols| ==> tl.cols[i] in tl.cols;
    assert i < |tl.acts| ==> tl.acts[i] in tl.acts;
  }
}
