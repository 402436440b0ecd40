/** What the write log means on the bus: over every run each booked write is one WR command on the
    column calendar, or one that was pruned from it. */
module OpusConservation {
  import opened OpusTypes
  import opened OpusCalendar
  import opened OpusSlots
  import opened OpusBanks
  import opened OpusTimeline
  import opened OpusTimelineProofs
  import opened OpusPolicy

  /** The bank group and bank of a write. */
  datatype Target = Target(bankGroup: int, bank: int)

  /** The live WR commands to a target. */
  function OnBus(s: State, k: Target): nat {
    multiset(Keys(s.tl.cols))[(k.bankGroup, true, k.bank, false)]
  }

  /** The writes to it that have been booked. */
  function Logged(booked: seq<BookedWrite>, k: Target): nat {
    if booked == [] then 0
    else
      var w := booked[|booked| - 1].write;
      Logged(booked[..|booked| - 1], k) + (if Target(w.bankGroup, w.bank) == k then 1 else 0)
  }

  /** From s to r the calendar gains exactly the WR commands that the log gains. */
  predicate Balanced(s: State, r: State, k: Target) {
    OnBus(r, k) + Logged(s.booked, k) == OnBus(s, k) + Logged(r.booked, k)
  }

  lemma {:induction false} LoggedAppend(booked: seq<BookedWrite>, b: BookedWrite, k: Target)
    ensures Logged(booked + [b], k)
            == Logged(booked, k) + (if Target(b.write.bankGroup, b.write.bank) == k then 1 else 0)
  {
    assert (booked + [b])[..|booked|] == booked;
  }

  lemma {:induction false} CommitBalanced(cfg: Config, s: State, i: nat, from: int, k: Target)
    requires cfg.Ok() && StateOk(cfg, s) && i < |s.wq|
    ensures Balanced(s, CommitWrite(cfg, s, i, from), k)
  {
    hide ApplyWrite, PlanWrite, TimelineOk;
    WriteAddsOneColumn(cfg, s.tl, s.wq[i], s.hitTime, from);
    LoggedAppend(s.booked, BookedWrite(s.wq[i], Plan(cfg, s, i, from)), k);
  }

  lemma {:induction false} NextBalanced(cfg: Config, s: State, until: int, k: Target)
    requires cfg.Ok() && StateOk(cfg, s) && s.wq != []
    ensures Balanced(s, Next(cfg, s, until), k)
  {
    hide CommitWrite, Best, Pick;
    CommitBalanced(cfg, s, Pick(cfg, s, s.drainStart, |s.wq|), s.drainStart, k);
  }

  lemma {:induction false} AdvanceBalanced(cfg: Config, s: State, until: int, pending: nat, k: Target)
    requires cfg.Ok() && StateOk(cfg, s)
    ensures Balanced(s, Advance(cfg, s, until, pending), k)
    decreases |s.wq|, OpenRows(s.tl.banks), s.forced
  {
    if s.wq != [] && (s.writeMode || EntryTime(s) < until) {
      var e := Entered(s);
      if ForcedOver(cfg, e, pending) {
        AdvanceBalanced(cfg, Leave(e), until, pending, k);
      } else if Best(cfg, e).first < until {
        NextOk(cfg, e, until);
        NextBalanced(cfg, e, until, k);
        AdvanceBalanced(cfg, Next(cfg, e, until), until, pending, k);
      }
    }
  }

  lemma {:induction false} DrainDownBalanced(cfg: Config, s: State, expected: nat, k: Target)
    requires cfg.Ok() && StateOk(cfg, s)
    ensures Balanced(s, DrainDown(cfg, s, expected), k)
    decreases |s.wq|
  {
    if StillAbove(cfg, s, expected) {
      var i := Pick(cfg, s, s.drainStart, |s.wq|);
      CommitWriteOk(cfg, s, i, s.drainStart);
      CommitBalanced(cfg, s, i, s.drainStart, k);
      DrainDownBalanced(cfg, DrainOne(cfg, s, s.drainStart), expected, k);
    }
  }

  lemma {:induction false} EndWriteModeBalanced(cfg: Config, s: State, now: int, estimate: nat, k: Target)
    requires cfg.Ok() && StateOk(cfg, s)
    ensures Balanced(s, EndWriteMode(cfg, s, now, estimate).0, k)
  {
    hide DrainDown, StateOk, LatestLeave;
    if s.writeMode {
      DrainDownBalanced(cfg, s, if s.forced || cfg.wqLow <= |s.wq| then Capped(cfg, estimate) else 0, k);
    }
  }

  lemma {:induction false} StarveBalanced(cfg: Config, s: State, act: int, ready: int, bg: int, nextRead: int,
                                          k: Target)
    requires cfg.Ok() && StateOk(cfg, s)
    ensures Balanced(s, Starve(cfg, s, act, ready, bg, nextRead), k)
    decreases |s.wq|
  {
    var i := Overlapping(cfg, s, act + 1, ReadSlot(cfg, s, ready, bg), nextRead, 0);
    if i < |s.wq| {
      CommitWriteOk(cfg, s, i, act + 1);
      CommitBalanced(cfg, s, i, act + 1, k);
      StarveBalanced(cfg, CommitWrite(cfg, s, i, act + 1), act, ready, bg, nextRead, k);
    }
  }

  lemma {:induction false} FinishReadBalanced(cfg: Config, d: State, bank: nat, bg: int, ready: int, k: Target)
    requires cfg.Ok() && StateOk(cfg, d) && bank < |d.tl.banks|
    ensures Balanced(d, FinishRead(cfg, d, bank, bg, ready), k)
  {
    hide FinishColumn, ColSlot, TimelineOk;
    FinishColumnKeys(cfg, d.tl, bank, bg, false, ReadSlot(cfg, d, ready, bg), false, cfg.activeFirst);
  }

  lemma {:induction false} StarvedBalanced(cfg: Config, o: State, q: Request, act: int, k: Target)
    requires cfg.Ok() && StateOk(cfg, o) && q.bank < |o.tl.banks|
    ensures Balanced(o, StarvedState(cfg, o, q, act), k)
  {
    hide Starve, FinishRead, StateOk;
    var d := Starve(cfg, o, act, act + cfg.tRCD, q.bankGroup, q.nextRead);
    StarveBalanced(cfg, o, act, act + cfg.tRCD, q.bankGroup, q.nextRead, k);
    FinishReadBalanced(cfg, d, q.bank, q.bankGroup, act + cfg.tRCD, k);
  }

  /** A read puts no WR on the calendar beyond the buffered writes it lets pass. */
  lemma {:induction false} BookReadBalanced(cfg: Config, s: State, q: Request, earliest: int, k: Target)
    requires cfg.Ok() && StateOk(cfg, s) && q.bank < |s.tl.banks|
    ensures Balanced(s, BookRead(cfg, s, q, earliest).0, k)
  {
    hide StarvedState, PlanBook, ApplyBook, StateOk;
    var b := PlanBook(cfg, s.tl, q.bank, q.bankGroup, q.row, false, earliest);
    if Starves(cfg, s, b, q.nextRead) {
      OpenForReadOk(cfg, s, q, earliest);
      StarvedBalanced(cfg, OpenForRead(cfg, s, q, b), q, b.leave, k);
    } else {
      ReadAddsNoWrite(cfg, s, q, earliest, k);
    }
  }

  lemma {:induction false} ReadAddsNoWrite(cfg: Config, s: State, q: Request, earliest: int, k: Target)
    requires cfg.Ok() && StateOk(cfg, s) && q.bank < |s.tl.banks|
    ensures var tl := ApplyBook(cfg, s.tl, q.bank, q.bankGroup, q.row, false, earliest);
            OnBus(s.(tl := tl), k) == OnBus(s, k)
  {
    hide PlanBook, ApplyBook, TimelineOk;
    BookingAddsOneColumn(cfg, s.tl, q.bank, q.bankGroup, q.row, false, earliest);
  }

  // ----- Whole runs -----

  /** The WR commands to a target that pruning before an admission drops. */
  ghost function Dropped(cfg: Config, s: State, now: int, k: Target): nat
    ensures OnBus(Prune(cfg, s, now), k) + Dropped(cfg, s, now, k) == OnBus(s, k)
  {
    PruneDrops(cfg, s, now, k);
    OnBus(s, k) - OnBus(Prune(cfg, s, now), k)
  }

  lemma {:induction false} PruneDrops(cfg: Config, s: State, now: int, k: Target)
    ensures OnBus(Prune(cfg, s, now), k) <= OnBus(s, k)
  {
    var j := LowerIndex(s.tl.cols, now - (cfg.MaxColGap() + 1));
    var all := Keys(s.tl.cols);
    assert Keys(s.tl.cols[j..]) == all[j..];
    assert all == all[..j] + all[j..];
  }

  lemma {:induction false} PredictBalanced(cfg: Config, s: State, q: Request, k: Target)
    requires cfg.Ok() && StateOk(cfg, s) && q.bank < |s.tl.banks|
    ensures Balanced(Prune(cfg, s, q.now), Predict(cfg, s, q).0, k)
  {
    hide Advance, EndWriteMode, BookRead, StateOk, Balanced;
    PruneOk(cfg, s, q.now);
    var p := Prune(cfg, s, q.now);
    var a := CatchUp(cfg, s, q);
    if cfg.modelWrites {
      AdvanceBalanced(cfg, p, Until(cfg, q.now), Capped(cfg, q.replayEstimate), k);
    } else {
      SameBalanced(p, a, k);
    }
    if q.write || (cfg.modelWrites && Forwarded(a, q.address)) {
      SameBalanced(a, Predict(cfg, s, q).0, k);
      Chain(p, a, Predict(cfg, s, q).0, k);
    } else {
      var (e, earliest) := EndWriteMode(cfg, a, q.now, q.drainEstimate);
      var (r, b) := BookRead(cfg, e, q, earliest);
      EndWriteModeBalanced(cfg, a, q.now, q.drainEstimate, k);
      BookReadBalanced(cfg, e, q, earliest, k);
      SameBalanced(r, RaiseHorizons(r, b), k);
      Chain(p, a, e, k);
      Chain(p, e, r, k);
      Chain(p, r, RaiseHorizons(r, b), k);
    }
  }

  lemma {:induction false} SameBalanced(s: State, r: State, k: Target)
    requires s.tl.cols == r.tl.cols && s.booked == r.booked
    ensures Balanced(s, r, k)
  {
  }

  lemma {:induction false} Chain(s: State, m: State, r: State, k: Target)
    requires Balanced(s, m, k) && Balanced(m, r, k)
    ensures Balanced(s, r, k)
  {
  }

  /** The WR commands to a target pruned during a run. */
  ghost function Pruned(cfg: Config, n: nat, qs: seq<Request>, k: Target): nat
    requires cfg.Ok() && RequestsFor(qs, n)
  {
    if qs == [] then 0
    else
      var before := qs[..|qs| - 1];
      Pruned(cfg, n, before, k) + Dropped(cfg, Run(cfg, n, before), qs[|qs| - 1].now, k)
  }

  /** Over every run, and for every bank, the WR commands on the calendar and those pruned from it are
      exactly as many as the writes booked: no booked write is lost, duplicated or misplaced. */
  lemma {:induction false} EveryWriteOnBus(cfg: Config, n: nat, qs: seq<Request>, k: Target)
    requires cfg.Ok() && RequestsFor(qs, n)
    ensures OnBus(Run(cfg, n, qs), k) + Pruned(cfg, n, qs, k) == Logged(Run(cfg, n, qs).booked, k)
  {
    if qs == [] {
      assert Keys(Initial(n).tl.cols) == [];
    } else {
      hide Predict, StateOk, OnBus, Logged;
      var before, q := qs[..|qs| - 1], qs[|qs| - 1];
      EveryWriteOnBus(cfg, n, before, k);
      PredictBalanced(cfg, Run(cfg, n, before), q, k);
    }
  }
}
