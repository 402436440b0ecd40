/** A run from power-up in which the replay books an ACT too close to one already pruned: calendars are
    pruned at the admission's cycle, but the replay issues commands from before it. */
module OpusPruneExample {
  import opened Basics
  import opened OpusTypes
  import opened OpusCalendar
  import opened OpusSlots
  import opened OpusBanks
  import opened OpusTimeline
  import opened OpusPolicy
  import opened OpusExamples

  /** The example timings with writes modelled: tRCD 10, tRRD 2 and 3; marks 4 and 2. */
  const BUFFERED: Config :=
    Example(false).(modelWrites := true, hitWindows := false, wqHigh := 4, wqLow := 2)

  const WRITE: Request := Request(true, 64, 1, 1, 0, 0, 0, 0, 0)

  /** A read, a write to another bank group in the same cycle, and much later another read. */
  const REQUESTS: seq<Request> := [Read(0, 0, 0, 0), WRITE, Read(0, 0, 0, 1000)]

  const FIRST: Booking := Booking(1, 1, 11, true, false)

  lemma {:induction false} NothingToReplay(s: State, q: Request)
    requires StateOk(BUFFERED, s) && s.wq == [] && !s.writeMode && s.hitTime == -1
    requires Keeps(BUFFERED, s.tl.cols, s.tl.acts, q.now)
    ensures CatchUp(BUFFERED, s, q) == s
  {
    hide TimelineOk;
    PruneOk(BUFFERED, s, q.now);
    LowerUnique(s.tl.cols, q.now - (BUFFERED.MaxColGap() + 1), 0);
    LowerUnique(s.tl.acts, q.now - (BUFFERED.MaxActGap() + 1), 0);
    assert Prune(BUFFERED, s, q.now) == s;
    assert StateOk(BUFFERED, s) ==> !s.forced;
  }

  /** The state once the first read is booked. */
  function AfterRead(): State {
    var bank := Used(BUFFERED, Opened(BUFFERED, INITIAL_BANK, 0, FIRST, true), false, 11);
    Initial(2).(tl := Timeline([bank, INITIAL_BANK], [Command(11, 0, false, 0, false)],
                               [Command(1, 0, false, 0, true)], 1, 11, 1))
  }

  lemma {:induction false} ReadStep1()
    ensures Predict(BUFFERED, Initial(2), REQUESTS[0]).0 == AfterRead()
  {
    hide ColSlot, ActSlot, ApplyBook, PlanBook, CatchUp, Opened, Used;
    var tl := Initial(2).tl;
    assert tl == Timeline([INITIAL_BANK, INITIAL_BANK], [], [], 0, 0, 0);
    NothingToReplay(Initial(2), REQUESTS[0]);
    SlotsHere(BUFFERED, [], [], 11, 1, 0);
    OpensBook(BUFFERED, tl, 0, 0, 0, 1, FIRST);
  }

  /** The state once the write is buffered. */
  function AfterWrite(): State {
    AfterRead().(wq := [Pending(WRITE)], admitted := [Pending(WRITE)])
  }

  lemma {:induction false} WriteStep2()
    requires StateOk(BUFFERED, AfterRead())
    ensures Predict(BUFFERED, AfterRead(), WRITE).0 == AfterWrite()
  {
    hide CatchUp, StateOk, Opened, Used;
    NothingToReplay(AfterRead(), WRITE);
  }

  lemma {:induction false} ForgetsAll(s: State)
    requires forall i :: 0 <= i < |s.tl.cols| ==> s.tl.cols[i].t < 900
    requires forall i :: 0 <= i < |s.tl.acts| ==> s.tl.acts[i].t < 900
    ensures Prune(BUFFERED, s, 1000) == s.(tl := s.tl.(cols := [], acts := []))
  {
    LowerUnique(s.tl.cols, 1000 - (BUFFERED.MaxColGap() + 1), |s.tl.cols|);
    LowerUnique(s.tl.acts, 1000 - (BUFFERED.MaxActGap() + 1), |s.tl.acts|);
  }

  /** A lone buffered write of an untouched bank, once every command is forgotten. */
  ghost predicate Lone(s: State) {
    && StateOk(BUFFERED, s) && s.wq == [Pending(WRITE)] && |s.tl.banks| == 2 && s.tl.banks[1] == INITIAL_BANK
    && s.tl.cols == [] && s.tl.acts == [] && s.tl.readHorizon == 1 && !s.writeMode
  }

  lemma {:induction false} EmptyPlan(e: State)
    requires StateOk(BUFFERED, e) && e.wq == [Pending(WRITE)] && |e.tl.banks| == 2 && e.tl.banks[1] == INITIAL_BANK
    requires e.tl.cols == [] && e.tl.acts == [] && e.hitTime == -1 && e.drainStart == 2
    ensures Best(BUFFERED, e) == Booking(2, 2, 12, true, false) && Pick(BUFFERED, e, 2, 1) == 0
  {
    hide TimelineOk, ColSlot, ActSlot;
    ActSlotIsLeast(BUFFERED, [], 2, 1);
    ColSlotIsLeast(BUFFERED, [], 12, 1, true, false);
    assert ActLegal(BUFFERED, [], 2, 1) && ColLegal(BUFFERED, [], 12, 1, true, false);
  }

  lemma {:induction false} Drains(e: State)
    requires StateOk(BUFFERED, e) && e.wq == [Pending(WRITE)] && |e.tl.banks| == 2 && e.tl.banks[1] == INITIAL_BANK
    requires e.tl.cols == [] && e.tl.acts == [] && e.hitTime == -1 && e.drainStart == 2
    ensures var n := Next(BUFFERED, e, 1000);
            n.wq == [] && n.booked == e.booked + [BookedWrite(Pending(WRITE), Booking(2, 2, 12, true, false))]
  {
    EmptyPlan(e);
    hide PlanWrite, ApplyWrite, Pick, TimelineOk;
    KnownBuffer(e);
  }

  lemma {:induction false} KnownBuffer(e: State)
    requires StateOk(BUFFERED, e)
    ensures BufferOk(e.wq, |e.tl.banks|) && Known(e.tl)
  {
  }

  lemma {:induction false} WriteReplayed(p: State)
    requires Lone(p)
    ensures var r := Advance(BUFFERED, p, 1000, 0);
            && r.booked == p.booked + [BookedWrite(Pending(WRITE), Booking(2, 2, 12, true, false))]
            && r.wq == [] && !r.writeMode
  {
    hide TimelineOk, Next, Best;
    var e := Entered(p);
    EmptyPlan(e);
    Drains(e);
    NextOk(BUFFERED, e, 1000);
  }

  lemma {:induction false} ReadStep3()
    requires StateOk(BUFFERED, AfterWrite())
    ensures Predict(BUFFERED, AfterWrite(), REQUESTS[2]).0.booked
            == [BookedWrite(Pending(WRITE), Booking(2, 2, 12, true, false))]
  {
    hide Advance, Prune, StateOk, ApplyBook, PlanBook, Opened, Used;
    var s := AfterWrite();
    ForgetsAll(s);
    PruneOk(BUFFERED, s, 1000);
    WriteReplayed(Prune(BUFFERED, s, 1000));
  }

  /** The read's ACT is at 1. Admitted at 1000, the next read first prunes it and then replays the write,
      whose ACT is booked at 2: one cycle later, though tRRD_S is 2. */
  lemma {:induction false} ReplayPassesPrunedAct()
    ensures BUFFERED.Ok() && RequestsFor(REQUESTS, 2) && BUFFERED.tRRDS == 2
    ensures Run(BUFFERED, 2, REQUESTS[..1]).tl.acts == [Command(1, 0, false, 0, true)]
    ensures Run(BUFFERED, 2, REQUESTS).booked == [BookedWrite(Pending(WRITE), Booking(2, 2, 12, true, false))]
  {
    hide Predict, StateOk, Run, Opened, Used;
    RunStart(BUFFERED, 2, REQUESTS);
    RunStep(BUFFERED, 2, REQUESTS, 0);
    RunStep(BUFFERED, 2, REQUESTS, 1);
    RunStep(BUFFERED, 2, REQUESTS, 2);
    ReadStep1();
    WriteStep2();
    ReadStep3();
    assert REQUESTS[..3] == REQUESTS;
  }
}
