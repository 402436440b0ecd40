/** The write buffer, its drains and one prediction, as functions of the model's state. */
module OpusPolicy {
  import opened Basics
  import opened OpusTypes
  import opened OpusCalendar
  import opened OpusSlots
  import opened OpusSlip
  import opened OpusBanks
  import opened OpusTimeline
  import opened OpusTimelineProofs

  /** A buffered write and the booking it was given. */
  datatype BookedWrite = BookedWrite(write: PendingWrite, plan: Booking)

  datatype State = State(
    tl: Timeline, wq: seq<PendingWrite>,
    writeMode: bool, forced: bool, forcedAt: int, drainStart: int,
    drainExit: int, drainShift: int, hitTime: int,
    admitted: seq<PendingWrite>,  // every write accepted so far
    booked: seq<BookedWrite>      // every write given a column so far
  )

  function Writes(booked: seq<BookedWrite>): (r: seq<PendingWrite>)
    ensures |r| == |booked|
    ensures forall i :: 0 <= i < |booked| ==> r[i] == booked[i].write
  {
    seq(|booked|, i requires 0 <= i < |booked| => booked[i].write)
  }

  predicate WriteOk(w: PendingWrite, n: nat) {
    0 <= w.bank < n && 0 <= w.row
  }

  predicate BufferOk(wq: seq<PendingWrite>, n: nat) {
    forall i :: 0 <= i < |wq| ==> WriteOk(wq[i], n)
  }

  /** Every admitted write is either still buffered or booked, exactly once. */
  predicate WritesConserved(s: State) {
    multiset(s.wq) + multiset(Writes(s.booked)) == multiset(s.admitted)
  }

  predicate StateOk(cfg: Config, s: State) {
    && TimelineOk(cfg, s.tl) && BufferOk(s.wq, |s.tl.banks|)
    && (s.wq != [] ==> cfg.modelWrites)
    && (s.forced ==> s.writeMode) && (0 <= s.hitTime ==> s.writeMode)
    && WritesConserved(s)
  }

  // ----- Draining -----

  function Without(wq: seq<PendingWrite>, i: nat): seq<PendingWrite>
    requires i < |wq|
  {
    wq[..i] + wq[i + 1..]
  }

  ghost function Plan(cfg: Config, s: State, i: nat, from: int): Booking
    requires i < |s.wq| && BufferOk(s.wq, |s.tl.banks|)
  {
    PlanWrite(cfg, s.tl, s.wq[i], s.hitTime, from)
  }

  ghost function CommitWrite(cfg: Config, s: State, i: nat, from: int): State
    requires i < |s.wq| && BufferOk(s.wq, |s.tl.banks|) && Known(s.tl)
  {
    s.(wq := Without(s.wq, i),
       tl := ApplyWrite(cfg, s.tl, s.wq[i], s.hitTime, from),
       booked := s.booked + [BookedWrite(s.wq[i], Plan(cfg, s, i, from))])
  }

  lemma {:induction false} CommitWriteOk(cfg: Config, s: State, i: nat, from: int)
    requires cfg.Ok() && StateOk(cfg, s) && i < |s.wq|
    ensures var r := CommitWrite(cfg, s, i, from);
            StateOk(cfg, r) && |r.wq| == |s.wq| - 1 && |r.tl.banks| == |s.tl.banks|
  {
    ApplyWriteOk(cfg, s.tl, s.wq[i], s.hitTime, from);
    var b := BookedWrite(s.wq[i], Plan(cfg, s, i, from));
    MoveConserves(s.wq, s.booked, i, b);
    WithBufferOk(cfg, s, ApplyWrite(cfg, s.tl, s.wq[i], s.hitTime, from), Without(s.wq, i), s.booked + [b]);
  }

  lemma {:induction false} WithBufferOk(cfg: Config, s: State, tl: Timeline, wq: seq<PendingWrite>,
                                        booked: seq<BookedWrite>)
    requires StateOk(cfg, s) && TimelineOk(cfg, tl) && |tl.banks| == |s.tl.banks|
    requires BufferOk(wq, |tl.banks|) && (wq != [] ==> cfg.modelWrites)
    requires multiset(wq) + multiset(Writes(booked)) == multiset(s.admitted)
    ensures StateOk(cfg, s.(tl := tl, wq := wq, booked := booked))
  {
  }

  lemma {:induction false} MoveConserves(wq: seq<PendingWrite>, booked: seq<BookedWrite>, i: nat, b: BookedWrite)
    requires i < |wq| && b.write == wq[i]
    ensures multiset(Without(wq, i)) + multiset(Writes(booked + [b])) == multiset(wq) + multiset(Writes(booked))
  {
    assert wq == wq[..i] + [wq[i]] + wq[i + 1..];
    assert Writes(booked + [b]) == Writes(booked) + [wq[i]];
  }

  /** The buffered write that can start earliest; the oldest among equals. */
  ghost function Pick(cfg: Config, s: State, from: int, n: nat): (p: nat)
    requires 0 < n <= |s.wq| && BufferOk(s.wq, |s.tl.banks|)
    ensures p < n
  {
    if n == 1 then 0
    else
      var p := Pick(cfg, s, from, n - 1);
      if Plan(cfg, s, n - 1, from).first < Plan(cfg, s, p, from).first then n - 1 else p
  }

  lemma {:induction false} PickIsEarliest(cfg: Config, s: State, from: int, n: nat)
    requires 0 < n <= |s.wq| && BufferOk(s.wq, |s.tl.banks|)
    ensures var p := Pick(cfg, s, from, n);
            && (forall i :: 0 <= i < n ==> Plan(cfg, s, p, from).first <= Plan(cfg, s, i, from).first)
            && (forall i :: 0 <= i < p ==> Plan(cfg, s, p, from).first < Plan(cfg, s, i, from).first)
  {
    if n > 1 {
      PickIsEarliest(cfg, s, from, n - 1);
    }
  }

  ghost function DrainOne(cfg: Config, s: State, from: int): State
    requires s.wq != [] && BufferOk(s.wq, |s.tl.banks|) && Known(s.tl)
  {
    CommitWrite(cfg, s, Pick(cfg, s, from, |s.wq|), from)
  }

  /** Leave write mode. */
  function Leave(s: State): State {
    s.(writeMode := false, forced := false, hitTime := -1)
  }

  function EntryTime(s: State): int
    requires s.wq != []
  {
    Max(s.tl.readHorizon + 1, s.wq[0].arrive + 1)
  }

  function Entered(s: State): State
    requires s.wq != []
  {
    if s.writeMode then s
    else s.(writeMode := true, forced := false, drainStart := EntryTime(s), hitTime := -1)
  }

  /** A forced drain is over: the buffer, with the writebacks expected, is below the low mark
      and reads are waiting. */
  predicate ForcedOver(cfg: Config, s: State, pending: nat) {
    s.forced && |s.wq| + pending < cfg.wqLow && s.forcedAt < s.tl.readHorizon
  }

  /** The booking of the buffered write that can start earliest. */
  ghost function Best(cfg: Config, s: State): Booking
    requires s.wq != [] && BufferOk(s.wq, |s.tl.banks|)
  {
    Plan(cfg, s, Pick(cfg, s, s.drainStart, |s.wq|), s.drainStart)
  }

  /** One command of write mode: commit the earliest write, or only its PRE when its ACT would not
      issue before `until`. */
  ghost function Next(cfg: Config, s: State, until: int): State
    requires s.wq != [] && BufferOk(s.wq, |s.tl.banks|) && Known(s.tl)
  {
    if Best(cfg, s).leave < until then DrainOne(cfg, s, s.drainStart)
    else s.(tl := Precharge(cfg, s.tl, s.wq[Pick(cfg, s, s.drainStart, |s.wq|)].bank, Best(cfg, s).first))
  }

  predicate Issued(x: BookedWrite, until: int) {
    x.plan.first <= x.plan.leave < until
  }

  lemma {:induction false} NextOk(cfg: Config, s: State, until: int)
    requires cfg.Ok() && StateOk(cfg, s) && s.wq != [] && Best(cfg, s).first < until
    ensures var r := Next(cfg, s, until);
            && StateOk(cfg, r) && |r.tl.banks| == |s.tl.banks| && r.admitted == s.admitted
            && Closer(r, s) && r.forced == s.forced
            && s.booked <= r.booked && IssuedBefore(r.booked, |s.booked|, until)
  {
    var i := Pick(cfg, s, s.drainStart, |s.wq|);
    PrechargeClosesRow(cfg, s.tl, s.wq[i], s.hitTime, s.drainStart);
    if Best(cfg, s).leave < until {
      CommitWriteOk(cfg, s, i, s.drainStart);
      assert Issued(BookedWrite(s.wq[i], Best(cfg, s)), until);
    } else {
      PrechargeOk(cfg, s.tl, s.wq[i].bank, Best(cfg, s).first);
      WithTimelineOk(cfg, s, Precharge(cfg, s.tl, s.wq[i].bank, Best(cfg, s).first));
    }
  }

  lemma {:induction false} WithTimelineOk(cfg: Config, s: State, tl: Timeline)
    requires StateOk(cfg, s) && TimelineOk(cfg, tl) && |tl.banks| == |s.tl.banks|
    ensures StateOk(cfg, s.(tl := tl))
  {
  }

  /** The measure that makes the replay end. */
  predicate Closer(r: State, s: State) {
    || |r.wq| < |s.wq|
    || (|r.wq| == |s.wq| && OpenRows(r.tl.banks) < OpenRows(s.tl.banks))
    || (|r.wq| == |s.wq| && OpenRows(r.tl.banks) == OpenRows(s.tl.banks) && s.forced && !r.forced)
  }

  predicate IssuedBefore(booked: seq<BookedWrite>, k: nat, until: int) {
    forall i :: k <= i < |booked| ==> Issued(booked[i], until)
  }

  /** The write-mode policy replayed up to `until`. It ends: every step returns, removes a buffered
      write, closes an open row, or clears the forced flag. It only adds bookings, all of writes
      whose departure precedes `until`. */
  ghost function Advance(cfg: Config, s: State, until: int, pending: nat): (r: State)
    requires cfg.Ok() && StateOk(cfg, s)
    ensures StateOk(cfg, r) && |r.tl.banks| == |s.tl.banks| && r.admitted == s.admitted
    ensures s.booked <= r.booked && IssuedBefore(r.booked, |s.booked|, until)
    decreases |s.wq|, OpenRows(s.tl.banks), s.forced
  {
    if s.wq == [] then Leave(s)
    else if !s.writeMode && until <= EntryTime(s) then s
    else
      var e := Entered(s);
      if ForcedOver(cfg, e, pending) then Advance(cfg, Leave(e), until, pending)
      else if until <= Best(cfg, e).first then e
      else
        NextOk(cfg, e, until);
        Advance(cfg, Next(cfg, e, until), until, pending)
  }

  // ----- A read that ends write mode -----

  predicate StillAbove(cfg: Config, s: State, expected: nat) {
    s.wq != [] && cfg.wqLow <= |s.wq| + expected
  }

  /** Drain until the buffer and the expected writebacks are below the low mark. */
  ghost function DrainDown(cfg: Config, s: State, expected: nat): (r: State)
    requires cfg.Ok() && StateOk(cfg, s)
    ensures StateOk(cfg, r) && |r.tl.banks| == |s.tl.banks|
    ensures r.admitted == s.admitted && r.writeMode == s.writeMode && r.forced == s.forced
    ensures r.drainStart == s.drainStart && r.forcedAt == s.forcedAt && s.booked <= r.booked
    ensures r.hitTime == s.hitTime && r.drainExit == s.drainExit && r.drainShift == s.drainShift
    decreases |s.wq|
  {
    if !StillAbove(cfg, s, expected) then s
    else
      CommitWriteOk(cfg, s, Pick(cfg, s, s.drainStart, |s.wq|), s.drainStart);
      DrainDown(cfg, DrainOne(cfg, s, s.drainStart), expected)
  }

  /** Exactly the writes below the low mark are left. */
  lemma {:induction false} DrainDownLeaves(cfg: Config, s: State, expected: nat)
    requires cfg.Ok() && StateOk(cfg, s)
    ensures |DrainDown(cfg, s, expected).wq| == Min(|s.wq|, Max(0, cfg.wqLow - expected - 1))
    decreases |s.wq|
  {
    if StillAbove(cfg, s, expected) {
      CommitWriteOk(cfg, s, Pick(cfg, s, s.drainStart, |s.wq|), s.drainStart);
      DrainDownLeaves(cfg, DrainOne(cfg, s, s.drainStart), expected);
    }
  }

  /** The latest departure among bookings k.., at least `floor`. */
  function LatestLeave(booked: seq<BookedWrite>, k: nat, floor: int): int
    requires k <= |booked|
  {
    if |booked| == k then floor
    else Max(LatestLeave(booked[..|booked| - 1], k, floor), booked[|booked| - 1].plan.leave)
  }

  /** The writebacks counted: the estimate, capped below the low mark. */
  function Capped(cfg: Config, estimate: nat): nat {
    if cfg.wqLow == 0 then estimate else Min(estimate, cfg.wqLow - 1)
  }

  /** When a read admitted at `now` may start after a drain booked to end at `exit`. */
  function DrainWait(cfg: Config, exit: int, shift: int, now: int): int {
    if cfg.drainJoin then Max(now + 1, exit + 1 - shift) else exit + 1
  }

  /** A read drains the buffer to the low mark and then waits for that drain. */
  ghost function DrainForRead(cfg: Config, s: State, now: int, estimate: nat): (r: (State, int))
    requires cfg.Ok() && StateOk(cfg, s)
  {
    var expected := if s.forced || cfg.wqLow <= |s.wq| then Capped(cfg, estimate) else 0;
    var d := DrainDown(cfg, s, expected);
    if StillAbove(cfg, s, expected) then
      var d' := d.(drainExit := LatestLeave(d.booked, |s.booked|, now),
                   drainShift := if s.forced then Max(0, s.drainStart - s.forcedAt - 1) else 0);
      (Leave(d'), Max(now + 1, DrainWait(cfg, d'.drainExit, d'.drainShift, now)))
    else (Leave(d), now + 1)
  }

  /** A read that ends write mode leaves exactly the writes below the low mark: with the estimate
      of expected writebacks e, min(n, wq_low - e - 1) of the n it found. */
  lemma {:induction false} ReadEndsWriteMode(cfg: Config, s: State, now: int, estimate: nat)
    requires cfg.Ok() && StateOk(cfg, s) && s.writeMode && 0 < cfg.wqLow
    ensures var e := if s.forced || cfg.wqLow <= |s.wq| then Capped(cfg, estimate) else 0;
            && |EndWriteMode(cfg, s, now, estimate).0.wq| == Min(|s.wq|, cfg.wqLow - e - 1)
            && e < cfg.wqLow
  {
    var e := if s.forced || cfg.wqLow <= |s.wq| then Capped(cfg, estimate) else 0;
    DrainDownLeaves(cfg, s, e);
  }

  /** The read's earliest command and the state once write mode is over. */
  ghost function EndWriteMode(cfg: Config, s: State, now: int, estimate: nat): (r: (State, int))
    requires cfg.Ok() && StateOk(cfg, s)
    ensures StateOk(cfg, r.0) && |r.0.tl.banks| == |s.tl.banks| && r.0.admitted == s.admitted
    ensures now + 1 <= r.1 && !r.0.writeMode
  {
    if s.writeMode then DrainForRead(cfg, s, now, estimate)
    else if 1 <= cfg.drainBlock && now <= s.drainExit then
      (s, Max(now + 1, DrainWait(cfg, s.drainExit, s.drainShift, now)))
    else (s, now + 1)
  }

  // ----- Writes drained while an activated read waits for tRCD -----

  /** Buffered write i's WR precedes the read, and it starts before the next read is expected. */
  ghost predicate Overlaps(cfg: Config, s: State, from: int, rd: int, nextRead: int, i: nat)
    requires i < |s.wq| && BufferOk(s.wq, |s.tl.banks|)
  {
    Plan(cfg, s, i, from).column < rd && Plan(cfg, s, i, from).first < nextRead
  }

  /** The first buffered write from i on whose WR precedes the read and which starts before the
      next read is expected; |wq| when there is none. */
  ghost function Overlapping(cfg: Config, s: State, from: int, rd: int, nextRead: int, i: nat): (r: nat)
    requires i <= |s.wq| && BufferOk(s.wq, |s.tl.banks|)
    ensures i <= r <= |s.wq|
    decreases |s.wq| - i
  {
    if i == |s.wq| || Overlaps(cfg, s, from, rd, nextRead, i) then i
    else Overlapping(cfg, s, from, rd, nextRead, i + 1)
  }

  ghost function ReadSlot(cfg: Config, s: State, ready: int, bg: int): int {
    ColSlot(cfg, s.tl.cols, ready, bg, false, cfg.activeFirst)
  }

  ghost function Starve(cfg: Config, s: State, act: int, ready: int, bg: int, nextRead: int): (r: State)
    requires cfg.Ok() && StateOk(cfg, s)
    ensures StateOk(cfg, r) && |r.tl.banks| == |s.tl.banks| && r.admitted == s.admitted
    decreases |s.wq|
  {
    var i := Overlapping(cfg, s, act + 1, ReadSlot(cfg, s, ready, bg), nextRead, 0);
    if i == |s.wq| then s
    else
      CommitWriteOk(cfg, s, i, act + 1);
      Starve(cfg, CommitWrite(cfg, s, i, act + 1), act, ready, bg, nextRead)
  }

  // ----- One admission -----

  /** An access and the estimates the model forms about it: expected writebacks (for the replay
      and for the drain) and the next read's arrival. */
  datatype Request = Request(
    write: bool, address: int, bank: nat, bankGroup: int, row: nat, now: int,
    replayEstimate: nat, drainEstimate: nat, nextRead: int)

  function PruneCalendar(cal: seq<Command>, before: int): seq<Command> {
    cal[LowerIndex(cal, before)..]
  }

  function Prune(cfg: Config, s: State, now: int): State {
    s.(tl := s.tl.(cols := PruneCalendar(s.tl.cols, now - (cfg.MaxColGap() + 1)),
                   acts := PruneCalendar(s.tl.acts, now - (cfg.MaxActGap() + 1))))
  }

  lemma {:induction false} PruneOk(cfg: Config, s: State, now: int)
    requires StateOk(cfg, s)
    ensures StateOk(cfg, Prune(cfg, s, now))
  {
  }

  function Until(cfg: Config, now: int): int {
    if cfg.sameCycleWrites then now + 1 else now
  }

  /** When a forced drain starts: behind the reads it freezes, as configured. */
  function ForcedStart(cfg: Config, tl: Timeline, now: int): int {
    if tl.readHorizon <= now then now + 1
    else if cfg.drainAfterReads == 1 then Max(now + 1, tl.readColHorizon + 1)
    else if cfg.drainAfterReads == 2 then Max(now + 1, tl.readHorizon + 1)
    else if cfg.drainAfterReads == 3 then Max(now + 1, tl.readActHorizon + 1)
    else now + 1
  }

  /** Enter write mode through the high watermark. */
  function Force(cfg: Config, s: State, now: int, start: int): State {
    s.(writeMode := true, forced := true, forcedAt := now, drainStart := start,
       hitTime := if cfg.triggerHits && now + 1 < start then now + 1 else -1)
  }

  function Buffer(cfg: Config, s: State, q: Request): State {
    var b := s.(wq := s.wq + [Pending(q)], admitted := s.admitted + [Pending(q)]);
    if cfg.wqHigh <= |b.wq| && !(b.writeMode && b.forced) then Force(cfg, b, q.now, ForcedStart(cfg, b.tl, q.now))
    else b
  }

  lemma {:induction false} BufferKeepsOk(cfg: Config, s: State, q: Request)
    requires StateOk(cfg, s) && cfg.modelWrites && q.bank < |s.tl.banks|
    ensures StateOk(cfg, Buffer(cfg, s, q))
  {
  }

  predicate Forwarded(s: State, address: int) {
    exists i :: 0 <= i < |s.wq| && s.wq[i].address == address
  }

  /** Whether buffered writes are drained between this read's ACT and its RD. */
  predicate Starves(cfg: Config, s: State, plan: Booking, nextRead: int) {
    plan.opens && cfg.starveReads && cfg.modelWrites && s.wq != []
    && s.tl.readHorizon <= plan.leave < nextRead
  }

  function OpenForRead(cfg: Config, s: State, q: Request, plan: Booking): State
    requires q.bank < |s.tl.banks|
  {
    s.(tl := OpenRow(cfg, s.tl, q.bank, q.bankGroup, q.row, plan, true))
  }

  lemma {:induction false} OpenForReadOk(cfg: Config, s: State, q: Request, earliest: int)
    requires cfg.Ok() && StateOk(cfg, s) && q.bank < |s.tl.banks|
    requires PlanBook(cfg, s.tl, q.bank, q.bankGroup, q.row, false, earliest).opens
    ensures var o := OpenForRead(cfg, s, q, PlanBook(cfg, s.tl, q.bank, q.bankGroup, q.row, false, earliest));
            StateOk(cfg, o) && |o.tl.banks| == |s.tl.banks| && o.admitted == s.admitted
  {
    PlanColumnLegal(cfg, s.tl, q.bank, q.bankGroup, q.row, false, earliest);
    OpenRowOk(cfg, s.tl, q.bank, q.bankGroup, q.row, earliest, true);
    var b := PlanBook(cfg, s.tl, q.bank, q.bankGroup, q.row, false, earliest);
    WithTimelineOk(cfg, s, OpenRow(cfg, s.tl, q.bank, q.bankGroup, q.row, b, true));
  }

  ghost function FinishRead(cfg: Config, d: State, bank: nat, bg: int, ready: int): (r: State)
    requires cfg.Ok() && StateOk(cfg, d) && bank < |d.tl.banks|
    ensures StateOk(cfg, r) && |r.tl.banks| == |d.tl.banks| && r.admitted == d.admitted
  {
    var rd := ReadSlot(cfg, d, ready, bg);
    ColSlotIsLeast(cfg, d.tl.cols, ready, bg, false, cfg.activeFirst);
    FinishColumnOk(cfg, d.tl, bank, bg, false, rd, false, cfg.activeFirst);
    var tl := FinishColumn(cfg, d.tl, bank, bg, false, rd, false, cfg.activeFirst);
    WithTimelineOk(cfg, d, tl);
    d.(tl := tl)
  }

  /** The RD of a read whose row is open (state o), after the writes it lets pass. */
  ghost function StarvedSlot(cfg: Config, o: State, q: Request, act: int): int
    requires cfg.Ok() && StateOk(cfg, o)
  {
    ReadSlot(cfg, Starve(cfg, o, act, act + cfg.tRCD, q.bankGroup, q.nextRead), act + cfg.tRCD, q.bankGroup)
  }

  /** The state once those writes and that RD are booked. */
  ghost function StarvedState(cfg: Config, o: State, q: Request, act: int): State
    requires cfg.Ok() && StateOk(cfg, o) && q.bank < |o.tl.banks|
  {
    FinishRead(cfg, Starve(cfg, o, act, act + cfg.tRCD, q.bankGroup, q.nextRead), q.bank, q.bankGroup, act + cfg.tRCD)
  }

  lemma {:induction false} StarvedReadOk(cfg: Config, o: State, q: Request, act: int)
    requires cfg.Ok() && StateOk(cfg, o) && q.bank < |o.tl.banks|
    ensures var r := StarvedState(cfg, o, q, act);
            StateOk(cfg, r) && |r.tl.banks| == |o.tl.banks| && r.admitted == o.admitted
    ensures act + cfg.tRCD <= StarvedSlot(cfg, o, q, act)
  {
    hide Starve, FinishRead;
    var d := Starve(cfg, o, act, act + cfg.tRCD, q.bankGroup, q.nextRead);
    ColSlotIsLeast(cfg, d.tl.cols, act + cfg.tRCD, q.bankGroup, false, cfg.activeFirst);
  }

  ghost function BookRead(cfg: Config, s: State, q: Request, earliest: int): (r: (State, Booking))
    requires cfg.Ok() && StateOk(cfg, s) && q.bank < |s.tl.banks|
    ensures StateOk(cfg, r.0) && |r.0.tl.banks| == |s.tl.banks| && r.0.admitted == s.admitted
    ensures earliest <= r.1.column
  {
    PlanBookOrder(cfg, s.tl, q.bank, q.bankGroup, q.row, false, earliest);
    var b := PlanBook(cfg, s.tl, q.bank, q.bankGroup, q.row, false, earliest);
    if Starves(cfg, s, b, q.nextRead) then
      OpenForReadOk(cfg, s, q, earliest);
      var o := OpenForRead(cfg, s, q, b);
      StarvedReadOk(cfg, o, q, b.leave);
      (StarvedState(cfg, o, q, b.leave), b.(column := StarvedSlot(cfg, o, q, b.leave)))
    else
      ApplyBookOk(cfg, s.tl, q.bank, q.bankGroup, q.row, false, earliest);
      var tl := ApplyBook(cfg, s.tl, q.bank, q.bankGroup, q.row, false, earliest);
      WithTimelineOk(cfg, s, tl);
      (s.(tl := tl), b)
  }

  function RaiseHorizons(s: State, b: Booking): State {
    s.(tl := s.tl.(readHorizon := Max(s.tl.readHorizon, b.leave),
                   readColHorizon := Max(s.tl.readColHorizon, b.column),
                   readActHorizon := if b.opens then Max(s.tl.readActHorizon, b.leave) else s.tl.readActHorizon))
  }

  function Pending(q: Request): PendingWrite {
    PendingWrite(q.address, q.bank, q.bankGroup, q.row, q.now)
  }

  /** The state just before an access is served: calendars pruned, write mode replayed. */
  ghost function CatchUp(cfg: Config, s: State, q: Request): (r: State)
    requires cfg.Ok() && StateOk(cfg, s)
    ensures StateOk(cfg, r) && |r.tl.banks| == |s.tl.banks| && r.admitted == s.admitted
  {
    PruneOk(cfg, s, q.now);
    if cfg.modelWrites then Advance(cfg, Prune(cfg, s, q.now), Until(cfg, q.now), Capped(cfg, q.replayEstimate))
    else Prune(cfg, s, q.now)
  }

  /** A read that is not forwarded. */
  ghost function ServeRead(cfg: Config, s: State, q: Request): (r: (State, int))
    requires cfg.Ok() && StateOk(cfg, s) && q.bank < |s.tl.banks|
    ensures StateOk(cfg, r.0) && |r.0.tl.banks| == |s.tl.banks| && r.0.admitted == s.admitted
    ensures q.now + 1 + cfg.readLatency <= r.1
  {
    var (e, earliest) := EndWriteMode(cfg, s, q.now, q.drainEstimate);
    var (r, b) := BookRead(cfg, e, q, earliest);
    (RaiseHorizons(r, b), b.column + cfg.readLatency)
  }

  /** One admission: the new state and the returned completion time. */
  ghost function Predict(cfg: Config, s: State, q: Request): (r: (State, int))
    requires cfg.Ok() && StateOk(cfg, s) && q.bank < |s.tl.banks|
    ensures StateOk(cfg, r.0) && |r.0.tl.banks| == |s.tl.banks|
    ensures r.0.admitted == s.admitted + (if q.write && cfg.modelWrites then [Pending(q)] else [])
    ensures q.write ==> r.1 == q.now + cfg.writeAck
    ensures !q.write ==> r.1 == q.now + cfg.forwardLatency || q.now + 1 + cfg.readLatency <= r.1
  {
    var a := CatchUp(cfg, s, q);
    if q.write then
      if cfg.modelWrites then
        BufferKeepsOk(cfg, a, q);
        (Buffer(cfg, a, q), q.now + cfg.writeAck)
      else (a, q.now + cfg.writeAck)
    else if cfg.modelWrites && Forwarded(a, q.address) then (a, q.now + cfg.forwardLatency)
    else ServeRead(cfg, a, q)
  }

  // ----- Whole runs -----

  function Initial(n: nat): State {
    State(Timeline(seq(n, _ => INITIAL_BANK), [], [], 0, 0, 0), [], false, false, 0, 0, -1, 0, -1, [], [])
  }

  predicate RequestsFor(qs: seq<Request>, n: nat) {
    forall i :: 0 <= i < |qs| ==> qs[i].bank < n
  }

  /** The state after admitting qs in order, from power-up with n banks. */
  ghost function Run(cfg: Config, n: nat, qs: seq<Request>): (s: State)
    requires cfg.Ok() && RequestsFor(qs, n)
    ensures StateOk(cfg, s) && |s.tl.banks| == n
  {
    if qs == [] then Initial(n)
    else
      var s := Run(cfg, n, qs[..|qs| - 1]);
      Predict(cfg, s, qs[|qs| - 1]).0
  }

  /** The completion time returned for each of qs. */
  ghost function Completions(cfg: Config, n: nat, qs: seq<Request>): (r: seq<int>)
    requires cfg.Ok() && RequestsFor(qs, n)
    ensures |r| == |qs|
  {
    if qs == [] then []
    else
      var before := qs[..|qs| - 1];
      Completions(cfg, n, before) + [Predict(cfg, Run(cfg, n, before), qs[|qs| - 1]).1]
  }

  lemma {:induction false} RunStart(cfg: Config, n: nat, qs: seq<Request>)
    requires cfg.Ok() && RequestsFor(qs, n)
    ensures Run(cfg, n, qs[..0]) == Initial(n) && Completions(cfg, n, qs[..0]) == []
  {
  }

  lemma {:induction false} RunStep(cfg: Config, n: nat, qs: seq<Request>, i: nat)
    requires cfg.Ok() && RequestsFor(qs, n) && i < |qs|
    ensures Run(cfg, n, qs[..i + 1]) == Predict(cfg, Run(cfg, n, qs[..i]), qs[i]).0
    ensures Completions(cfg, n, qs[..i + 1])
            == Completions(cfg, n, qs[..i]) + [Predict(cfg, Run(cfg, n, qs[..i]), qs[i]).1]
  {
    hide Predict, StateOk;
    assert qs[..i + 1][..i] == qs[..i];
  }

  /** In every reachable state each bank's windows are in order with PRE-ACT >= tRAS,
      next ACT - PRE >= tRP + rp_adjust and ACT-ACT >= tRC, and the open row is the last,
      unclosed window. */
  lemma {:induction false} ReachableWindows(cfg: Config, n: nat, qs: seq<Request>, k: nat, i: nat)
    requires cfg.Ok() && RequestsFor(qs, n) && k < n
    requires i < |Run(cfg, n, qs).tl.banks[k].windows|
    ensures var b := Run(cfg, n, qs).tl.banks[k];
            var w := b.windows[i];
            && (w.pre == Never <==> i == |b.windows| - 1 && 0 <= b.row)
            && (w.pre == Never ==> w.row == b.row)
            && (w.pre.At? ==> w.act + cfg.tRAS <= w.pre.cycle)
            && (i + 1 < |b.windows| ==> w.pre.cycle + cfg.tRP + cfg.rpAdjust <= b.windows[i + 1].act
                                        && w.act + cfg.tRC <= b.windows[i + 1].act)
  {
    var b := Run(cfg, n, qs).tl.banks[k];
    assert BankOk(cfg, b);
    if i + 1 < |b.windows| {
      assert Follows(cfg, b.windows[i], b.windows[i + 1]);
    }
  }

  /** The spacing between two column commands: tCCD in one direction, else the turnaround. */
  function DirectionGap(cfg: Config, first: bool, second: bool, sameGroup: bool): int {
    match (first, second)
    case (false, false) => if sameGroup then cfg.tCCDL else cfg.tCCDS
    case (true, true) => if sameGroup then cfg.tCCDLWR else cfg.tCCDSWR
    case (true, false) => cfg.tCWL + cfg.tBL + (if sameGroup then cfg.tWTRL else cfg.tWTRS)
    case (false, true) => cfg.tRTW
  }

  /** Without window extension every live pair of ACTs is tRRD_S/L apart; with nothing ever moved
      every live pair of column commands keeps its directional gap, less col_squeeze between
      reads; with reads only and slipping, the whole gap. */
  lemma {:induction false} ReachableSpacing(cfg: Config, n: nat, qs: seq<Request>, i: nat, j: nat)
    requires cfg.Ok() && RequestsFor(qs, n) && i < j
    ensures var acts := Run(cfg, n, qs).tl.acts;
            cfg.hitExtend <= 0 && j < |acts| ==>
              acts[i].t + (if acts[i].bankGroup == acts[j].bankGroup then cfg.tRRDL else cfg.tRRDS) <= acts[j].t
    ensures var cols := Run(cfg, n, qs).tl.cols;
            j < |cols| ==>
              var a, b := cols[i], cols[j];
              var gap := DirectionGap(cfg, a.write, b.write, a.bankGroup == b.bankGroup);
              && (Fixed(cfg) ==> a.t + gap - (if a.write || b.write then 0 else cfg.colSqueeze) <= b.t)
              && (Conserving(cfg) ==> a.t + gap <= b.t)
  {
    var tl := Run(cfg, n, qs).tl;
    assert ColumnsOk(cfg, tl.cols) && ActsOk(cfg, tl.acts);
    if Conserving(cfg) && j < |tl.cols| {
      assert FullGap(cfg, tl.cols[i], tl.cols[j]);
    }
  }

  /** The writes among qs, as they are buffered. */
  function WritesIn(cfg: Config, qs: seq<Request>): seq<PendingWrite> {
    if qs == [] then []
    else WritesIn(cfg, qs[..|qs| - 1])
         + (if qs[|qs| - 1].write && cfg.modelWrites then [Pending(qs[|qs| - 1])] else [])
  }

  /** Over any run the writes admitted are exactly those buffered and those booked, each once. */
  lemma {:induction false} ReachableWrites(cfg: Config, n: nat, qs: seq<Request>)
    requires cfg.Ok() && RequestsFor(qs, n)
    ensures var s := Run(cfg, n, qs);
            && s.admitted == WritesIn(cfg, qs)
            && multiset(s.wq) + multiset(Writes(s.booked)) == multiset(WritesIn(cfg, qs))
  {
    if qs != [] {
      ReachableWrites(cfg, n, qs[..|qs| - 1]);
    }
  }
}
