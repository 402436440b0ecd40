/** Data model of the Opus reservation timeline: banks, calendars, buffered writes.
    Cycles are unbounded integers. The source's kNever sentinel is the constructor `Never`,
    which compares later than every cycle. */
module OpusTypes {
  import opened Basics

  datatype When = Never | At(cycle: int)

  /** A row's stay in a bank: ACT, closing PRE, and whether that PRE belongs to write mode. */
  datatype Window = Window(row: int, act: int, pre: When, writeClose: bool)

  datatype Bank = Bank(
    row: int,             // row left open by the last booked access; -1 when precharged
    actOk: int,           // earliest ACT
    preOk: int,           // earliest PRE
    preAfterWrite: bool,  // preOk was set by write recovery
    colOk: int,           // earliest column command
    windows: seq<Window>  // at most eight, oldest first
  )

  /** A booked column command or ACT of the channel. */
  datatype Command = Command(t: int, bankGroup: int, write: bool, bank: int, leaves: bool)

  datatype PendingWrite = PendingWrite(address: int, bank: int, bankGroup: int, row: int, arrive: int)

  datatype Booking = Booking(first: int, leave: int, column: int, opens: bool, inserted: bool)

  const INITIAL_BANK: Bank := Bank(-1, 0, 0, false, 0, [])

  /** Timings and switches, as `initialize` leaves them. */
  datatype Config = Config(
    tBL: int, tRCD: int, tRP: int, tRAS: int, tRC: int, tRTP: int, tWR: int, tCWL: int,
    tCCDS: int, tCCDL: int, tCCDSWR: int, tCCDLWR: int, tRRDS: int, tRRDL: int,
    tWTRS: int, tWTRL: int, tRTW: int, readLatency: int,
    rpAdjust: int, preWait: int, forwardLatency: int, colSqueeze: int, writeAck: int,
    modelWrites: bool, starveReads: bool, hitWindows: bool, hitExtend: int,
    colSlip: bool, slipSync: bool, activeFirst: bool, drainJoin: bool, triggerHits: bool,
    sameCycleWrites: bool, drainAfterReads: int, drainBlock: int,
    wqHigh: nat, wqLow: nat)
  {
    /** What a DRAM part's timings satisfy: no negative spacing, and the same-bank-group
        spacing is never the shorter one (the searched neighbourhood relies on it). */
    predicate Ok() {
      && 0 <= tBL && 0 <= tRCD && 0 <= tRAS && 0 <= tRC && 0 <= tRTP && 0 <= tWR && 0 <= tCWL
      && 0 <= tCCDS <= tCCDL && 0 <= tCCDSWR <= tCCDLWR && 0 <= tRRDS && 0 <= tRRDL
      && 0 <= tWTRS <= tWTRL && 0 <= tRTW
      && 0 <= tRP + rpAdjust && 0 <= preWait && 0 <= colSqueeze
    }

    function MaxColGap(): int {
      Max(Max(tCCDL, tCCDLWR), Max(tCWL + tBL + tWTRL, tRTW))
    }

    function MaxActGap(): int {
      Max(tRRDS, tRRDL)
    }

    /** Minimum spacing when one column command precedes another. */
    function ColGap(firstWrite: bool, firstGroup: int, secondWrite: bool, secondGroup: int): int {
      var same := firstGroup == secondGroup;
      if !firstWrite && !secondWrite then (if same then tCCDL else tCCDS)
      else if firstWrite && secondWrite then (if same then tCCDLWR else tCCDSWR)
      else if firstWrite then tCWL + tBL + (if same then tWTRL else tWTRS)
      else tRTW
    }

    function ActGap(firstGroup: int, secondGroup: int): int {
      if firstGroup == secondGroup then tRRDL else tRRDS
    }

    /** The overlap a read placed ahead of a booked read is allowed. */
    function Slack(write: bool, bookedWrite: bool): int {
      if !write && !bookedWrite then colSqueeze else 0
    }
  }

  lemma {:induction false} GapBounds(cfg: Config, fw: bool, fg: int, sw: bool, sg: int)
    requires cfg.Ok()
    ensures 0 <= cfg.ColGap(fw, fg, sw, sg) <= cfg.MaxColGap()
    ensures 0 <= cfg.ActGap(fg, sg) <= cfg.MaxActGap()
  {
  }
}
