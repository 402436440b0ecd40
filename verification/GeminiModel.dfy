/** The Gemini immediate-response model: open-page banks, a turnaround-aware bus list, a write
    queue drained opportunistically or at the high watermark. */
module GeminiModel {
  import opened Basics
  import opened GeminiBus

  datatype QueuedWrite = QueuedWrite(bank: nat, bg: int, row: nat, arrive: int)

  datatype Timing = Timing(
    gaps: Gaps, hit: int, writeHit: int, rcd: int, rp: int, ras: int, rc: int, rtp: int, wr: int,
    drain: int, readLatency: int, highMark: int, lowMark: int)

  datatype Bank = Bank(openRow: int, rowReady: int, colReady: int, preReady: int, actReady: int)

  const IDLE_BANK: Bank := Bank(-1, 0, 0, 0, 0)

  /** The earliest column command of an access to `row`. */
  function CommandTime(tm: Timing, b: Bank, row: int, start: int): int {
    if b.openRow == row then Max(start, Max(b.rowReady, b.colReady))
    else if b.openRow == -1 then Max(start, b.actReady) + tm.rcd
    else Max(Max(start, b.preReady) + tm.rp, b.actReady) + tm.rcd
  }

  /** An ACT the bank allows: of its own accord on an idle bank, tRP after a legal PRE otherwise. */
  predicate Opens(tm: Timing, b: Bank, start: int, pre: int, act: int) {
    && start <= pre && b.actReady <= act
    && (if b.openRow == -1 then pre <= act else b.preReady <= pre && pre + tm.rp <= act)
  }

  /** A column command at c that the bank allows: after its row and column limits on an open row, tRCD after
      a legal ACT otherwise. */
  ghost predicate Allowed(tm: Timing, b: Bank, row: int, start: int, c: int) {
    if b.openRow == row then start <= c && b.rowReady <= c && b.colReady <= c
    else exists pre, act :: Opens(tm, b, start, pre, act) && act + tm.rcd <= c
  }

  /** The command time is the least the bank allows. */
  lemma {:induction false} CommandIsLeast(tm: Timing, b: Bank, row: int, start: int, c: int)
    ensures Allowed(tm, b, row, start, c) <==> CommandTime(tm, b, row, start) <= c
  {
    if b.openRow != row {
      var pre := if b.openRow == -1 then start else Max(start, b.preReady);
      assert Opens(tm, b, start, pre, CommandTime(tm, b, row, start) - tm.rcd);
    }
  }

  /** The bank once its column command is fixed at `cmd`, its burst departing at t. */
  function Served(tm: Timing, b: Bank, row: int, write: bool, cmd: int, t: int): Bank {
    var pre := Max(b.preReady, if write then t + tm.wr else cmd + tm.rtp);
    if b.openRow == row then Bank(row, cmd, cmd + tm.gaps.ccdl, pre, b.actReady)
    else Bank(row, cmd, cmd + tm.gaps.ccdl, Max(pre, cmd - tm.rcd + tm.ras), cmd - tm.rcd + tm.rc)
  }

  /** The queue after a write joins it: the 65th pushes out the oldest. */
  function Enqueued(q: seq<QueuedWrite>, w: QueuedWrite): seq<QueuedWrite> {
    if |q| + 1 > 64 then (q + [w])[1..] else q + [w]
  }

  /** A bank a block drain writes to. */
  function Flushed(tm: Timing, b: Bank, row: int, until: int): Bank {
    b.(openRow := row, preReady := Max(b.preReady, until + tm.wr))
  }

  function DrainBlock(tm: Timing, banks: seq<Bank>, q: seq<QueuedWrite>, n: nat, until: int): (r: seq<Bank>)
    requires n <= |q| && forall i :: 0 <= i < |q| ==> q[i].bank < |banks|
    ensures |r| == |banks|
  {
    if n == 0 then banks
    else
      var r := DrainBlock(tm, banks, q, n - 1, until);
      r[q[n - 1].bank := Flushed(tm, r[q[n - 1].bank], q[n - 1].row, until)]
  }

  /** The last of the first n queued writes that goes to bank k, or -1. */
  function LastTo(q: seq<QueuedWrite>, n: nat, k: nat): (i: int)
    requires n <= |q|
    ensures -1 <= i < n && (0 <= i ==> q[i].bank == k) && forall j :: i < j < n ==> q[j].bank != k
  {
    if n == 0 then -1 else if q[n - 1].bank == k then n - 1 else LastTo(q, n - 1, k)
  }

  /** A block drain leaves each bank it writes to with the row of the last write, held until that write
      has recovered, and every other bank alone. */
  lemma {:induction false} DrainBlockExact(tm: Timing, banks: seq<Bank>, q: seq<QueuedWrite>, n: nat, until: int,
                                           k: nat)
    requires n <= |q| && k < |banks| && forall i :: 0 <= i < |q| ==> q[i].bank < |banks|
    ensures DrainBlock(tm, banks, q, n, until)[k]
            == if LastTo(q, n, k) < 0 then banks[k]
               else banks[k].(openRow := q[LastTo(q, n, k)].row, preReady := Max(banks[k].preReady, until + tm.wr))
  {
    if n > 0 {
      DrainBlockExact(tm, banks, q, n - 1, until, k);
    }
  }

  /** A bank's activations so far, and that its next one waits for the last. */
  predicate ActsOk(tm: Timing, acts: seq<int>, b: Bank) {
    && (forall i :: 0 <= i < |acts| - 1 ==> acts[i] + tm.rc <= acts[i + 1])
    && (acts != [] ==> acts[|acts| - 1] + tm.rc <= b.actReady)
  }

  predicate AllActsOk(tm: Timing, acts: seq<seq<int>>, banks: seq<Bank>) {
    |acts| == |banks| && forall k :: 0 <= k < |banks| ==> ActsOk(tm, acts[k], banks[k])
  }

  /** An access that opens its row activates at least tRC after the bank's previous activation,
      whatever the bus then does to its column command. */
  lemma {:induction false} ServedActs(tm: Timing, acts: seq<int>, b: Bank, row: int, write: bool, start: int,
                                      cmd: int, t: int)
    requires ActsOk(tm, acts, b) && CommandTime(tm, b, row, start) <= cmd
    ensures ActsOk(tm, if b.openRow == row then acts else acts + [cmd - tm.rcd], Served(tm, b, row, write, cmd, t))
  {
    var acts' := if b.openRow == row then acts else acts + [cmd - tm.rcd];
    forall i | 0 <= i < |acts'| - 1 ensures acts'[i] + tm.rc <= acts'[i + 1] {
      if i == |acts| - 1 {
        assert acts'[i] == acts[|acts| - 1];
      }
    }
  }

  /** A command of a bank: an ACT, an RD, a write's burst, or the end of a block drain it took part in. */
  datatype Event = Act(t: int) | Column(t: int) | WriteBurst(t: int) | Block(t: int)

  /** When the bank has recovered from it and may precharge. */
  function Recovered(tm: Timing, e: Event): int {
    match e
    case Act(t) => t + tm.ras
    case Column(t) => t + tm.rtp
    case WriteBurst(t) => t + tm.wr
    case Block(t) => t + tm.wr
  }

  /** The column command of a read or of a write. */
  function CommandOf(tm: Timing, e: Event): int {
    if e.WriteBurst? then e.t - tm.writeHit else e.t
  }

  predicate IsColumn(e: Event) {
    e.Column? || e.WriteBurst?
  }

  /** Every activation comes rp or more after each earlier command of its bank has recovered, the next
      precharge waits for all of them, and accesses to an open row keep their column commands ccdl apart. */
  predicate EventsOk(tm: Timing, es: seq<Event>, b: Bank) {
    -1 <= b.openRow && (b.openRow == -1 ==> es == []) && PrechargesOk(tm, es, b) && ColumnsApart(tm, es, b)
  }

  predicate PrechargesOk(tm: Timing, es: seq<Event>, b: Bank) {
    && (forall i :: 0 <= i < |es| ==> Recovered(tm, es[i]) <= b.preReady)
    && (forall i, j :: 0 <= i < j < |es| && es[j].Act? ==> Recovered(tm, es[i]) + tm.rp <= es[j].t)
  }

  predicate ColumnsApart(tm: Timing, es: seq<Event>, b: Bank) {
    && (forall i :: 0 <= i < |es| - 1 && IsColumn(es[i]) && IsColumn(es[i + 1]) ==>
          CommandOf(tm, es[i]) + tm.gaps.ccdl <= CommandOf(tm, es[i + 1]))
    && (es != [] && IsColumn(es[|es| - 1]) ==> CommandOf(tm, es[|es| - 1]) + tm.gaps.ccdl <= b.colReady)
  }

  predicate AllEventsOk(tm: Timing, events: seq<seq<Event>>, banks: seq<Bank>) {
    |events| == |banks| && forall k :: 0 <= k < |banks| ==> EventsOk(tm, events[k], banks[k])
  }

  /** The commands of one access: an ACT unless its row is open, then its column command or burst. */
  function EventsOf(tm: Timing, b: Bank, row: nat, write: bool, cmd: int, t: int): seq<Event> {
    (if b.openRow == row then [] else [Act(cmd - tm.rcd)]) + [if write then WriteBurst(t) else Column(cmd)]
  }

  /** A row conflict pays for the precharge and for the recovery of everything before it. */
  lemma {:induction false} ServedRecovers(tm: Timing, es: seq<Event>, b: Bank, row: nat, write: bool, start: int,
                                          cmd: int, t: int)
    requires EventsOk(tm, es, b) && CommandTime(tm, b, row, start) <= cmd && (write ==> t == cmd + tm.writeHit)
    ensures EventsOk(tm, es + EventsOf(tm, b, row, write, cmd, t), Served(tm, b, row, write, cmd, t))
  {
    ServedPrecharges(tm, es, b, row, write, start, cmd, t);
    ServedColumns(tm, es, b, row, write, start, cmd, t);
  }

  lemma {:induction false} ServedPrecharges(tm: Timing, es: seq<Event>, b: Bank, row: nat, write: bool, start: int,
                                            cmd: int, t: int)
    requires EventsOk(tm, es, b) && CommandTime(tm, b, row, start) <= cmd
    ensures PrechargesOk(tm, es + EventsOf(tm, b, row, write, cmd, t), Served(tm, b, row, write, cmd, t))
  {
    hide ColumnsApart;
    var es' := es + EventsOf(tm, b, row, write, cmd, t);
    forall i, j | 0 <= i < j < |es'| && es'[j].Act? ensures Recovered(tm, es'[i]) + tm.rp <= es'[j].t {
      if j == |es| {
        assert es'[i] == es[i];
      }
    }
  }

  lemma {:induction false} ServedColumns(tm: Timing, es: seq<Event>, b: Bank, row: nat, write: bool, start: int,
                                         cmd: int, t: int)
    requires EventsOk(tm, es, b) && CommandTime(tm, b, row, start) <= cmd && (write ==> t == cmd + tm.writeHit)
    ensures ColumnsApart(tm, es + EventsOf(tm, b, row, write, cmd, t), Served(tm, b, row, write, cmd, t))
  {
    hide PrechargesOk;
    var es' := es + EventsOf(tm, b, row, write, cmd, t);
    forall i | 0 <= i < |es'| - 1 && IsColumn(es'[i]) && IsColumn(es'[i + 1])
      ensures CommandOf(tm, es'[i]) + tm.gaps.ccdl <= CommandOf(tm, es'[i + 1])
    {
      if i == |es| - 1 {
        assert es'[i] == es[|es| - 1];
      }
    }
  }

  lemma {:induction false} FlushedRecovers(tm: Timing, es: seq<Event>, b: Bank, row: nat, until: int)
    requires EventsOk(tm, es, b)
    ensures EventsOk(tm, es + [Block(until)], Flushed(tm, b, row, until))
  {
  }

  /** What an access changes. */
  datatype Progress = Progress(banks: seq<Bank>, bursts: seq<Burst>, queue: seq<QueuedWrite>)

  /** The burst an access asks for: its data ready, but not inside a block drain. */
  function Wanted(tm: Timing, b: Bank, bank: nat, bg: int, row: int, write: bool, start: int, until: int): Burst {
    Burst(Max(CommandTime(tm, b, row, start) + (if write then tm.writeHit else tm.hit), until), bank, bg, write)
  }

  /** When an access's burst departs. */
  function Departs(tm: Timing, p: Progress, bank: nat, bg: int, row: int, write: bool, start: int, until: int): int
    requires bank < |p.banks|
  {
    SlotFrom(tm.gaps, p.bursts, 0, Wanted(tm, p.banks[bank], bank, bg, row, write, start, until)).depart
  }

  function After(tm: Timing, p: Progress, bank: nat, bg: int, row: int, write: bool, start: int, until: int)
    : (r: Progress)
    requires bank < |p.banks|
    ensures |r.banks| == |p.banks| && r.queue == p.queue
  {
    var t := Departs(tm, p, bank, bg, row, write, start, until);
    p.(bursts := Scheduled(tm.gaps, p.bursts, Wanted(tm, p.banks[bank], bank, bg, row, write, start, until)),
       banks := p.banks[bank := Served(tm, p.banks[bank], row, write, t - (if write then tm.writeHit else tm.hit), t)])
  }

  /** Whether a bank still has a burst to send. */
  predicate Busy(bursts: seq<Burst>, bank: nat, now: int) {
    exists i :: 0 <= i < |bursts| && bursts[i].bank == bank && now < bursts[i].depart
  }

  /** Whether the queue's front write would have started before `now`. */
  predicate WouldHaveStarted(p: Progress, w: QueuedWrite, now: int)
    requires w.bank < |p.banks|
  {
    var b := p.banks[w.bank];
    && w.arrive < now
    && (b.openRow != -1 && b.openRow != w.row ==> !Busy(p.bursts, w.bank, now))
    && (if b.openRow == w.row then Max(w.arrive, Max(b.rowReady, b.colReady))
        else if b.openRow == -1 then Max(w.arrive, b.actReady)
        else Max(w.arrive, Max(b.preReady, b.colReady))) < now
  }

  predicate QueueOk(q: seq<QueuedWrite>, n: nat) {
    forall i :: 0 <= i < |q| ==> q[i].bank < n
  }

  /** Execute, oldest first, the queued writes that idle gaps before `now` would have taken; stop at the
      first that would not have started or whose burst departs after `now`. */
  function Drained(tm: Timing, p: Progress, until: int, now: int): (r: Progress)
    requires QueueOk(p.queue, |p.banks|)
    ensures |r.banks| == |p.banks|
    decreases |p.queue|
  {
    if p.queue == [] || !WouldHaveStarted(p, p.queue[0], now) then p
    else
      var w := p.queue[0];
      var q := After(tm, p, w.bank, w.bg, w.row, true, w.arrive, until).(queue := p.queue[1..]);
      if now < Departs(tm, p, w.bank, w.bg, w.row, true, w.arrive, until) then q else Drained(tm, q, until, now)
  }

  /** Forget the bursts that departed long before `base`. */
  function Forgotten(bursts: seq<Burst>, base: int): seq<Burst> {
    if bursts != [] && bursts[0].depart < base - 200 then Forgotten(bursts[1..], base) else bursts
  }

  class Model {
    const tm: Timing
    var banks: seq<Bank>
    var bursts: seq<Burst>
    var writeQueue: seq<QueuedWrite>
    var writeDrainUntil: int
    ghost var acts: seq<seq<int>>       // per bank, the activation times so far
    ghost var events: seq<seq<Event>>   // per bank, its commands so far

    ghost predicate Valid()
      reads this
    {
      && tm.gaps.Positive() && Spaced(tm.gaps, bursts) && AllActsOk(tm, acts, banks) && AllEventsOk(tm, events, banks)
      && QueueOk(writeQueue, |banks|)
    }

    ghost function Now(): Progress
      reads this`banks, this`bursts, this`writeQueue
    {
      Progress(banks, bursts, writeQueue)
    }

    constructor (tm: Timing, n: nat)
      requires tm.gaps.Positive()
      ensures Valid() && this.tm == tm && bursts == [] && writeQueue == [] && writeDrainUntil == 0
      ensures |banks| == n && forall k :: 0 <= k < n ==> banks[k] == IDLE_BANK && events[k] == []
    {
      this.tm := tm;
      banks, bursts, writeQueue, writeDrainUntil := seq(n, _ => IDLE_BANK), [], [], 0;
      acts, events := seq(n, _ => []), seq(n, _ => []);
    }

    /** One pass over the booked bursts. */
    method FindBusSlot(earliest: int, bg: int, write: bool) returns (t: int)
      ensures t == SlotFrom(tm.gaps, bursts, 0, Burst(Max(earliest, writeDrainUntil), 0, bg, write)).depart
    {
      t := Max(earliest, writeDrainUntil);
      ghost var start := Burst(t, 0, bg, write);
      var i := 0;
      while i < |bursts|
        invariant 0 <= i <= |bursts|
        invariant SlotFrom(tm.gaps, bursts, i, Burst(t, 0, bg, write)) == SlotFrom(tm.gaps, bursts, 0, start)
      {
        var b := bursts[i];
        if t + tm.gaps.Between(write, bg, b.write, b.bg) <= b.depart { break; }
        t := Max(t, b.depart + tm.gaps.Between(b.write, b.bg, write, bg));
        i := i + 1;
      }
    }

    method ScheduleBurst(earliest: int, bank: nat, bg: int, write: bool) returns (t: int)
      requires tm.gaps.Positive() && Spaced(tm.gaps, bursts)
      modifies this`bursts
      ensures Spaced(tm.gaps, bursts) && earliest <= t && writeDrainUntil <= t
      ensures bursts == Scheduled(tm.gaps, old(bursts), Burst(Max(earliest, writeDrainUntil), bank, bg, write))
      ensures t == SlotFrom(tm.gaps, old(bursts), 0, Burst(Max(earliest, writeDrainUntil), bank, bg, write)).depart
    {
      ghost var b := Burst(Max(earliest, writeDrainUntil), bank, bg, write);
      SlotFits(tm.gaps, bursts, 0, b);
      SlotIgnoresBank(tm.gaps, bursts, 0, b, 0);
      ScheduledSpaced(tm.gaps, bursts, b);
      t := FindBusSlot(earliest, bg, write);
      var k := UpperIndex(bursts, t);
      bursts := bursts[..k] + [Burst(t, bank, bg, write)] + bursts[k..];
    }

    /** Serve one access from `start`: bank timing, then a bus slot, then the bank's new limits. */
    method Serve(bank: nat, bg: int, row: nat, write: bool, start: int) returns (t: int)
      requires Valid() && bank < |banks|
      modifies this`banks, this`bursts, this`acts, this`events
      ensures Valid() && t == Departs(tm, old(Now()), bank, bg, row, write, start, writeDrainUntil)
      ensures Now() == After(tm, old(Now()), bank, bg, row, write, start, writeDrainUntil)
      ensures CommandTime(tm, old(banks)[bank], row, start) + (if write then tm.writeHit else tm.hit) <= t
      ensures var cmd := t - (if write then tm.writeHit else tm.hit);
              events == old(events)[bank := old(events)[bank] + EventsOf(tm, old(banks)[bank], row, write, cmd, t)]
    {
      hide EventsOk, ActsOk;
      var latency := if write then tm.writeHit else tm.hit;
      t := ScheduleBurst(CommandTime(tm, banks[bank], row, start) + latency, bank, bg, write);
      UpdateBank(bank, row, write, start, t - latency, t);
    }

    /** The bank's limits once its column command is fixed at `cmd`. */
    method UpdateBank(bank: nat, row: nat, write: bool, ghost start: int, cmd: int, t: int)
      requires AllActsOk(tm, acts, banks) && AllEventsOk(tm, events, banks)
      requires bank < |banks| && CommandTime(tm, banks[bank], row, start) <= cmd
      requires t == cmd + (if write then tm.writeHit else tm.hit)
      modifies this`banks, this`acts, this`events
      ensures AllActsOk(tm, acts, banks) && AllEventsOk(tm, events, banks)
      ensures events == old(events)[bank := old(events)[bank] + EventsOf(tm, old(banks)[bank], row, write, cmd, t)]
      ensures banks == old(banks)[bank := Served(tm, old(banks)[bank], row, write, cmd, t)]
    {
      hide EventsOk, ActsOk;
      var b := banks[bank];
      ServedActs(tm, acts[bank], b, row, write, start, cmd, t);
      ServedRecovers(tm, events[bank], b, row, write, start, cmd, t);
      events := events[bank := events[bank] + EventsOf(tm, b, row, write, cmd, t)];
      if b.openRow != row {
        acts := acts[bank := acts[bank] + [cmd - tm.rcd]];
      }
      banks := banks[bank := Served(tm, b, row, write, cmd, t)];
    }

    /** Execute the queued writes that idle gaps before `now` would have taken. */
    method DrainOpportunistic(now: int)
      requires Valid()
      modifies this`banks, this`bursts, this`acts, this`events, this`writeQueue
      ensures Valid() && Now() == Drained(tm, old(Now()), writeDrainUntil, now)
    {
      hide EventsOk, ActsOk;
      while writeQueue != [] && WouldHaveStarted(Progress(banks, bursts, writeQueue), writeQueue[0], now)
        invariant Valid() && Drained(tm, Now(), writeDrainUntil, now) == Drained(tm, old(Now()), writeDrainUntil, now)
        decreases |writeQueue|
      {
        var w := writeQueue[0];
        var t := Serve(w.bank, w.bg, w.row, true, w.arrive);
        writeQueue := writeQueue[1..];
        if now < t { return; }
      }
    }

    /** Queue a write; at the high watermark the oldest writes are drained in one block. */
    method PredictWrite(bank: nat, bg: int, row: nat, now: int) returns (done: int)
      requires Valid() && bank < |banks| && 0 <= tm.lowMark
      modifies this`banks, this`events, this`writeQueue, this`writeDrainUntil
      ensures Valid() && done == now + tm.readLatency
      ensures var q := Enqueued(old(writeQueue), QueuedWrite(bank, bg, row, now));
              var n := Max(0, |q| - tm.lowMark);
              if old(writeDrainUntil) <= now && tm.highMark <= |q| then
                && writeDrainUntil == now + tm.drain && writeQueue == q[n..]
                && banks == DrainBlock(tm, old(banks), q, n, writeDrainUntil)
              else writeQueue == q && banks == old(banks) && writeDrainUntil == old(writeDrainUntil)
    {
      hide EventsOk, ActsOk;
      var q := writeQueue + [QueuedWrite(bank, bg, row, now)];
      if |q| > 64 {
        q := q[1..];
      }
      assert q == Enqueued(writeQueue, QueuedWrite(bank, bg, row, now));
      writeQueue := q;
      done := now + tm.readLatency;
      if writeDrainUntil <= now && tm.highMark <= |q| {
        writeDrainUntil := now + tm.drain;
        var n := Max(0, |q| - tm.lowMark);
        FlushBanks(q, n);
        writeQueue := q[n..];
      }
    }

    /** The first n queued writes open their rows and hold their banks until the block drain ends. */
    method FlushBanks(q: seq<QueuedWrite>, n: nat)
      requires Valid() && n <= |q| && QueueOk(q, |banks|)
      modifies this`banks, this`events
      ensures Valid() && banks == DrainBlock(tm, old(banks), q, n, writeDrainUntil)
    {
      hide EventsOk;
      for i := 0 to n
        invariant Valid() && |banks| == |old(banks)| && banks == DrainBlock(tm, old(banks), q, i, writeDrainUntil)
      {
        FlushedRecovers(tm, events[q[i].bank], banks[q[i].bank], q[i].row, writeDrainUntil);
        events := events[q[i].bank := events[q[i].bank] + [Block(writeDrainUntil)]];
        banks := banks[q[i].bank := Flushed(tm, banks[q[i].bank], q[i].row, writeDrainUntil)];
      }
    }

    /** Drop the bursts that departed long before `base` from the front of the list. */
    method Forget(base: int)
      requires Valid()
      modifies this`bursts
      ensures Valid() && bursts == Forgotten(old(bursts), base)
    {
      hide EventsOk, ActsOk;
      while bursts != [] && bursts[0].depart < base - 200
        invariant Valid() && Forgotten(bursts, base) == Forgotten(old(bursts), base)
        decreases |bursts|
      {
        bursts := bursts[1..];
      }
    }

    /** Admit a read; `congestion` is the queueing delay estimated for it. */
    method PredictRead(bank: nat, bg: int, row: nat, now: int, congestion: nat) returns (done: int)
      requires Valid() && bank < |banks|
      modifies this`banks, this`bursts, this`acts, this`events, this`writeQueue
      ensures Valid()
      ensures var d := Drained(tm, old(Now()), writeDrainUntil, now);
              var base := Max(now + congestion, writeDrainUntil);
              var p := d.(bursts := Forgotten(d.bursts, base));
              && done == Departs(tm, p, bank, bg, row, false, base, writeDrainUntil)
              && Now() == After(tm, p, bank, bg, row, false, base, writeDrainUntil)
      ensures 0 <= tm.rcd && 0 <= tm.rp ==> Max(now + congestion, writeDrainUntil) + tm.hit <= done
      ensures events[bank] != [] && events[bank][|events[bank]| - 1] == Column(done - tm.hit)
    {
      hide EventsOk, ActsOk, Spaced, Drained, Forgotten, After, Departs;
      DrainOpportunistic(now);
      var base := Max(now + congestion, writeDrainUntil);
      Forget(base);
      done := Serve(bank, bg, row, false, base);
    }
  }

  lemma {:induction false} InsertMembers(bursts: seq<Burst>, b: Burst)
    ensures |Insert(bursts, b)| == |bursts| + 1 && multiset(Insert(bursts, b)) == multiset(bursts) + multiset{b}
  {
    var k := UpperIndex(bursts, b.depart);
    assert bursts == bursts[..k] + bursts[k..];
  }

  /** A bank with a burst still to send keeps its open row: draining never closes it. */
  lemma {:induction false} DrainKeepsBusyRow(tm: Timing, p: Progress, until: int, now: int, k: nat)
    requires QueueOk(p.queue, |p.banks|) && k < |p.banks| && p.banks[k].openRow != -1 && Busy(p.bursts, k, now)
    ensures Drained(tm, p, until, now).banks[k].openRow == p.banks[k].openRow
    decreases |p.queue|
  {
    hide SlotFrom, CommandTime;
    if p.queue != [] && WouldHaveStarted(p, p.queue[0], now) {
      var w := p.queue[0];
      var q := After(tm, p, w.bank, w.bg, w.row, true, w.arrive, until).(queue := p.queue[1..]);
      var b := SlotFrom(tm.gaps, p.bursts, 0, Wanted(tm, p.banks[w.bank], w.bank, w.bg, w.row, true, w.arrive, until));
      BusyStays(p.bursts, b, k, now);
      if Departs(tm, p, w.bank, w.bg, w.row, true, w.arrive, until) <= now {
        DrainKeepsBusyRow(tm, q, until, now, k);
      }
    }
  }

  lemma {:induction false} BusyStays(bursts: seq<Burst>, b: Burst, k: nat, now: int)
    requires Busy(bursts, k, now)
    ensures Busy(Insert(bursts, b), k, now)
  {
    var i :| 0 <= i < |bursts| && bursts[i].bank == k && now < bursts[i].depart;
    var u := UpperIndex(bursts, b.depart);
    assert Insert(bursts, b)[if i < u then i else i + 1] == bursts[i];
  }

  /** Draining stops only when the queue is empty, its front would not have started, or the last drained
      burst departs after `now`. */
  lemma {:induction false} DrainedStops(tm: Timing, p: Progress, until: int, now: int)
    requires QueueOk(p.queue, |p.banks|)
    ensures var r := Drained(tm, p, until, now);
            || r.queue == [] || (r.queue[0].bank < |r.banks| && !WouldHaveStarted(r, r.queue[0], now))
            || exists i :: 0 <= i < |r.bursts| && r.bursts[i].write && now < r.bursts[i].depart
    decreases |p.queue|
  {
    hide CommandTime;
    if p.queue != [] && WouldHaveStarted(p, p.queue[0], now) {
      var w := p.queue[0];
      var want := Wanted(tm, p.banks[w.bank], w.bank, w.bg, w.row, true, w.arrive, until);
      var q := After(tm, p, w.bank, w.bg, w.row, true, w.arrive, until).(queue := p.queue[1..]);
      if now < Departs(tm, p, w.bank, w.bg, w.row, true, w.arrive, until) {
        SlotKind(tm.gaps, p.bursts, 0, want);
        var b := SlotFrom(tm.gaps, p.bursts, 0, want);
        assert q.bursts[UpperIndex(p.bursts, b.depart)] == b;
      } else {
        DrainedStops(tm, q, until, now);
      }
    }
  }

  lemma {:induction false} SlotKind(g: Gaps, bursts: seq<Burst>, i: nat, b: Burst)
    requires i <= |bursts|
    ensures SlotFrom(g, bursts, i, b).write == b.write && SlotFrom(g, bursts, i, b).bank == b.bank
    decreases |bursts| - i
  {
    if i < |bursts| && !(b.depart + Gap(g, b, bursts[i]) <= bursts[i].depart) {
      SlotKind(g, bursts, i + 1, b.(depart := Max(b.depart, bursts[i].depart + Gap(g, bursts[i], b))));
    }
  }

  /** Draining moves writes, oldest first, from the queue to the bus: one burst for each. */
  lemma {:induction false} DrainedConserves(tm: Timing, p: Progress, until: int, now: int)
    requires QueueOk(p.queue, |p.banks|)
    ensures var r := Drained(tm, p, until, now);
            && |r.queue| <= |p.queue| && r.queue == p.queue[|p.queue| - |r.queue|..]
            && |r.bursts| - |p.bursts| == |p.queue| - |r.queue|
            && multiset(p.bursts) <= multiset(r.bursts)
    decreases |p.queue|
  {
    hide Insert, SlotFrom, Served, CommandTime, Busy;
    if p.queue != [] && WouldHaveStarted(p, p.queue[0], now) {
      var w := p.queue[0];
      var q := After(tm, p, w.bank, w.bg, w.row, true, w.arrive, until).(queue := p.queue[1..]);
      var b := Wanted(tm, p.banks[w.bank], w.bank, w.bg, w.row, true, w.arrive, until);
      InsertMembers(p.bursts, SlotFrom(tm.gaps, p.bursts, 0, b));
      if !(now < Departs(tm, p, w.bank, w.bg, w.row, true, w.arrive, until)) {
        DrainedConserves(tm, q, until, now);
      }
    }
  }

  lemma {:induction false} SlotIgnoresBank(g: Gaps, bursts: seq<Burst>, i: nat, b: Burst, bank: nat)
    requires i <= |bursts|
    ensures SlotFrom(g, bursts, i, b.(bank := bank)) == SlotFrom(g, bursts, i, b).(bank := bank)
    decreases |bursts| - i
  {
    if i < |bursts| && !(b.depart + Gap(g, b, bursts[i]) <= bursts[i].depart) {
      SlotIgnoresBank(g, bursts, i + 1, b.(depart := Max(b.depart, bursts[i].depart + Gap(g, bursts[i], b))), bank);
    }
  }
}
