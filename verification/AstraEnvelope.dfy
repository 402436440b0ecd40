/** The Astra service-envelope model: fluid work clocks per bank, group, rank and channel, and an
    eight-entry recency table per bank. Doubles are modelled as reals. */
module AstraEnvelope {

  import RealFacts

  function Max(a: real, b: real): real {
    if a < b then b else a
  }

  function Min(a: real, b: real): real {
    if a < b then a else b
  }

  function Clamp(x: real, lo: real, hi: real): real {
    if x < lo then lo else if hi < x then hi else x
  }

  function Ceil(x: real): int {
    -((-x).Floor)
  }

  // ----- The transfer clock in closed form -----

  /** One admission's share of a channel: when it arrived and the transfer work it brought. */
  datatype Work = Work(arrive: real, service: real)

  function Total(h: seq<Work>, j: nat): real
    requires j <= |h|
    decreases |h| - j
  {
    if j == |h| then 0.0 else h[j].service + Total(h, j + 1)
  }

  /** v is the max-plus form of the history: the latest of "all work back to back from time 0" and,
      for each admission, "all work from it on back to back from its arrival". */
  ghost predicate MaxPlus(h: seq<Work>, v: real) {
    && Total(h, 0) <= v
    && (forall j :: 0 <= j < |h| ==> h[j].arrive + Total(h, j) <= v)
    && (v == Total(h, 0) || exists j :: 0 <= j < |h| && v == h[j].arrive + Total(h, j))
  }

  lemma {:induction false} TotalAppend(h: seq<Work>, w: Work, j: nat)
    requires j <= |h|
    ensures Total(h + [w], j) == Total(h, j) + w.service
    decreases |h| - j
  {
    if j < |h| {
      TotalAppend(h, w, j + 1);
    }
  }

  /** The clock's one-line update computes the closed form of the longer history. */
  lemma {:induction false} MaxPlusStep(h: seq<Work>, v: real, w: Work)
    requires MaxPlus(h, v)
    ensures MaxPlus(h + [w], Max(w.arrive, v) + w.service)
  {
    var h', v' := h + [w], Max(w.arrive, v) + w.service;
    TotalAppend(h, w, 0);
    forall j | 0 <= j < |h'| ensures h'[j].arrive + Total(h', j) <= v' {
      if j < |h| {
        TotalAppend(h, w, j);
        assert h[j].arrive + Total(h, j) <= v;
      }
    }
    if v < w.arrive {
      assert v' == h'[|h|].arrive + Total(h', |h|);
    } else if v != Total(h, 0) {
      var j :| 0 <= j < |h| && v == h[j].arrive + Total(h, j);
      TotalAppend(h, w, j);
      assert v' == h'[j].arrive + Total(h', j);
    }
  }

  /** Once something has arrived at a nonnegative time, the clock is the maximum over the admissions alone. */
  lemma {:induction false} MaxPlusIsMaximum(h: seq<Work>, v: real)
    requires MaxPlus(h, v) && 0 < |h| && 0.0 <= h[0].arrive
    ensures exists j :: 0 <= j < |h| && v == h[j].arrive + Total(h, j)
    ensures forall j :: 0 <= j < |h| ==> h[j].arrive + Total(h, j) <= v
  {
    assert h[0].arrive + Total(h, 0) <= v;
  }

  // ----- The recency table -----

  const LONG_AGO: real := -1000000000000000000000000000000.0

  datatype Recent = Recent(row: int, seen: real)

  /** The table against when each row was really last seen: kept rows are distinct and current, and
      a row that is absent was last seen no later than every kept one. */
  ghost predicate Recency(table: seq<Recent>, last: map<int, real>) {
    && |table| == 8
    && (forall i :: 0 <= i < 8 ==> EntryOk(table[i], last))
    && (forall i, j :: 0 <= i < j < 8 && 0 <= table[i].row ==> table[i].row != table[j].row)
    && (forall r :: r in last && Absent(table, r) ==>
          forall i :: 0 <= i < 8 ==> 0 <= table[i].row && last[r] <= table[i].seen)
  }

  ghost predicate EntryOk(e: Recent, last: map<int, real>) {
    if e.row < 0 then e.seen == LONG_AGO
    else e.row in last && last[e.row] == e.seen && LONG_AGO < e.seen
  }

  ghost predicate SeenBy(last: map<int, real>, now: real) {
    forall r :: r in last ==> 0 <= r && last[r] <= now
  }

  predicate Absent(table: seq<Recent>, row: int) {
    forall i :: 0 <= i < |table| ==> table[i].row != row
  }

  /** Slot k is the row's own entry, or the least recently seen one when the row is absent. */
  predicate Victim(table: seq<Recent>, row: int, k: nat) {
    && k < |table|
    && (table[k].row == row || (Absent(table, row) && forall i :: 0 <= i < |table| ==> table[k].seen <= table[i].seen))
  }

  /** Replacing that slot keeps the table the eight most recently seen rows. */
  lemma {:induction false} TouchKeepsRecency(table: seq<Recent>, last: map<int, real>, row: int, k: nat, now: real)
    requires Recency(table, last) && 0 <= row && LONG_AGO < now && Victim(table, row, k)
    requires SeenBy(last, now)
    ensures Recency(table[k := Recent(row, now)], last[row := now]) && SeenBy(last[row := now], now)
  {
    var t, l := table[k := Recent(row, now)], last[row := now];
    forall r | r in l && Absent(t, r) ensures forall i :: 0 <= i < 8 ==> 0 <= t[i].row && l[r] <= t[i].seen {
      assert t[k].row == row;
      if table[k].row == r {
        EvictedIsOldest(table, last, row, k);
      } else {
        assert Absent(table, r) by {
          forall i | 0 <= i < |table| ensures table[i].row != r {
            assert i != k ==> t[i].row != r;
          }
        }
      }
    }
    forall i, j | 0 <= i < j < 8 && 0 <= t[i].row ensures t[i].row != t[j].row {
      if table[k].row == row {
        assert i < k ==> table[i].row != table[k].row;
      } else {
        assert Absent(table, row);
      }
    }
  }

  /** An entry displaced by another row was no more recent than the others, and no entry was empty. */
  lemma {:induction false} EvictedIsOldest(table: seq<Recent>, last: map<int, real>, row: int, k: nat)
    requires Recency(table, last) && Victim(table, row, k) && 0 <= table[k].row && table[k].row != row
    ensures forall i :: 0 <= i < 8 ==> 0 <= table[i].row && last[table[k].row] <= table[i].seen
  {
    forall i | 0 <= i < 8 ensures 0 <= table[i].row && last[table[k].row] <= table[i].seen {
      assert table[k].seen <= table[i].seen;
    }
  }

  // ----- Clocks -----

  datatype Timing = Timing(
    base: real, rcd: real, rp: real, rc: real, ccd: real, burst: real, rtp: real,
    writeRecovery: real, writeToRead: real, activation: real, groupActivation: real,
    bankScale: real, busScale: real, overhead: real, writeTax: real)
  {
    predicate Ok() {
      0.0 < rc && 0.0 <= rcd && 0.0 <= burst && 0.0 <= busScale && 0.0 <= writeTax
    }
  }

  datatype Bank = Bank(
    recent: seq<Recent>, row: int, readRow: int, writeRow: int, ready: real,
    runWork: real, streakWork: real, lastArrival: real, lastRowCost: real, lastKind: int)

  datatype Channel = Channel(work: real, transfer: real, mixed: bool)

  datatype Access = Access(channel: nat, bank: nat, group: nat, rank: nat, row: int, write: bool)

  const FRESH_BANK: Bank :=
    Bank(seq(8, _ => Recent(-1, LONG_AGO)), -1, -1, -1, LONG_AGO, 0.0, 0.0, LONG_AGO, 0.0, -1)

  /** A row not open costs an activation, and a precharge when another row is. A read returning to a
      row that only a write displaced is charged less the deeper the bank's backlog. */
  function RowCost(tm: Timing, b: Bank, a: Access, backlog: real): real
    requires tm.rc != 0.0
  {
    var hit := b.row == a.row;
    var full := if hit then 0.0 else tm.rcd + (if b.row < 0 then 0.0 else Max(0.0, tm.rp - tm.overhead));
    if !a.write && !hit && b.readRow == a.row && b.lastKind == 1
    then full * (1.0 - Clamp((backlog - full) / tm.rc, 0.0, 1.0)) else full
  }

  function BankRowCost(tm: Timing, b: Bank, a: Access, now: real): real
    requires tm.rc != 0.0
  {
    RowCost(tm, b, a, Backlog(b, now))
  }

  /** The channel work one access brings: its burst, and a write's share of the turnarounds. */
  function TransferWork(tm: Timing, a: Access): real {
    (tm.burst + (if a.write then tm.writeTax else 0.0)) * tm.busScale
  }

  /** The column work it brings to its bank group: a write counts twice. */
  function ColumnWork(tm: Timing, a: Access): real {
    tm.ccd * (if a.write then 2.0 else 1.0) * tm.busScale
  }

  /** The channel after an access: its transfer clock takes the work at once, its work clock only after the
      row has been opened, and a write marks the busy period. */
  function NextChannel(ch: Channel, a: Access, now: real, rowCost: real, s: real): Channel {
    Channel(Max(now + rowCost, ch.work) + s, Max(now, ch.transfer) + s, a.write || (now < ch.work && ch.mixed))
  }

  /** Clocks after work is charged to one of them at a given time, or to none. */
  function Advanced(clocks: seq<real>, i: nat, w: Work, charged: bool): seq<real>
    requires i < |clocks|
  {
    if charged then clocks[i := Max(w.arrive, clocks[i]) + w.service] else clocks
  }

  /** Whole cycles from admission to completion, at least one. */
  function Latency(tm: Timing, wait: real): (r: int)
    ensures 1 <= r && tm.base + tm.overhead + wait <= r as real
    ensures r == 1 || (r - 1) as real < tm.base + tm.overhead + wait
  {
    var cycles := Ceil(tm.base + tm.overhead + wait);
    if cycles < 1 then 1 else cycles
  }

  /** The row was the last one touched by an access of the same kind. */
  predicate ClassHit(b: Bank, a: Access) {
    b.row == a.row || (if a.write then b.writeRow else b.readRow) == a.row
  }

  /** The bank is backlogged and saw the row recently enough. */
  predicate BatchHit(tm: Timing, b: Bank, a: Access, now: real) {
    && tm.ccd < Backlog(b, now)
    && exists i :: 0 <= i < |b.recent| && b.recent[i].row == a.row
                   && now - b.recent[i].seen < Max(tm.rc, Backlog(b, now))
  }

  /** Neither: the access is charged an activation. */
  predicate Activates(tm: Timing, b: Bank, a: Access, now: real) {
    !ClassHit(b, a) && !BatchHit(tm, b, a, now)
  }

  function Backlog(b: Bank, now: real): real {
    Max(0.0, b.ready - now)
  }

  /** The service demand an access puts on its bank. */
  function Service(tm: Timing, b: Bank, a: Access, now: real): real
    requires 0.0 < tm.rc
  {
    var backlog, rowCost := Backlog(b, now), BankRowCost(tm, b, a, now);
    var hit := b.row == a.row;
    var row := if b.lastKind == 0 then Max(tm.rc - b.runWork, tm.rtp + tm.rp + tm.rcd) else tm.rc;
    var s := if ClassHit(b, a) || BatchHit(tm, b, a, now) then (if a.write then 2.0 * tm.ccd else tm.ccd) else row;
    var recovering :=
      if b.lastKind == 1 && !hit then
        var inService := tm.rc / (tm.rc + Max(0.0, backlog - rowCost));
        var ramp := Max(1.0, if b.lastRowCost == 0.0 then 1.0 else tm.burst);
        var started := Clamp((now - b.lastArrival - Max(0.0, b.lastRowCost - tm.rcd)) / ramp, 0.0, 1.0);
        Max(s, inService * started * tm.writeRecovery)
      else s;
    if !a.write && b.lastKind == 1 && hit && b.lastArrival < now then
      Max(recovering, Clamp(1.0 - Max(0.0, backlog - rowCost) / tm.rc, 0.0, 1.0) * tm.writeToRead)
    else recovering
  }

  /** The scaled service: how far the access pushes its bank's ready clock. */
  function Demand(tm: Timing, b: Bank, a: Access, now: real): real
    requires 0.0 < tm.rc
  {
    Service(tm, b, a, now) * tm.bankScale
  }

  lemma {:induction false} RowCostNonnegative(tm: Timing, b: Bank, a: Access, backlog: real)
    requires tm.Ok()
    ensures 0.0 <= RowCost(tm, b, a, backlog)
  {
    var full := if b.row == a.row then 0.0 else tm.rcd + (if b.row < 0 then 0.0 else Max(0.0, tm.rp - tm.overhead));
    var c := Clamp((backlog - full) / tm.rc, 0.0, 1.0);
    RealFacts.Product(full, 1.0 - c);
  }

  // ----- What one access does to its bank -----

  /** The shared clocks an access meets. */
  datatype Clocks = Clocks(rank: real, groupActivation: real, channel: Channel, group: real)

  /** When the bank itself could serve it: its row open, past the activation limits it meets, and after
      the charged service. */
  function OwnReady(tm: Timing, b: Bank, a: Access, now: real, k: Clocks, rowCost: real, charge: real): real {
    var wait := if Activates(tm, b, a, now) then Max(0.0, Max(k.rank - now, k.groupActivation - now)) else 0.0;
    Max(now + rowCost + wait, b.ready + charge)
  }

  predicate Streaming(b: Bank, a: Access) {
    !a.write && b.lastKind == 0 && b.row == a.row
  }

  function StreakOf(tm: Timing, b: Bank, a: Access): real {
    if Streaming(b, a) then Min(tm.rc, b.streakWork + tm.ccd) else 0.0
  }

  function RunOf(tm: Timing, b: Bank, a: Access, now: real): real {
    if Streaming(b, a) then Min(tm.rc, b.runWork + Max(tm.ccd, now - b.ready)) else 0.0
  }

  /** The channel clock that holds it: only transfers for a read hit that its bank can serve at once in a
      write-free busy period, or that ends a run of read hits as long as a row cycle. */
  function SharedClock(tm: Timing, b: Bank, a: Access, now: real, k: Clocks, own: real): real {
    var mixed := now < k.channel.work && k.channel.mixed;
    if !a.write && b.row == a.row && ((own <= now && !mixed) || tm.rc <= StreakOf(tm, b, a))
    then k.channel.transfer else k.channel.work
  }

  /** When its bank is ready again. */
  function ReadyAt(tm: Timing, b: Bank, a: Access, now: real, k: Clocks, rowCost: real, charge: real): real {
    var own := OwnReady(tm, b, a, now, k, rowCost, charge);
    Max(own, Max(Max(now, SharedClock(tm, b, a, now, k, own)), k.group))
  }

  function NextBank(tm: Timing, b: Bank, a: Access, now: real, k: Clocks, rowCost: real, charge: real,
                    table: seq<Recent>): Bank
  {
    var ready := ReadyAt(tm, b, a, now, k, rowCost, charge);
    var run := RunOf(tm, b, a, now);
    Bank(table, a.row, if a.write then b.readRow else a.row, if a.write then a.row else b.writeRow, ready,
         if a.write then run else Min(tm.rc, run + Max(0.0, ready - OwnReady(tm, b, a, now, k, rowCost, charge))),
         StreakOf(tm, b, a), now, rowCost, if a.write then 1 else 0)
  }

  lemma {:induction false} ReadyBounds(tm: Timing, b: Bank, a: Access, now: real, k: Clocks, rowCost: real,
                                       charge: real)
    requires k.channel.transfer <= k.channel.work
    ensures var ready := ReadyAt(tm, b, a, now, k, rowCost, charge);
            && now + rowCost <= ready && b.ready + charge <= ready && now <= ready
            && k.channel.transfer <= ready && k.group <= ready
            && (a.write || b.row != a.row ==> k.channel.work <= ready)
  {
    hide BatchHit, StreakOf;
  }

  /** The least service an access is charged: a row cycle, or after a read at least its recovery, precharge
      and activation, when it opens a row; its column time otherwise. */
  function LeastService(tm: Timing, b: Bank, a: Access, now: real): real {
    if Activates(tm, b, a, now) then (if b.lastKind == 0 then tm.rtp + tm.rp + tm.rcd else tm.rc)
    else if a.write then 2.0 * tm.ccd else tm.ccd
  }

  lemma {:induction false} Scaled(x: real, y: real, k: real)
    requires x <= y && 0.0 <= k
    ensures x * k <= y * k
  {
    RealFacts.Product(y - x, k);
  }

  lemma {:induction false} DemandFloor(tm: Timing, b: Bank, a: Access, now: real)
    requires tm.Ok() && 0.0 <= tm.bankScale
    ensures LeastService(tm, b, a, now) * tm.bankScale <= Demand(tm, b, a, now)
    ensures Activates(tm, b, a, now) ==>
              (tm.rc - (if b.lastKind == 0 then b.runWork else 0.0)) * tm.bankScale <= Demand(tm, b, a, now)
  {
    ServiceFloor(tm, b, a, now);
    DemandScales(tm, b, a, now, LeastService(tm, b, a, now));
    hide Demand, LeastService, Activates;
    if Activates(tm, b, a, now) {
      DemandScales(tm, b, a, now, tm.rc - (if b.lastKind == 0 then b.runWork else 0.0));
    }
  }

  lemma {:induction false} DemandScales(tm: Timing, b: Bank, a: Access, now: real, least: real)
    requires 0.0 < tm.rc && 0.0 <= tm.bankScale && least <= Service(tm, b, a, now)
    ensures least * tm.bankScale <= Demand(tm, b, a, now)
  {
    hide Service;
    Scaled(least, Service(tm, b, a, now), tm.bankScale);
  }

  lemma {:induction false} ServiceFloor(tm: Timing, b: Bank, a: Access, now: real)
    requires 0.0 < tm.rc
    ensures LeastService(tm, b, a, now) <= Service(tm, b, a, now)
    ensures Activates(tm, b, a, now) ==>
              tm.rc - (if b.lastKind == 0 then b.runWork else 0.0) <= Service(tm, b, a, now)
  {
    hide BatchHit, BankRowCost, Backlog, Clamp;
  }

  /** An idle bank that a write left some time ago still owes the write its recovery: a conflicting access
      is charged all of it, a read hit the write-to-read time. */
  lemma {:induction false} WriteRecoveryCharged(tm: Timing, b: Bank, a: Access, now: real)
    requires 0.0 < tm.rc && b.lastKind == 1 && Backlog(b, now) <= BankRowCost(tm, b, a, now)
    ensures b.row != a.row && Max(0.0, b.lastRowCost - tm.rcd) + Max(1.0, tm.burst) <= now - b.lastArrival
            ==> tm.writeRecovery <= Service(tm, b, a, now)
    ensures b.row == a.row && !a.write && b.lastArrival < now ==> tm.writeToRead <= Service(tm, b, a, now)
  {
    hide BatchHit, BankRowCost, Backlog;
    var idle := Max(0.0, Backlog(b, now) - BankRowCost(tm, b, a, now));
    assert idle == 0.0;
    RealFacts.QuotientOfItself(tm.rc);
    if b.row != a.row && Max(0.0, b.lastRowCost - tm.rcd) + Max(1.0, tm.burst) <= now - b.lastArrival {
      var ramp := Max(1.0, if b.lastRowCost == 0.0 then 1.0 else tm.burst);
      FullyStarted(now - b.lastArrival - Max(0.0, b.lastRowCost - tm.rcd), ramp);
    }
    assert 0.0 / tm.rc == 0.0;
  }

  lemma {:induction false} FullyStarted(x: real, d: real)
    requires 0.0 < d <= x
    ensures Clamp(x / d, 0.0, 1.0) == 1.0
  {
    RealFacts.QuotientSign(x - d, d);
    assert x / d == (x - d) / d + 1.0 by {
      RealFacts.QuotientOfItself(d);
      assert (x - d) / d == x / d - d / d;
    }
  }

  /** Opening a row costs its activation, and the precharge of another row less the admission's overlap;
      only a read returning to the row a write displaced may be charged less. */
  lemma {:induction false} RowCostExact(tm: Timing, b: Bank, a: Access, now: real)
    requires tm.Ok()
    ensures b.row == a.row ==> BankRowCost(tm, b, a, now) == 0.0
    ensures b.row < 0 <= a.row && !(b.readRow == a.row && !a.write) ==> BankRowCost(tm, b, a, now) == tm.rcd
    ensures 0 <= b.row != a.row && (a.write || b.readRow != a.row || b.lastKind != 1)
            ==> BankRowCost(tm, b, a, now) == tm.rcd + Max(0.0, tm.rp - tm.overhead)
  {
  }

  /** A read back to the row a write displaced: full cost while the bank's backlog is below it, nothing once
      the backlog exceeds it by a row cycle, and never more than the full cost. */
  lemma {:induction false} DisplacedRowCost(tm: Timing, b: Bank, a: Access, now: real)
    requires tm.Ok() && !a.write && b.readRow == a.row != b.row && b.lastKind == 1
    ensures var full, backlog := tm.rcd + (if b.row < 0 then 0.0 else Max(0.0, tm.rp - tm.overhead)), b.ready - now;
            && 0.0 <= BankRowCost(tm, b, a, now) <= full
            && (backlog <= full ==> BankRowCost(tm, b, a, now) == full)
            && (full + tm.rc <= backlog ==> BankRowCost(tm, b, a, now) == 0.0)
  {
    var full := tm.rcd + (if b.row < 0 then 0.0 else Max(0.0, tm.rp - tm.overhead));
    var over := Backlog(b, now) - full;
    RealFacts.QuotientSign(-over, tm.rc);
    assert (-over) / tm.rc == -(over / tm.rc);
    if full + tm.rc <= Backlog(b, now) {
      FullyStarted(over, tm.rc);
    }
    var kept := 1.0 - Clamp(over / tm.rc, 0.0, 1.0);
    RealFacts.Product(full, kept);
    RealFacts.Product(full, 1.0 - kept);
  }

  /** The streak is the column time of the read hits in a row, up to a row cycle. */
  lemma {:induction false} StreakCounts(tm: Timing, b: Bank, a: Access, n: nat)
    requires tm.Ok() && b.streakWork == Min(tm.rc, n as real * tm.ccd)
    ensures StreakOf(tm, b, a) == if !a.write && b.lastKind == 0 && b.row == a.row
                                  then Min(tm.rc, (n + 1) as real * tm.ccd) else 0.0
  {
    Distributes(n as real, tm.ccd);
  }

  lemma {:induction false} Distributes(n: real, c: real)
    ensures (n + 1.0) * c == n * c + c
    ensures 0.0 <= n && c <= 0.0 ==> n * c <= 0.0
  {
    if 0.0 <= n && c <= 0.0 {
      RealFacts.Product(n, -c);
    }
  }

  /** At bank scale 1 the run work of a bank is the age of its row, up to a row cycle: each read hit in a
      row ages it by exactly as much as it moves the bank's readiness on. */
  lemma {:induction false} RunIsAge(tm: Timing, b: Bank, a: Access, now: real, k: Clocks, table: seq<Recent>)
    requires tm.Ok() && tm.bankScale == 1.0 && !a.write && b.lastKind == 0 && b.row == a.row
    requires b.runWork <= tm.rc && 0.0 <= tm.ccd
    ensures var b' := NextBank(tm, b, a, now, k, BankRowCost(tm, b, a, now), Demand(tm, b, a, now), table);
            b'.runWork == Min(tm.rc, b.runWork + (b'.ready - b.ready))
  {
    hide BatchHit, SharedClock;
    assert Service(tm, b, a, now) == tm.ccd;
    assert BankRowCost(tm, b, a, now) == 0.0;
    assert !Activates(tm, b, a, now);
  }

  ghost predicate ClocksOk(work: seq<seq<Work>>, clocks: seq<real>) {
    |work| == |clocks| && forall i :: 0 <= i < |clocks| ==> MaxPlus(work[i], clocks[i])
  }

  /** The history of a clock that is charged only if the access activates. */
  function Extended(work: seq<seq<Work>>, i: nat, w: Work, activates: bool): seq<seq<Work>>
    requires i < |work|
  {
    if activates then work[i := work[i] + [w]] else work
  }

  /** Charging work to one of several clocks keeps them all in closed form. */
  lemma {:induction false} ClocksStep(work: seq<seq<Work>>, clocks: seq<real>, i: nat, w: Work)
    requires ClocksOk(work, clocks) && i < |clocks|
    ensures ClocksOk(work[i := work[i] + [w]], clocks[i := Max(w.arrive, clocks[i]) + w.service])
  {
    MaxPlusStep(work[i], clocks[i], w);
  }

  class ServiceEnvelope {
    const tm: Timing
    var banks: seq<Bank>
    var channels: seq<Channel>
    var groups: seq<real>
    var rankActivations: seq<real>
    var groupActivations: seq<real>
    ghost var history: seq<seq<Work>>       // per channel, every admission's transfer work
    ghost var rankWork: seq<seq<Work>>      // per rank, every activation charged
    ghost var groupWork: seq<seq<Work>>     // per bank group, the same
    ghost var groupLoad: seq<seq<Work>>     // per bank group, every admission's column work
    ghost var lastSeen: seq<map<int, real>> // per bank, when each row was last admitted
    ghost var clock: real                   // time of the latest admission

    ghost predicate ChannelsOk()
      reads this
    {
      && |history| == |channels|
      && forall c :: 0 <= c < |channels| ==>
           MaxPlus(history[c], channels[c].transfer) && channels[c].transfer <= channels[c].work
    }

    /** The activation clocks and the group clocks are the closed form of the work charged to them. */
    ghost predicate ActivationsOk()
      reads this`rankActivations, this`groupActivations, this`rankWork, this`groupWork, this`groups, this`groupLoad
    {
      && ClocksOk(rankWork, rankActivations) && ClocksOk(groupWork, groupActivations)
      && ClocksOk(groupLoad, groups) && |groupActivations| == |groups|
    }

    ghost predicate TablesOk()
      reads this
    {
      && |lastSeen| == |banks| && LONG_AGO < clock
      && forall k :: 0 <= k < |banks| ==> Recency(banks[k].recent, lastSeen[k]) && SeenBy(lastSeen[k], clock)
    }

    ghost predicate Valid()
      reads this
    {
      tm.Ok() && ChannelsOk() && TablesOk() && ActivationsOk()
    }

    ghost predicate Known(a: Access)
      reads this
    {
      a.channel < |channels| && a.bank < |banks| && a.group < |groups| && a.rank < |rankActivations| && 0 <= a.row
    }

    constructor (tm: Timing, nChannels: nat, nBanks: nat, nGroups: nat, nRanks: nat)
      requires tm.Ok()
      ensures Valid() && this.tm == tm && clock == 0.0
      ensures banks == seq(nBanks, _ => FRESH_BANK) && channels == seq(nChannels, _ => Channel(0.0, 0.0, false))
      ensures groups == groupActivations == seq(nGroups, _ => 0.0) && rankActivations == seq(nRanks, _ => 0.0)
      ensures lastSeen == seq(nBanks, _ => map[])
    {
      this.tm := tm;
      banks, channels := seq(nBanks, _ => FRESH_BANK), seq(nChannels, _ => Channel(0.0, 0.0, false));
      groups, groupActivations := seq(nGroups, _ => 0.0), seq(nGroups, _ => 0.0);
      rankActivations := seq(nRanks, _ => 0.0);
      history, lastSeen, clock := seq(nChannels, _ => []), seq(nBanks, _ => map[]), 0.0;
      rankWork, groupWork, groupLoad := seq(nRanks, _ => []), seq(nGroups, _ => []), seq(nGroups, _ => []);
    }

    /** The table slot for a row: its own, else the first least recently seen. */
    static method FindSlot(table: seq<Recent>, row: int) returns (slot: nat)
      requires |table| == 8
      ensures Victim(table, row, slot)
    {
      slot := 0;
      var i := 0;
      while i < 8
        invariant 0 <= i <= 8 && slot < 8 && (i == 0 ==> slot == 0)
        invariant forall j :: 0 <= j < i ==> table[j].row != row && table[slot].seen <= table[j].seen
      {
        if table[i].row == row { return i; }
        if table[i].seen < table[slot].seen { slot := i; }
        i := i + 1;
      }
    }

    /** Charge the access's transfer work to its channel. */
    method ChargeChannel(a: Access, now: real, rowCost: real, s: real)
      requires ChannelsOk() && a.channel < |channels| && 0.0 <= rowCost
      modifies this`channels, this`history
      ensures ChannelsOk() && |channels| == |old(channels)|
      ensures history == old(history)[a.channel := old(history)[a.channel] + [Work(now, s)]]
      ensures channels == old(channels)[a.channel := NextChannel(old(channels)[a.channel], a, now, rowCost, s)]
    {
      var c, ch := a.channel, channels[a.channel];
      MaxPlusStep(history[c], ch.transfer, Work(now, s));
      channels := channels[c := NextChannel(ch, a, now, rowCost, s)];
      history := history[c := history[c] + [Work(now, s)]];
    }

    /** Remember the row in its bank's table. */
    method Touch(bank: nat, row: int, slot: nat, now: real)
      requires TablesOk() && bank < |banks| && 0 <= row && clock <= now && Victim(banks[bank].recent, row, slot)
      modifies this`banks, this`lastSeen, this`clock
      ensures TablesOk() && clock == now
      ensures var b := old(banks)[bank];
              banks == old(banks)[bank := b.(recent := b.recent[slot := Recent(row, now)])]
      ensures lastSeen == old(lastSeen)[bank := old(lastSeen)[bank][row := now]]
    {
      var b := banks[bank];
      TouchKeepsRecency(b.recent, lastSeen[bank], row, slot, now);
      banks := banks[bank := b.(recent := b.recent[slot := Recent(row, now)])];
      lastSeen := lastSeen[bank := lastSeen[bank][row := now]];
      clock := now;
    }

    /** Charge an activation to its rank and group. It waits just until both have served the
        activations charged before it. */
    method ChargeActivation(a: Access, now: real) returns (wait: real)
      requires Known(a) && ActivationsOk()
      modifies this`rankActivations, this`groupActivations, this`rankWork, this`groupWork
      ensures ActivationsOk() && |rankActivations| == |old(rankActivations)|
      ensures rankActivations == Advanced(old(rankActivations), a.rank, Work(now, tm.activation), true)
      ensures groupActivations == Advanced(old(groupActivations), a.group, Work(now, tm.groupActivation), true)
      ensures rankWork == old(rankWork)[a.rank := old(rankWork)[a.rank] + [Work(now, tm.activation)]]
      ensures groupWork == old(groupWork)[a.group := old(groupWork)[a.group] + [Work(now, tm.groupActivation)]]
      ensures 0.0 <= wait && old(rankActivations)[a.rank] <= now + wait && old(groupActivations)[a.group] <= now + wait
      ensures wait == 0.0 || now + wait in {old(rankActivations)[a.rank], old(groupActivations)[a.group]}
    {
      wait := Max(0.0, Max(rankActivations[a.rank] - now, groupActivations[a.group] - now));
      ClocksStep(rankWork, rankActivations, a.rank, Work(now, tm.activation));
      ClocksStep(groupWork, groupActivations, a.group, Work(now, tm.groupActivation));
      rankActivations := rankActivations[a.rank := Max(now, rankActivations[a.rank]) + tm.activation];
      groupActivations := groupActivations[a.group := Max(now, groupActivations[a.group]) + tm.groupActivation];
      rankWork := rankWork[a.rank := rankWork[a.rank] + [Work(now, tm.activation)]];
      groupWork := groupWork[a.group := groupWork[a.group] + [Work(now, tm.groupActivation)]];
    }

    /** Look the row up in its bank's table and remember it there. */
    method LookUp(a: Access, now: real) returns (batchHit: bool)
      requires Known(a) && TablesOk() && clock <= now
      modifies this`banks, this`lastSeen, this`clock
      ensures TablesOk() && clock == now && batchHit == BatchHit(tm, old(banks)[a.bank], a, now)
      ensures |banks| == |old(banks)|
      ensures forall k :: 0 <= k < |banks| && k != a.bank ==> banks[k] == old(banks)[k]
      ensures banks[a.bank] == old(banks)[a.bank].(recent := banks[a.bank].recent)
      ensures lastSeen == old(lastSeen)[a.bank := old(lastSeen)[a.bank][a.row := now]]
    {
      var b := banks[a.bank];
      var slot := FindSlot(b.recent, a.row);
      batchHit := b.recent[slot].row == a.row && tm.ccd < Backlog(b, now)
                  && now - b.recent[slot].seen < Max(tm.rc, Backlog(b, now));
      assert batchHit == BatchHit(tm, b, a, now) by {
        assert Recency(b.recent, lastSeen[a.bank]);
        assert forall i :: 0 <= i < 8 && b.recent[i].row == a.row ==> i == slot;
      }
      Touch(a.bank, a.row, slot, now);
    }

    ghost function Met(a: Access): Clocks
      reads this
      requires Known(a) && |groupActivations| == |groups|
    {
      Clocks(rankActivations[a.rank], groupActivations[a.group], channels[a.channel], groups[a.group])
    }

    /** When the bank itself could serve the access, charging its activation if it has one. */
    method BankReady(a: Access, now: real, rowCost: real, charge: real) returns (own: real)
      requires Known(a) && TablesOk() && ActivationsOk() && clock <= now
      modifies this`banks, this`lastSeen, this`clock
      modifies this`rankActivations, this`groupActivations, this`rankWork, this`groupWork
      ensures TablesOk() && clock == now && |banks| == |old(banks)|
      ensures ActivationsOk() && |rankActivations| == |old(rankActivations)|
      ensures rankActivations == Advanced(old(rankActivations), a.rank, Work(now, tm.activation),
                                          Activates(tm, old(banks)[a.bank], a, now))
      ensures groupActivations == Advanced(old(groupActivations), a.group, Work(now, tm.groupActivation),
                                           Activates(tm, old(banks)[a.bank], a, now))
      ensures rankWork == Extended(old(rankWork), a.rank, Work(now, tm.activation),
                                   Activates(tm, old(banks)[a.bank], a, now))
      ensures groupWork == Extended(old(groupWork), a.group, Work(now, tm.groupActivation),
                                    Activates(tm, old(banks)[a.bank], a, now))
      ensures lastSeen == old(lastSeen)[a.bank := old(lastSeen)[a.bank][a.row := now]]
      ensures forall k :: 0 <= k < |banks| && k != a.bank ==> banks[k] == old(banks)[k]
      ensures own == OwnReady(tm, old(banks)[a.bank], a, now, old(Met(a)), rowCost, charge)
    {
      hide ClassHit, BatchHit;
      var b := banks[a.bank];
      var batchHit := LookUp(a, now);
      var wait := 0.0;
      if !ClassHit(b, a) && !batchHit {
        wait := ChargeActivation(a, now);
      }
      own := Max(now + rowCost + wait, b.ready + charge);
    }

    /** Charge the access's column work to its bank group. */
    method ChargeGroup(a: Access, now: real)
      requires Known(a) && ActivationsOk()
      modifies this`groups, this`groupLoad
      ensures ActivationsOk() && |groups| == |old(groups)|
      ensures groups == Advanced(old(groups), a.group, Work(now, ColumnWork(tm, a)), true)
      ensures groupLoad == old(groupLoad)[a.group := old(groupLoad)[a.group] + [Work(now, ColumnWork(tm, a))]]
    {
      hide ColumnWork;
      ClocksStep(groupLoad, groups, a.group, Work(now, ColumnWork(tm, a)));
      groups := groups[a.group := Max(now, groups[a.group]) + ColumnWork(tm, a)];
      groupLoad := groupLoad[a.group := groupLoad[a.group] + [Work(now, ColumnWork(tm, a))]];
    }

    /** Write back the bank's record; its recency table is already up to date. */
    method UpdateBank(a: Access, b: Bank, now: real, ready: real, rowCost: real, own: real)
      requires a.bank < |banks| && TablesOk()
      modifies this`banks
      ensures TablesOk() && |banks| == |old(banks)|
      ensures forall k :: 0 <= k < |banks| && k != a.bank ==> banks[k] == old(banks)[k]
      ensures var run := RunOf(tm, b, a, now);
              banks[a.bank] == Bank(old(banks)[a.bank].recent, a.row, if a.write then b.readRow else a.row,
                                    if a.write then a.row else b.writeRow, ready,
                                    if a.write then run else Min(tm.rc, run + Max(0.0, ready - own)),
                                    StreakOf(tm, b, a), now, rowCost, if a.write then 1 else 0)
    {
      var run := RunOf(tm, b, a, now);
      var run' := if a.write then run else Min(tm.rc, run + Max(0.0, ready - own));
      banks := banks[a.bank := Bank(banks[a.bank].recent, a.row, if a.write then b.readRow else a.row,
                                    if a.write then a.row else b.writeRow, ready, run', StreakOf(tm, b, a),
                                    now, rowCost, if a.write then 1 else 0)];
    }

    /** Charge every clock the access uses, given its row cost and its service demand on the bank. */
    method Charge(a: Access, now: real, rowCost: real, charge: real) returns (ready: real)
      requires Valid() && Known(a) && clock <= now && 0.0 <= rowCost
      modifies this
      ensures Valid() && |banks| == |old(banks)| && clock == now
      ensures ready == ReadyAt(tm, old(banks)[a.bank], a, now, old(Met(a)), rowCost, charge)
      ensures banks[a.bank] == NextBank(tm, old(banks)[a.bank], a, now, old(Met(a)), rowCost, charge,
                                        banks[a.bank].recent)
      ensures forall k :: 0 <= k < |banks| && k != a.bank ==> banks[k] == old(banks)[k]
      ensures channels == old(channels)[a.channel := NextChannel(old(channels)[a.channel], a, now, rowCost,
                                                                 TransferWork(tm, a))]
      ensures history == old(history)[a.channel := old(history)[a.channel] + [Work(now, TransferWork(tm, a))]]
      ensures rankActivations == Advanced(old(rankActivations), a.rank, Work(now, tm.activation),
                                          Activates(tm, old(banks)[a.bank], a, now))
      ensures groupActivations == Advanced(old(groupActivations), a.group, Work(now, tm.groupActivation),
                                           Activates(tm, old(banks)[a.bank], a, now))
      ensures rankWork == Extended(old(rankWork), a.rank, Work(now, tm.activation),
                                   Activates(tm, old(banks)[a.bank], a, now))
      ensures groupWork == Extended(old(groupWork), a.group, Work(now, tm.groupActivation),
                                    Activates(tm, old(banks)[a.bank], a, now))
      ensures groups == Advanced(old(groups), a.group, Work(now, ColumnWork(tm, a)), true)
      ensures groupLoad == old(groupLoad)[a.group := old(groupLoad)[a.group] + [Work(now, ColumnWork(tm, a))]]
      ensures lastSeen == old(lastSeen)[a.bank := old(lastSeen)[a.bank][a.row := now]]
    {
      hide ClassHit, BatchHit, OwnReady, StreakOf, RunOf, MaxPlus, Recency, TransferWork, ColumnWork;
      hide NextChannel, Advanced, Extended, Activates, ClocksOk, SeenBy;
      var b, ch, group := banks[a.bank], channels[a.channel], groups[a.group];
      var own := BankReady(a, now, rowCost, charge);
      var mixed := now < ch.work && ch.mixed;
      var shared := if !a.write && b.row == a.row && ((own <= now && !mixed) || tm.rc <= StreakOf(tm, b, a))
                    then ch.transfer else ch.work;
      ready := Max(own, Max(Max(now, shared), group));
      ChargeChannel(a, now, rowCost, TransferWork(tm, a));
      ChargeGroup(a, now);
      UpdateBank(a, b, now, ready, rowCost, own);
    }

    /** Admit one access and return its completion. The bank moves on by at least the time its row takes, the
        service its column or row needs, and the shared clocks; the completion follows the bank's new
        readiness by the fixed latency. */
    method Predict(a: Access, cycle: int) returns (done: int)
      requires Valid() && Known(a) && clock <= cycle as real
      modifies this
      ensures Valid() && |banks| == |old(banks)| && clock == cycle as real
      ensures var now, b := cycle as real, old(banks)[a.bank];
              banks[a.bank] == NextBank(tm, b, a, now, old(Met(a)), BankRowCost(tm, b, a, now), Demand(tm, b, a, now),
                                        banks[a.bank].recent)
      ensures cycle as real + BankRowCost(tm, old(banks)[a.bank], a, cycle as real) <= banks[a.bank].ready
      ensures 0.0 <= tm.bankScale ==>
                old(banks)[a.bank].ready + LeastService(tm, old(banks)[a.bank], a, cycle as real) * tm.bankScale
                <= banks[a.bank].ready
      ensures old(channels)[a.channel].transfer <= banks[a.bank].ready && old(groups)[a.group] <= banks[a.bank].ready
      ensures forall k :: 0 <= k < |banks| && k != a.bank ==> banks[k] == old(banks)[k]
      ensures channels == old(channels)[a.channel := NextChannel(old(channels)[a.channel], a, cycle as real,
                                                                 BankRowCost(tm, old(banks)[a.bank], a, cycle as real),
                                                                 TransferWork(tm, a))]
      ensures groups == Advanced(old(groups), a.group, Work(cycle as real, ColumnWork(tm, a)), true)
      ensures rankActivations == Advanced(old(rankActivations), a.rank, Work(cycle as real, tm.activation),
                                          Activates(tm, old(banks)[a.bank], a, cycle as real))
      ensures groupActivations == Advanced(old(groupActivations), a.group, Work(cycle as real, tm.groupActivation),
                                           Activates(tm, old(banks)[a.bank], a, cycle as real))
      ensures history == old(history)[a.channel := old(history)[a.channel] + [Work(cycle as real, TransferWork(tm, a))]]
      ensures rankWork == Extended(old(rankWork), a.rank, Work(cycle as real, tm.activation),
                                   Activates(tm, old(banks)[a.bank], a, cycle as real))
      ensures groupWork == Extended(old(groupWork), a.group, Work(cycle as real, tm.groupActivation),
                                    Activates(tm, old(banks)[a.bank], a, cycle as real))
      ensures groupLoad == old(groupLoad)[a.group := old(groupLoad)[a.group] + [Work(cycle as real, ColumnWork(tm, a))]]
      ensures lastSeen == old(lastSeen)[a.bank := old(lastSeen)[a.bank][a.row := cycle as real]]
      ensures done == cycle + Latency(tm, banks[a.bank].ready - cycle as real)
    {
      hide RowCost, Demand, Service, LeastService, OwnReady, SharedClock, MaxPlus, Recency, TransferWork, ColumnWork;
      hide NextChannel, Advanced, Extended, Activates, ClocksOk, SeenBy;
      var now, b := cycle as real, banks[a.bank];
      RowCostNonnegative(tm, b, a, Backlog(b, now));
      if 0.0 <= tm.bankScale {
        DemandFloor(tm, b, a, now);
      }
      ReadyBounds(tm, b, a, now, Met(a), BankRowCost(tm, b, a, now), Demand(tm, b, a, now));
      var ready := Charge(a, now, BankRowCost(tm, b, a, now), Demand(tm, b, a, now));
      done := cycle + Latency(tm, ready - now);
    }
  }
}
