/** A run of the Gemini model from its starting values to a bus list in which a write and a read two
    places later are closer than their turnaround. */
module GeminiExample {
  import opened Basics
  import opened GeminiBus
  import opened GeminiModel

  /** The timings the class starts from. */
  const START: Timing := Timing(Gaps(8, 12, 14, 10, 24), 43, 40, 34, 34, 77, 111, 18, 48, 247, 42, 51, 32)

  /** What a read does when nothing is drained before it. */
  function ReadFrom(p: Progress, bank: nat, bg: int, row: int, now: int): Progress
    requires bank < |p.banks|
  {
    After(START, p.(bursts := Forgotten(p.bursts, now)), bank, bg, row, false, now, 0)
  }

  const BANK_0: Bank := Bank(0, 34, 46, 77, 111)
  const BANK_1: Bank := Bank(0, 1034, 1046, 1077, 1111)
  const BANK_2: Bank := Bank(0, 1042, 1054, 1085, 1119)

  const FIRST: Progress := Progress([BANK_0, IDLE_BANK, IDLE_BANK, IDLE_BANK], [Burst(77, 0, 0, false)], [])
  const SECOND: Progress := Progress([BANK_0, BANK_1, IDLE_BANK, IDLE_BANK], [Burst(1077, 1, 1, false)], [])
  const THIRD: Progress := Progress(
    [BANK_0, BANK_1, BANK_2, IDLE_BANK], [Burst(1077, 1, 1, false), Burst(1085, 2, 0, false)], [])

  const LATE: QueuedWrite := QueuedWrite(0, 0, 0, 1025)
  const TIGHT: seq<Burst> := [Burst(1065, 0, 0, true), Burst(1077, 1, 1, false), Burst(1085, 2, 0, false)]

  lemma {:induction false} ReadFirst()
    ensures var p := Progress([IDLE_BANK, IDLE_BANK, IDLE_BANK, IDLE_BANK], [], []);
            && ReadFrom(p, 0, 0, 0, 0) == FIRST
            && Departs(START, p.(bursts := Forgotten(p.bursts, 0)), 0, 0, 0, false, 0, 0) == 77
  {
    var w := Wanted(START, IDLE_BANK, 0, 0, 0, false, 0, 0);
    assert SlotFrom(START.gaps, [], 0, w) == w == Burst(77, 0, 0, false);
    assert Insert([], w) == [w];
    assert Served(START, IDLE_BANK, 0, false, 34, 77) == BANK_0;
  }

  lemma {:induction false} ReadSecond()
    ensures ReadFrom(FIRST, 1, 1, 0, 1000) == SECOND
  {
    var w := Wanted(START, IDLE_BANK, 1, 1, 0, false, 1000, 0);
    assert FIRST.bursts[1..] == [];
    assert Forgotten([], 1000) == [];
    assert Forgotten(FIRST.bursts, 1000) == [];
    assert SlotFrom(START.gaps, [], 0, w) == w == Burst(1077, 1, 1, false);
    assert Insert([], w) == [w];
    assert Served(START, IDLE_BANK, 0, false, 1034, 1077) == BANK_1;
  }

  lemma {:induction false} ReadThird()
    ensures ReadFrom(SECOND, 2, 0, 0, 1000) == THIRD
  {
    var w := Wanted(START, IDLE_BANK, 2, 0, 0, false, 1000, 0);
    assert Forgotten(SECOND.bursts, 1000) == SECOND.bursts;
    var b := Burst(1085, 2, 0, false);
    assert w == Burst(1077, 2, 0, false);
    assert SlotFrom(START.gaps, SECOND.bursts, 1, b) == b;
    assert SlotFrom(START.gaps, SECOND.bursts, 0, w) == b;
    UpperUnique(SECOND.bursts, 1085, 1);
    assert Insert(SECOND.bursts, b) == THIRD.bursts;
    assert Served(START, IDLE_BANK, 0, false, 1042, 1085) == BANK_2;
  }

  /** The queued write goes ahead of both reads, far enough from the first only. */
  lemma {:induction false} DrainLate()
    ensures var r := Drained(START, THIRD.(queue := [LATE]), 0, 1026);
            r.bursts == TIGHT && |r.banks| == 4 && r.banks[3] == IDLE_BANK && r.queue == []
  {
    var p := THIRD.(queue := [LATE]);
    var w := Wanted(START, BANK_0, 0, 0, 0, true, 1025, 0);
    assert w == TIGHT[0];
    assert SlotFrom(START.gaps, p.bursts, 0, w) == w;
    UpperUnique(p.bursts, 1065, 0);
    assert Insert(p.bursts, w) == TIGHT;
    assert WouldHaveStarted(p, LATE, 1026);
  }

  lemma {:induction false} ReadLast(p: Progress)
    requires p.bursts == TIGHT && |p.banks| == 4 && p.banks[3] == IDLE_BANK
    ensures ReadFrom(p, 3, 1, 0, 1026).bursts == TIGHT + [Burst(1103, 3, 1, false)]
  {
    var w := Burst(1103, 3, 1, false);
    assert Forgotten(TIGHT, 1026) == TIGHT;
    assert Wanted(START, IDLE_BANK, 3, 1, 0, false, 1026, 0) == w;
    assert SlotFrom(START.gaps, TIGHT, 3, w) == w;
    assert SlotFrom(START.gaps, TIGHT, 2, w) == w;
    assert SlotFrom(START.gaps, TIGHT, 1, w) == w;
    assert SlotFrom(START.gaps, TIGHT, 0, w) == w;
    UpperUnique(TIGHT, 1103, 3);
  }

  /** Five admissions after which the list is spaced between neighbours, as it always is, but not between
      the drained write and the second read behind it. */
  method DisturbedRun() returns (m: Model)
    ensures fresh(m) && m.Valid() && m.tm == START && m.bursts == TIGHT + [Burst(1103, 3, 1, false)]
    ensures m.bursts[2].depart < m.bursts[0].depart + Gap(START.gaps, m.bursts[0], m.bursts[2])
  {
    hide After, Departs, Forgotten, Drained, SlotFrom;
    m := new Model(START, 4);
    assert m.Now() == Progress([IDLE_BANK, IDLE_BANK, IDLE_BANK, IDLE_BANK], [], []);
    ReadFirst();
    var _ := ReadAlone(m, 0, 0, 0, 0);
    ReadSecond();
    var _ := ReadAlone(m, 1, 1, 0, 1000);
    ReadThird();
    var _ := ReadAlone(m, 2, 0, 0, 1000);
    var _ := m.PredictWrite(0, 0, 0, 1025);
    assert m.Now() == THIRD.(queue := [LATE]);
    DrainLate();
    ReadLast(Drained(START, m.Now(), 0, 1026));
    var _ := m.PredictRead(3, 1, 0, 1026, 0);
  }

  /** A read with no write queued. */
  method ReadAlone(m: Model, bank: nat, bg: int, row: nat, now: int) returns (done: int)
    requires m.Valid() && m.tm == START && m.writeQueue == [] && m.writeDrainUntil == 0 && bank < |m.banks| && 0 <= now
    modifies m
    ensures m.Valid() && m.Now() == ReadFrom(old(m.Now()), bank, bg, row, now)
    ensures var p := old(m.Now());
            done == Departs(START, p.(bursts := Forgotten(p.bursts, now)), bank, bg, row, false, now, 0)
    ensures m.writeDrainUntil == 0
  {
    hide After, Departs, Forgotten;
    assert Drained(START, m.Now(), 0, now) == m.Now();
    done := m.PredictRead(bank, bg, row, now, 0);
  }

  lemma {:induction false} ReadConflict()
    ensures Departs(START, FIRST.(bursts := Forgotten(FIRST.bursts, 1000)), 0, 0, 1, false, 1000, 0) == 1111
  {
    assert FIRST.bursts[1..] == [];
    assert Forgotten([], 1000) == [];
    assert Forgotten(FIRST.bursts, 1000) == [];
    var w := Wanted(START, BANK_0, 0, 0, 1, false, 1000, 0);
    assert SlotFrom(START.gaps, [], 0, w) == w;
  }

  /** A first read and a row conflict much later: the second pays precharge, activation and column access. */
  method ConflictRun() returns (first: int, second: int)
    ensures first == 77 && second == 1111
  {
    hide After, Departs, Forgotten, Drained, SlotFrom;
    var m := new Model(START, 4);
    assert m.Now() == Progress([IDLE_BANK, IDLE_BANK, IDLE_BANK, IDLE_BANK], [], []);
    ReadFirst();
    first := ReadAlone(m, 0, 0, 0, 0);
    ReadConflict();
    second := ReadAlone(m, 0, 0, 1, 1000);
  }
}
