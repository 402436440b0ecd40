/** A short run of the Astra model whose answers show each of its charges. */
module AstraExample {

  import opened AstraEnvelope

  const TIMING: Timing :=
    Timing(20.0, 16.0, 15.0, 48.0, 8.0, 4.0, 7.0, 61.0, 29.0, 5.0, 9.0, 1.0, 1.0, 2.0, 3.0)

  const READ_A: Access := Access(0, 0, 0, 0, 0, false)
  const READ_B: Access := Access(0, 0, 0, 0, 1, false)
  const WRITE_C: Access := Access(0, 1, 0, 0, 0, true)
  const READ_C: Access := Access(0, 1, 0, 0, 0, false)

  // The shared clocks each access meets.
  const FIRST: Clocks := Clocks(0.0, 0.0, Channel(0.0, 0.0, false), 0.0)
  const SECOND: Clocks := Clocks(5.0, 9.0, Channel(20.0, 4.0, false), 8.0)
  const THIRD: Clocks := Clocks(10.0, 18.0, Channel(33.0, 8.0, false), 16.0)
  const FOURTH: Clocks := Clocks(15.0, 27.0, Channel(40.0, 15.0, true), 32.0)

  /** A row its bank has never seen is not in the table. */
  lemma {:induction false} UnseenMisses(tm: Timing, b: Bank, a: Access, now: real, last: map<int, real>)
    requires Recency(b.recent, last) && a.row !in last && 0 <= a.row
    ensures !BatchHit(tm, b, a, now)
  {
  }

  lemma {:induction false} FirstRead(b: Bank, k: Clocks, table: seq<Recent>)
    requires b.row == b.readRow == b.lastKind == -1 && b.ready == LONG_AGO && !BatchHit(TIMING, b, READ_A, 0.0)
    requires k == FIRST
    ensures BankRowCost(TIMING, b, READ_A, 0.0) == 16.0 && Activates(TIMING, b, READ_A, 0.0)
    ensures NextBank(TIMING, b, READ_A, 0.0, k, 16.0, Demand(TIMING, b, READ_A, 0.0), table)
            == Bank(table, 0, 0, b.writeRow, 16.0, 0.0, 0.0, 0.0, 16.0, 0)
  {
  }

  /** Another row of the same bank pays the row cycle of the first. */
  lemma {:induction false} SecondRead(b: Bank, k: Clocks, table: seq<Recent>)
    requires b == Bank(b.recent, 0, 0, b.writeRow, 16.0, 0.0, 0.0, 0.0, 16.0, 0) && !BatchHit(TIMING, b, READ_B, 0.0)
    requires k == SECOND
    ensures BankRowCost(TIMING, b, READ_B, 0.0) == 29.0 && Activates(TIMING, b, READ_B, 0.0)
    ensures NextBank(TIMING, b, READ_B, 0.0, k, 29.0, Demand(TIMING, b, READ_B, 0.0), table).ready == 64.0
  {
  }

  /** A write to another bank waits for the two activations of its group. */
  lemma {:induction false} WriteElsewhere(b: Bank, k: Clocks, table: seq<Recent>)
    requires b.row == b.writeRow == b.lastKind == -1 && b.ready == LONG_AGO && !BatchHit(TIMING, b, WRITE_C, 0.0)
    requires k == THIRD
    ensures BankRowCost(TIMING, b, WRITE_C, 0.0) == 16.0 && Activates(TIMING, b, WRITE_C, 0.0)
    ensures NextBank(TIMING, b, WRITE_C, 0.0, k, 16.0, Demand(TIMING, b, WRITE_C, 0.0), table)
            == Bank(table, 0, b.readRow, 0, 34.0, 0.0, 0.0, 0.0, 16.0, 1)
  {
  }

  /** A read of the row just written waits for the write data to leave. */
  lemma {:induction false} ReadBack(b: Bank, k: Clocks, table: seq<Recent>)
    requires b == Bank(b.recent, 0, b.readRow, 0, 34.0, 0.0, 0.0, 0.0, 16.0, 1)
    requires k == FOURTH
    ensures BankRowCost(TIMING, b, READ_C, 40.0) == 0.0
    ensures NextBank(TIMING, b, READ_C, 40.0, k, 0.0, Demand(TIMING, b, READ_C, 40.0), table).ready == 63.0
  {
  }

  /** A model of one channel, rank and bank group with two banks, with these shared clocks. */
  ghost predicate Shows(m: ServiceEnvelope, k: Clocks)
    reads m
  {
    && m.Valid() && m.tm == TIMING && |m.banks| == 2
    && m.rankActivations == [k.rank] && m.groupActivations == [k.groupActivation]
    && m.channels == [k.channel] && m.groups == [k.group]
  }

  method AdmitFirst(m: ServiceEnvelope) returns (done: int)
    requires Shows(m, FIRST) && m.clock == 0.0 && m.banks == [FRESH_BANK, FRESH_BANK] && m.lastSeen == [map[], map[]]
    modifies m
    ensures Shows(m, SECOND) && m.clock == 0.0 && m.lastSeen == [map[0 := 0.0], map[]]
    ensures m.banks[0] == Bank(m.banks[0].recent, 0, 0, -1, 16.0, 0.0, 0.0, 0.0, 16.0, 0) && m.banks[1] == FRESH_BANK
    ensures done == 38
  {
    hide NextBank, BankRowCost, Demand, BatchHit, Activates, Recency, LeastService;
    hide ServiceEnvelope.ChannelsOk, ServiceEnvelope.ActivationsOk;
    UnseenMisses(TIMING, m.banks[0], READ_A, 0.0, m.lastSeen[0]);
    done := m.Predict(READ_A, 0);
    FirstRead(FRESH_BANK, FIRST, m.banks[0].recent);
  }

  method AdmitSecond(m: ServiceEnvelope) returns (done: int)
    requires Shows(m, SECOND) && m.clock == 0.0 && m.lastSeen == [map[0 := 0.0], map[]] && m.banks[1] == FRESH_BANK
    requires m.banks[0] == Bank(m.banks[0].recent, 0, 0, -1, 16.0, 0.0, 0.0, 0.0, 16.0, 0)
    modifies m
    ensures Shows(m, THIRD) && m.clock == 0.0 && m.lastSeen[1] == map[] && m.banks[1] == FRESH_BANK
    ensures done == 86
  {
    hide NextBank, BankRowCost, Demand, BatchHit, Activates, Recency, LeastService;
    hide ServiceEnvelope.ChannelsOk, ServiceEnvelope.ActivationsOk;
    ghost var b := m.banks[0];
    UnseenMisses(TIMING, b, READ_B, 0.0, m.lastSeen[0]);
    done := m.Predict(READ_B, 0);
    SecondRead(b, SECOND, m.banks[0].recent);
  }

  method AdmitThird(m: ServiceEnvelope) returns (done: int)
    requires Shows(m, THIRD) && m.clock == 0.0 && m.lastSeen[1] == map[] && m.banks[1] == FRESH_BANK
    modifies m
    ensures Shows(m, FOURTH) && m.clock == 0.0
    ensures m.banks[1] == Bank(m.banks[1].recent, 0, -1, 0, 34.0, 0.0, 0.0, 0.0, 16.0, 1)
    ensures done == 56
  {
    hide NextBank, BankRowCost, Demand, BatchHit, Activates, Recency, LeastService;
    hide ServiceEnvelope.ChannelsOk, ServiceEnvelope.ActivationsOk;
    UnseenMisses(TIMING, m.banks[1], WRITE_C, 0.0, m.lastSeen[1]);
    done := m.Predict(WRITE_C, 0);
    WriteElsewhere(FRESH_BANK, THIRD, m.banks[1].recent);
  }

  /** Four admissions of a fresh model and their completions. */
  method MixedRun() returns (answers: seq<int>)
    ensures answers == [38, 86, 56, 85]
  {
    hide NextBank, BankRowCost, Demand, BatchHit, Activates, Recency, LeastService;
    hide ServiceEnvelope.ChannelsOk, ServiceEnvelope.ActivationsOk;
    var m := new ServiceEnvelope(TIMING, 1, 2, 1, 1);
    var first := AdmitFirst(m);
    var second := AdmitSecond(m);
    var third := AdmitThird(m);
    ghost var b := m.banks[1];
    var fourth := m.Predict(READ_C, 40);
    ReadBack(b, FOURTH, m.banks[1].recent);
    answers := [first, second, third, fourth];
  }
}
