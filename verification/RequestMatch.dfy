/** Pairing the reads of an oracle trace with those of a model trace: by stable identity where the
    frontends supply one, by occurrence of an address otherwise. */
module RequestMatch {

  import opened Basics
  import Occurrence

  /** A read that passed the trace loader. */
  datatype Row = Row(src: int, addr: nat, id: int, subId: nat, lat: nat)

  /** The reads of one trace, and whether it carries the stable-identity columns. */
  datatype Trace = Trace(rows: seq<Row>, schema: bool)

  datatype Pair = Pair(o: nat, m: nat)

  datatype Place = Place(src: int, addr: nat)

  /** What two reads must share to be paired: the n-th read of a place, or a stable identity. */
  datatype Key = Visit(place: Place, occurrence: nat) | Identity(src: int, id: int, subId: nat)

  // ----- Inner join on a key -----

  function RowPairs(i: nat, k: Key, m: seq<Key>, n: nat): seq<Pair>
    requires n <= |m|
  {
    if n == 0 then []
    else if m[n - 1] == k then RowPairs(i, k, m, n - 1) + [Pair(i, n - 1)]
    else RowPairs(i, k, m, n - 1)
  }

  /** Every oracle row below n with every model row of equal key, in oracle order. */
  function Join(o: seq<Key>, m: seq<Key>, n: nat): seq<Pair>
    requires n <= |o|
  {
    if n == 0 then [] else Join(o, m, n - 1) + RowPairs(n - 1, o[n - 1], m, |m|)
  }

  lemma {:induction false} RowPairsExact(i: nat, k: Key, m: seq<Key>, n: nat, p: Pair)
    requires n <= |m|
    ensures p in RowPairs(i, k, m, n) <==> p.o == i && p.m < n && m[p.m] == k
  {
    if n > 0 {
      RowPairsExact(i, k, m, n - 1, p);
    }
  }

  lemma {:induction false} InConcat(a: seq<Pair>, b: seq<Pair>, p: Pair)
    ensures p in a + b <==> p in a || p in b
  {
  }

  /** The join holds a pair exactly when its two rows share a key. */
  lemma {:induction false} JoinExact(o: seq<Key>, m: seq<Key>, n: nat, p: Pair)
    requires n <= |o|
    ensures p in Join(o, m, n) <==> p.o < n && p.m < |m| && o[p.o] == m[p.m]
  {
    if n > 0 {
      JoinExact(o, m, n - 1, p);
      RowPairsExact(n - 1, o[n - 1], m, |m|, p);
      var before, row := Join(o, m, n - 1), RowPairs(n - 1, o[n - 1], m, |m|);
      InConcat(before, row, p);
      assert p in Join(o, m, n) <==> p in before || p in row;
    }
  }

  predicate Distinct<K(==)>(s: seq<K>) {
    forall i, j :: 0 <= i < j < |s| ==> s[i] != s[j]
  }

  /** No row on either side is paired twice, and no pair is listed twice. */
  predicate OneToOne(pairs: seq<Pair>) {
    forall x, y :: 0 <= x < y < |pairs| ==> pairs[x].o != pairs[y].o && pairs[x].m != pairs[y].m
  }

  lemma {:induction false} RowPairsSingle(i: nat, k: Key, m: seq<Key>, n: nat)
    requires n <= |m| && Distinct(m)
    ensures |RowPairs(i, k, m, n)| <= 1
  {
    if n > 0 {
      RowPairsSingle(i, k, m, n - 1);
      if m[n - 1] == k && |RowPairs(i, k, m, n - 1)| > 0 {
        RowPairsExact(i, k, m, n - 1, RowPairs(i, k, m, n - 1)[0]);
      }
    }
  }

  /** Distinct keys on both sides make the join one-to-one. */
  lemma {:induction false} JoinOneToOne(o: seq<Key>, m: seq<Key>, n: nat)
    requires n <= |o| && Distinct(o) && Distinct(m)
    ensures OneToOne(Join(o, m, n))
  {
    if n > 0 {
      JoinOneToOne(o, m, n - 1);
      RowPairsSingle(n - 1, o[n - 1], m, |m|);
      var before, row := Join(o, m, n - 1), RowPairs(n - 1, o[n - 1], m, |m|);
      if |row| == 1 {
        RowPairsExact(n - 1, o[n - 1], m, |m|, row[0]);
        forall x | 0 <= x < |before| ensures before[x].o != row[0].o && before[x].m != row[0].m {
          JoinExact(o, m, n - 1, before[x]);
        }
      }
      OneToOneAppend(before, row);
    }
  }

  lemma {:induction false} OneToOneAppend(before: seq<Pair>, row: seq<Pair>)
    requires OneToOne(before) && |row| <= 1
    requires forall x :: 0 <= x < |before| && |row| == 1 ==> before[x].o != row[0].o && before[x].m != row[0].m
    ensures OneToOne(before + row)
  {
  }

  /** Distinct numbers below n are at most n. */
  lemma {:induction false} Pigeonhole(s: seq<nat>, n: nat)
    requires Distinct(s) && forall i :: 0 <= i < |s| ==> s[i] < n
    ensures |s| <= n
  {
    var first := if s == [] then 0 else s[0];
    if s == [] || n == 0 {
      assert n == 0 ==> first == 0;
    } else if k :| 0 <= k < |s| && s[k] == n - 1 {
      var t := s[..k] + s[k + 1..];
      forall i | 0 <= i < |t| ensures t[i] < n - 1 {
        assert t[i] == s[if i < k then i else i + 1];
        assert s[if i < k then i else i + 1] != s[k];
      }
      Pigeonhole(t, n - 1);
    } else {
      Pigeonhole(s, n - 1);
    }
  }

  /** A one-to-one pairing is no larger than either side. */
  lemma {:induction false} OneToOneFits(pairs: seq<Pair>, n: nat, k: nat)
    requires OneToOne(pairs) && forall i :: 0 <= i < |pairs| ==> pairs[i].o < n && pairs[i].m < k
    ensures |pairs| <= n && |pairs| <= k
  {
    Pigeonhole(seq(|pairs|, i requires 0 <= i < |pairs| => pairs[i].o), n);
    Pigeonhole(seq(|pairs|, i requires 0 <= i < |pairs| => pairs[i].m), k);
  }

  // ----- Pairing by occurrence -----

  function Places(rows: seq<Row>): (r: seq<Place>)
    ensures |r| == |rows| && forall i :: 0 <= i < |rows| ==> r[i] == Place(rows[i].src, rows[i].addr)
  {
    seq(|rows|, i requires 0 <= i < |rows| => Place(rows[i].src, rows[i].addr))
  }

  function Visits(rows: seq<Row>): (r: seq<Key>)
    ensures |r| == |rows|
    ensures forall i :: 0 <= i < |rows| ==>
              r[i] == Visit(Places(rows)[i], Occurrence.Count(Places(rows), i, Places(rows)[i]))
  {
    var places := Places(rows);
    seq(|rows|, i requires 0 <= i < |rows| => Visit(places[i], Occurrence.Count(places, i, places[i])))
  }

  function LegacyPairs(o: seq<Row>, m: seq<Row>): seq<Pair> {
    Join(Visits(o), Visits(m), |o|)
  }

  lemma {:induction false} VisitsDistinct(rows: seq<Row>)
    ensures Distinct(Visits(rows))
  {
    var v, p := Visits(rows), Places(rows);
    forall i, j | 0 <= i < j < |v| ensures v[i] != v[j] {
      if p[i] == p[j] {
        Occurrence.OccurrencesDistinct(p, i, j);
      }
    }
  }

  /** Occurrence pairing is one-to-one, and pairs the k-th read of a place with the k-th: an oracle read
      is paired exactly when the model visits its place more often than the oracle did before it. */
  lemma {:induction false} LegacyPairsExact(o: seq<Row>, m: seq<Row>)
    ensures OneToOne(LegacyPairs(o, m)) && |LegacyPairs(o, m)| <= |o| && |LegacyPairs(o, m)| <= |m|
    ensures forall p :: p in LegacyPairs(o, m) ==> p.o < |o| && p.m < |m| && Visits(o)[p.o] == Visits(m)[p.m]
    ensures forall i :: 0 <= i < |o| ==>
              ((exists p :: p in LegacyPairs(o, m) && p.o == i)
               <==> Visits(o)[i].occurrence < Occurrence.Count(Places(m), |m|, Visits(o)[i].place))
  {
    VisitsDistinct(o);
    VisitsDistinct(m);
    JoinOneToOne(Visits(o), Visits(m), |o|);
    var pairs := LegacyPairs(o, m);
    forall p | p in pairs ensures p.o < |o| && p.m < |m| && Visits(o)[p.o] == Visits(m)[p.m] {
      JoinExact(Visits(o), Visits(m), |o|, p);
    }
    OneToOneFits(pairs, |o|, |m|);
    forall i | 0 <= i < |o|
      ensures (exists p :: p in pairs && p.o == i)
              <==> Visits(o)[i].occurrence < Occurrence.Count(Places(m), |m|, Visits(o)[i].place)
    {
      LegacyPaired(o, m, i);
    }
  }

  lemma {:induction false} LegacyPaired(o: seq<Row>, m: seq<Row>, i: nat)
    requires i < |o|
    ensures (exists p :: p in LegacyPairs(o, m) && p.o == i)
            <==> Visits(o)[i].occurrence < Occurrence.Count(Places(m), |m|, Visits(o)[i].place)
  {
    var v, vm := Visits(o)[i], Visits(m);
    if v.occurrence < Occurrence.Count(Places(m), |m|, v.place) {
      var j := VisitExists(m, v);
      JoinExact(Visits(o), vm, |o|, Pair(i, j));
      assert Pair(i, j) in LegacyPairs(o, m);
    } else {
      forall p | p in LegacyPairs(o, m) ensures p.o != i {
        JoinExact(Visits(o), vm, |o|, p);
        VisitBelowCount(m, p.m);
      }
    }
  }

  lemma {:induction false} VisitExists(rows: seq<Row>, v: Key) returns (j: nat)
    requires v.Visit? && v.occurrence < Occurrence.Count(Places(rows), |rows|, v.place)
    ensures j < |rows| && Visits(rows)[j] == v
  {
    j := Occurrence.OccurrenceExists(Places(rows), |rows|, v.place, v.occurrence);
  }

  lemma {:induction false} VisitBelowCount(rows: seq<Row>, j: nat)
    requires j < |rows|
    ensures Visits(rows)[j].occurrence < Occurrence.Count(Places(rows), |rows|, Visits(rows)[j].place)
  {
    Occurrence.OccurrenceBelow(Places(rows), j);
  }

  // ----- Pairing by identity -----

  /** The reads with a stable identity, in order. */
  function Eligible(rows: seq<Row>): (r: seq<Row>)
    ensures |r| <= |rows|
  {
    if rows == [] then []
    else if 0 <= rows[0].id then [rows[0]] + Eligible(rows[1..]) else Eligible(rows[1..])
  }

  /** They are the reads with an identity, all of them, and in their order: cutting the trace anywhere
      cuts them alike. */
  lemma {:induction false} EligibleIsFilter(rows: seq<Row>)
    ensures forall x :: multiset(Eligible(rows))[x] == if 0 <= x.id then multiset(rows)[x] else 0
  {
    if rows != [] {
      EligibleIsFilter(rows[1..]);
      assert rows == [rows[0]] + rows[1..];
    }
  }

  lemma {:induction false} EligibleStep(x: Row, rest: seq<Row>)
    ensures Eligible([x] + rest) == (if 0 <= x.id then [x] else []) + Eligible(rest)
  {
    assert ([x] + rest)[1..] == rest;
  }

  lemma {:induction false} Associates(a: seq<Row>, b: seq<Row>, c: seq<Row>)
    ensures a + (b + c) == a + b + c
  {
  }

  lemma {:induction false} EligibleConcat(a: seq<Row>, b: seq<Row>)
    ensures Eligible(a + b) == Eligible(a) + Eligible(b)
  {
    if a == [] {
      assert a + b == b;
    } else {
      hide Eligible;
      EligibleConcat(a[1..], b);
      EligibleStep(a[0], a[1..] + b);
      EligibleStep(a[0], a[1..]);
      assert a + b == [a[0]] + (a[1..] + b) && a == [a[0]] + a[1..];
      Associates(if 0 <= a[0].id then [a[0]] else [], Eligible(a[1..]), Eligible(b));
    }
  }

  function Identities(rows: seq<Row>): (r: seq<Key>)
    ensures |r| == |rows| && forall i :: 0 <= i < |rows| ==> r[i] == Identity(rows[i].src, rows[i].id, rows[i].subId)
  {
    seq(|rows|, i requires 0 <= i < |rows| => Identity(rows[i].src, rows[i].id, rows[i].subId))
  }

  /** The pairs of the eligible reads, or a fault when an identity repeats on either side. */
  function StablePairs(o: seq<Row>, m: seq<Row>): Result<seq<Pair>> {
    var ko, km := Identities(Eligible(o)), Identities(Eligible(m));
    if !Distinct(ko) || !Distinct(km) then Err("duplicate stable request identity")
    else Ok(Join(ko, km, |ko|))
  }

  /** Identity pairing is one-to-one and complete: it holds exactly the pairs of equal identities. */
  lemma {:induction false} StablePairsExact(o: seq<Row>, m: seq<Row>)
    requires StablePairs(o, m).Ok?
    ensures var pairs := StablePairs(o, m).value;
            && OneToOne(pairs) && |pairs| <= |Eligible(o)| && |pairs| <= |Eligible(m)|
            && forall p :: p in pairs <==> p.o < |Eligible(o)| && p.m < |Eligible(m)|
                                           && Identities(Eligible(o))[p.o] == Identities(Eligible(m))[p.m]
  {
    var ko, km := Identities(Eligible(o)), Identities(Eligible(m));
    var pairs := StablePairs(o, m).value;
    JoinOneToOne(ko, km, |ko|);
    forall p ensures p in pairs <==> p.o < |ko| && p.m < |km| && ko[p.o] == km[p.m] {
      JoinExact(ko, km, |ko|, p);
    }
    OneToOneFits(pairs, |ko|, |km|);
  }

  // ----- The matcher -----

  /** Rows of the two sides that a list of pairs selects, with the signed latency errors. */
  function Errors(o: seq<Row>, m: seq<Row>, pairs: seq<Pair>): (r: seq<int>)
    requires forall i :: 0 <= i < |pairs| ==> pairs[i].o < |o| && pairs[i].m < |m|
    ensures |r| == |pairs| && forall i :: 0 <= i < |pairs| ==> r[i] == m[pairs[i].m].lat - o[pairs[i].o].lat
  {
    seq(|pairs|, i requires 0 <= i < |pairs| => m[pairs[i].m].lat - o[pairs[i].o].lat)
  }

  /** The pairs whose two rows agree on the address. */
  function Consistent(o: seq<Row>, m: seq<Row>, pairs: seq<Pair>): (r: seq<Pair>)
    requires forall i :: 0 <= i < |pairs| ==> pairs[i].o < |o| && pairs[i].m < |m|
    ensures |r| <= |pairs| && forall i :: 0 <= i < |r| ==> r[i] in pairs && o[r[i].o].addr == m[r[i].m].addr
    ensures |r| == |pairs| <==> forall i :: 0 <= i < |pairs| ==> o[pairs[i].o].addr == m[pairs[i].m].addr
  {
    if pairs == [] then []
    else
      var rest := Consistent(o, m, pairs[1..]);
      if o[pairs[0].o].addr == m[pairs[0].m].addr then [pairs[0]] + rest else rest
  }

  /** No pair of one address is dropped, and none appears more often than it was paired. */
  lemma {:induction false} ConsistentIsFilter(o: seq<Row>, m: seq<Row>, pairs: seq<Pair>, p: Pair)
    requires InRange(pairs, |o|, |m|) && p.o < |o| && p.m < |m|
    ensures multiset(Consistent(o, m, pairs))[p] == if o[p.o].addr == m[p.m].addr then multiset(pairs)[p] else 0
  {
    if pairs != [] {
      ConsistentIsFilter(o, m, pairs[1..], p);
      assert pairs == [pairs[0]] + pairs[1..];
    }
  }

  datatype Policy = ExactPhysicalFilter | StrictAddressEquality | LegacyOccurrence

  /** The stable-mode counts: pairs before and after the address filter. */
  datatype Logical = Logical(pairs: nat, mismatches: nat)

  datatype Matched = Matched(
    dv: seq<int>, nO: nat, nM: nat, allO: seq<nat>, stable: bool, eligibleO: nat, eligibleM: nat,
    logical: Option<Logical>, policy: Policy, fallback: Option<string>)

  function Latencies(rows: seq<Row>): (r: seq<nat>)
    ensures |r| == |rows| && forall i :: 0 <= i < |rows| ==> r[i] == rows[i].lat
  {
    seq(|rows|, i requires 0 <= i < |rows| => rows[i].lat)
  }

  predicate InRange(pairs: seq<Pair>, n: nat, k: nat) {
    forall i :: 0 <= i < |pairs| ==> pairs[i].o < n && pairs[i].m < k
  }

  lemma {:induction false} LegacyInRange(o: seq<Row>, m: seq<Row>)
    ensures InRange(LegacyPairs(o, m), |o|, |m|)
  {
    LegacyPairsExact(o, m);
  }

  lemma {:induction false} StableInRange(o: seq<Row>, m: seq<Row>)
    requires StablePairs(o, m).Ok?
    ensures InRange(StablePairs(o, m).value, |Eligible(o)|, |Eligible(m)|)
  {
    StablePairsExact(o, m);
    var pairs := StablePairs(o, m).value;
    forall i | 0 <= i < |pairs| ensures pairs[i].o < |Eligible(o)| && pairs[i].m < |Eligible(m)| {
      assert pairs[i] in pairs;
    }
  }

  /** Compare two traces. An identity seen at two addresses is a fault, unless the caller asks for such
      pairs to be filtered, which needs identities. */
  function Match(oracle: Trace, model: Trace, filter: bool): Result<Matched> {
    var eo := if oracle.schema then |Eligible(oracle.rows)| else 0;
    var em := if model.schema then |Eligible(model.rows)| else 0;
    if oracle.schema && model.schema && (eo > 0 || em > 0) then
      StableMatch(oracle.rows, model.rows, filter)
    else if filter then Err("physical-mismatch filtering requires eligible stable IDs")
    else
      LegacyInRange(oracle.rows, model.rows);
      var pairs := LegacyPairs(oracle.rows, model.rows);
      Ok(Matched(Errors(oracle.rows, model.rows, pairs), |oracle.rows|, |model.rows|, Latencies(oracle.rows),
                 false, eo, em, None, LegacyOccurrence,
                 Some(if !oracle.schema || !model.schema then "stable_id_columns_missing"
                      else "no_eligible_stable_ids")))
  }

  function StableMatch(o: seq<Row>, m: seq<Row>, filter: bool): Result<Matched> {
    var eo, em := Eligible(o), Eligible(m);
    if StablePairs(o, m).Err? then Err(StablePairs(o, m).fault)
    else
      var logical := StablePairs(o, m).value;
      StableInRange(o, m);
      var kept := Consistent(eo, em, logical);
      if |kept| < |logical| && !filter then Err("stable request identity maps to different addresses")
      else
        var pairs := if filter then kept else logical;
        Ok(Matched(Errors(eo, em, pairs), |o|, |m|, Latencies(o), true, |eo|, |em|,
                   Some(Logical(|logical|, |logical| - |kept|)),
                   if filter then ExactPhysicalFilter else StrictAddressEquality, None))
  }

  /** What the counts of a match always satisfy. */
  predicate Sound(r: Matched) {
    && |r.dv| <= r.nO && |r.dv| <= r.nM && r.eligibleO <= r.nO && r.eligibleM <= r.nM && |r.allO| == r.nO
    && (r.stable <==> r.fallback == None) && (r.stable <==> r.logical.Some?)
    && (r.fallback.Some? ==> r.fallback.value != "")
    && (r.stable ==> && |r.dv| <= r.eligibleO && |r.dv| <= r.eligibleM
                     && r.logical.value.pairs == |r.dv| + r.logical.value.mismatches
                     && r.logical.value.pairs <= r.eligibleO && r.logical.value.pairs <= r.eligibleM)
    && (r.policy == ExactPhysicalFilter ==> r.stable)
  }

  /** Every successful match has consistent counts. */
  lemma {:induction false} MatchSound(oracle: Trace, model: Trace, filter: bool)
    requires Match(oracle, model, filter).Ok?
    ensures Sound(Match(oracle, model, filter).value)
    ensures var r := Match(oracle, model, filter).value;
            && r.allO == Latencies(oracle.rows) && r.nO == |oracle.rows| && r.nM == |model.rows|
            && (oracle.schema ==> r.eligibleO == |Eligible(oracle.rows)|)
            && (model.schema ==> r.eligibleM == |Eligible(model.rows)|)
            && (r.stable <==> oracle.schema && model.schema && (0 < r.eligibleO || 0 < r.eligibleM))
            && (r.policy == ExactPhysicalFilter <==> filter)
  {
    var r := Match(oracle, model, filter).value;
    if r.stable {
      StablePairsExact(oracle.rows, model.rows);
    } else {
      LegacyPairsExact(oracle.rows, model.rows);
    }
  }

  lemma {:induction false} ConsistentAll(o: seq<Row>, m: seq<Row>, pairs: seq<Pair>)
    requires InRange(pairs, |o|, |m|) && |Consistent(o, m, pairs)| == |pairs|
    ensures Consistent(o, m, pairs) == pairs
  {
    if pairs != [] {
      ConsistentAll(o, m, pairs[1..]);
    }
  }

  lemma {:induction false} ConsistentInRange(o: seq<Row>, m: seq<Row>, pairs: seq<Pair>)
    requires InRange(pairs, |o|, |m|)
    ensures InRange(Consistent(o, m, pairs), |o|, |m|)
  {
    var kept := Consistent(o, m, pairs);
    forall i | 0 <= i < |kept| ensures kept[i].o < |o| && kept[i].m < |m| {
      var k :| 0 <= k < |pairs| && pairs[k] == kept[i];
    }
  }

  /** A stable match scores exactly the consistent pairs, with the filter or without: a pair whose two
      reads went to different addresses never reaches the errors. */
  lemma {:induction false} ScoresOnlyConsistent(o: seq<Row>, m: seq<Row>, filter: bool)
    requires StableMatch(o, m, filter).Ok?
    ensures StablePairs(o, m).Ok? && InRange(StablePairs(o, m).value, |Eligible(o)|, |Eligible(m)|)
    ensures var kept := Consistent(Eligible(o), Eligible(m), StablePairs(o, m).value);
            && InRange(kept, |Eligible(o)|, |Eligible(m)|)
            && StableMatch(o, m, filter).value.dv == Errors(Eligible(o), Eligible(m), kept)
  {
    hide Consistent, Eligible, StablePairs;
    StableInRange(o, m);
    var logical := StablePairs(o, m).value;
    ConsistentInRange(Eligible(o), Eligible(m), logical);
    if !filter {
      ConsistentAll(Eligible(o), Eligible(m), logical);
    }
  }
}
