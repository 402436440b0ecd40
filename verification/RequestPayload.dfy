/** The request-metric payload built from a match, and the validator that every consumer of a payload
    applies. */
module RequestPayload {

  import opened Basics
  import opened RequestMatch
  import RealFacts

  const METRIC_SCHEMA: int := 6
  const NORMALIZATION: string := "full_oracle_read_mean_latency"

  datatype Payload = Payload(
    metricSchema: int, matcherSchema: int, normalization: string, inputs: Option<string>,
    scope: string, timebase: string,
    mae: real, sgn: real, tail: real, oracleMean: real,
    matched: int, nOracle: int, nModel: int, eligibleO: int, eligibleM: int,
    covO: real, covM: real, cov: Option<real>, stableCovO: real, stableCovM: real, eligibilityO: real,
    eligibilityM: real,
    mode: string, fallback: Option<string>, filtered: bool,
    logicalPairs: Option<int>, mismatchPairs: Option<int>, consistentPairs: Option<int>, consistencyRate: Option<real>)

  // ----- Validation -----

  /** The characters that strip() removes: those Unicode calls white space, and the four separators. */
  predicate Space(c: char) {
    var k := c as int;
    9 <= k <= 13 || 0x1c <= k <= 0x20 || k in {0x85, 0xa0, 0x1680, 0x2028, 0x2029, 0x202f, 0x205f, 0x3000}
    || 0x2000 <= k <= 0x200a
  }

  predicate Blank(s: string) {
    forall i :: 0 <= i < |s| ==> Space(s[i])
  }

  /** A reported ratio agrees with its counts to within the tolerance. */
  predicate Agrees(actual: real, numerator: int, denominator: int) {
    && denominator != 0
    && var d := actual - numerator as real / denominator as real;
       -0.000000000001 <= d <= 0.000000000001
  }

  predicate Coverage(x: real) {
    0.0 <= x <= 1.0
  }

  function Header(p: Payload, scope: string, timebase: string, inputs: Option<string>, schema: int): Option<string> {
    if p.metricSchema != METRIC_SCHEMA then Some("request metric schema is stale")
    else if p.matcherSchema != schema then Some("matcher schema is stale")
    else if inputs.Some? && p.inputs != inputs then Some("request trace signatures do not match")
    else if p.normalization != NORMALIZATION then Some("request metrics must use full-oracle read normalization")
    else if Blank(scope) then Some("request_trace_scope must be a non-empty string")
    else if Blank(timebase) then Some("request_trace_timebase must be a non-empty string")
    else if p.scope != scope then Some("request metric trace scope differs")
    else if p.timebase != timebase then Some("request metric trace timebase differs")
    else None
  }

  function Counts(p: Payload): Option<string> {
    if p.mae < 0.0 || p.tail < 0.0 then Some("mae and tail must be non-negative")
    else if p.oracleMean <= 0.0 then Some("oracle_read_mean_latency must be positive")
    else if p.matched < 1 || p.nOracle < 1 || p.nModel < 1 then Some("populations must be positive")
    else if p.nOracle < p.matched || p.nModel < p.matched then Some("matched exceeds a full request population")
    else if p.eligibleO < 0 || p.eligibleM < 0 then Some("eligible populations must be non-negative")
    else if p.nOracle < p.eligibleO || p.nModel < p.eligibleM
    then Some("stable eligible population exceeds full population")
    else if !(Coverage(p.covO) && Coverage(p.covM) && Coverage(p.stableCovO) && Coverage(p.stableCovM)
              && Coverage(p.eligibilityO) && Coverage(p.eligibilityM)) then Some("coverage must be between 0 and 1")
    else if !Agrees(p.covO, p.matched, p.nOracle) || !Agrees(p.covM, p.matched, p.nModel)
    then Some("coverage is inconsistent")
    else if p.cov.Some? && !(Coverage(p.cov.value) && -0.000000000001 <= p.cov.value - p.covO <= 0.000000000001)
    then Some("compatibility cov differs from cov_o")
    else None
  }

  function ModeFault(p: Payload): Option<string> {
    if p.mode == "stable_id" then
      if p.fallback != None then Some("stable-ID metrics cannot carry a legacy fallback reason")
      else if p.eligibleO <= 0 || p.eligibleM <= 0 then Some("stable-ID metrics require eligible rows on both sides")
      else if p.eligibleO < p.matched || p.eligibleM < p.matched
      then Some("matched exceeds a stable-eligible population")
      else if !Agrees(p.stableCovO, p.matched, p.eligibleO) || !Agrees(p.stableCovM, p.matched, p.eligibleM)
      then Some("stable coverage is inconsistent")
      else None
    else if p.mode == "legacy_occurrence" then
      if p.fallback == None || p.fallback.value == "" then Some("legacy metrics require a fallback reason")
      else if p.stableCovO != 0.0 || p.stableCovM != 0.0 then Some("legacy metrics must report zero stable coverage")
      else None
    else Some("invalid match_mode")
  }

  function FilterFault(p: Payload): Option<string> {
    if !Agrees(p.eligibilityO, p.eligibleO, p.nOracle) || !Agrees(p.eligibilityM, p.eligibleM, p.nModel)
    then Some("eligibility is inconsistent")
    else if !p.filtered then None
    else if p.logicalPairs == None || p.mismatchPairs == None || p.consistentPairs == None
    then Some("pair counts must be integers")
    else if p.logicalPairs.value < 0 || p.mismatchPairs.value < 0 || p.consistentPairs.value < 0
    then Some("pair counts must be non-negative")
    else if p.mode != "stable_id" || p.eligibleO < p.logicalPairs.value || p.eligibleM < p.logicalPairs.value
            || p.logicalPairs.value != p.matched + p.mismatchPairs.value || p.consistentPairs.value != p.matched
    then Some("logical/physical pair counts are inconsistent")
    else if p.consistencyRate == None || !Coverage(p.consistencyRate.value)
            || !Agrees(p.consistencyRate.value, p.matched, p.logicalPairs.value)
    then Some("physical_consistency_rate is inconsistent")
    else None
  }

  /** The first fault the validator finds. */
  function Validate(p: Payload, scope: string, timebase: string, inputs: Option<string>, schema: int): Option<string> {
    if Header(p, scope, timebase, inputs, schema).Some? then Header(p, scope, timebase, inputs, schema)
    else if Counts(p).Some? then Counts(p)
    else if ModeFault(p).Some? then ModeFault(p)
    else FilterFault(p)
  }

  // ----- Construction -----

  function Total(s: seq<int>): int {
    if s == [] then 0 else s[0] + Total(s[1..])
  }

  function Magnitudes(s: seq<int>): (r: seq<int>)
    ensures |r| == |s| && forall i :: 0 <= i < |s| ==> 0 <= r[i] && r[i] in {s[i], -s[i]}
  {
    seq(|s|, i requires 0 <= i < |s| => if s[i] < 0 then -s[i] else s[i])
  }

  function Mean(s: seq<int>): real
    requires s != []
  {
    Total(s) as real / |s| as real
  }

  function Ratio(a: nat, b: nat): real {
    a as real / (if b == 0 then 1 else b) as real
  }

  /** A match's figures normalised by the mean latency of all oracle reads; p99 is the 99th percentile
      of the error magnitudes. The payload is validated before it is handed out. */
  function Build(r: Matched, mean: real, p99: real, scope: string, timebase: string, inputs: Option<string>,
                 schema: int): Payload
    requires r.dv != [] && mean != 0.0 && r.nO != 0 && r.nM != 0
  {
    var n := |r.dv|;
    Payload(
      METRIC_SCHEMA, schema, NORMALIZATION, inputs, scope, timebase,
      Mean(Magnitudes(r.dv)) / mean, Mean(r.dv) / mean, p99 / mean, mean,
      n, r.nO, r.nM, r.eligibleO, r.eligibleM,
      Ratio(n, r.nO), Ratio(n, r.nM), Some(Ratio(n, r.nO)),
      if r.stable && r.eligibleO > 0 then Ratio(n, r.eligibleO) else 0.0,
      if r.stable && r.eligibleM > 0 then Ratio(n, r.eligibleM) else 0.0,
      Ratio(r.eligibleO, r.nO), Ratio(r.eligibleM, r.nM),
      if r.stable then "stable_id" else "legacy_occurrence", r.fallback, r.policy == ExactPhysicalFilter,
      if r.logical.Some? then Some(r.logical.value.pairs) else None,
      if r.logical.Some? then Some(r.logical.value.mismatches) else None,
      if r.logical.Some? then Some(r.logical.value.pairs - r.logical.value.mismatches) else None,
      if r.logical.Some? && r.logical.value.pairs > 0
      then Some((r.logical.value.pairs - r.logical.value.mismatches) as real / r.logical.value.pairs as real) else None)
  }

  function PayloadFromMatch(r: Matched, p99: real, scope: string, timebase: string, inputs: Option<string>,
                            schema: int): Result<Payload>
    requires Sound(r)
  {
    if r.dv == [] then Err("request traces contain no trusted read pairs")
    else if r.allO == [] then Err("oracle request trace contains no reads")
    else if Mean(r.allO) <= 0.0 then Err("oracle request trace has invalid mean read latency")
    else
      var p := Build(r, Mean(r.allO), p99, scope, timebase, inputs, schema);
      match Validate(p, scope, timebase, inputs, schema)
      case None => Ok(p)
      case Some(fault) => Err(fault)
  }

  // ----- Every match scores -----

  lemma {:induction false} TotalSign(s: seq<int>)
    requires forall i :: 0 <= i < |s| ==> 0 <= s[i]
    ensures 0 <= Total(s) && (0 < Total(s) <==> exists i :: 0 <= i < |s| && 0 < s[i])
  {
    if s != [] {
      TotalSign(s[1..]);
      if i :| 0 <= i < |s| && 0 < s[i] {
        assert i > 0 ==> s[1..][i - 1] == s[i];
      }
      if 0 < Total(s[1..]) {
        var i :| 0 <= i < |s[1..]| && 0 < s[1..][i];
        assert s[i + 1] == s[1..][i];
      }
    }
  }

  lemma {:induction false} MeanSign(s: seq<int>)
    requires s != [] && forall i :: 0 <= i < |s| ==> 0 <= s[i]
    ensures 0.0 <= Mean(s) && (0.0 < Mean(s) <==> exists i :: 0 <= i < |s| && 0 < s[i])
  {
    TotalSign(s);
    RealFacts.QuotientSign(Total(s) as real, |s| as real);
  }

  lemma {:induction false} RatioCovers(a: nat, b: nat)
    requires a <= b && 0 < b
    ensures Coverage(Ratio(a, b)) && Agrees(Ratio(a, b), a, b)
  {
    var x, d := a as real, b as real;
    RealFacts.QuotientSign(x, d);
    RealFacts.QuotientBound(x, d, 1.0);
  }

  lemma {:induction false} BuildCounts(r: Matched, mean: real, p99: real, scope: string, timebase: string,
                                       inputs: Option<string>, schema: int)
    requires Sound(r) && r.dv != [] && 0.0 < mean && 0.0 <= p99
    ensures Counts(Build(r, mean, p99, scope, timebase, inputs, schema)) == None
  {
    MeanSign(Magnitudes(r.dv));
    RealFacts.QuotientSign(Mean(Magnitudes(r.dv)), mean);
    RealFacts.QuotientSign(p99, mean);
    RatioCovers(|r.dv|, r.nO);
    RatioCovers(|r.dv|, r.nM);
    RatioCovers(r.eligibleO, r.nO);
    RatioCovers(r.eligibleM, r.nM);
    if r.stable {
      RatioCovers(|r.dv|, r.eligibleO);
      RatioCovers(|r.dv|, r.eligibleM);
    }
  }

  lemma {:induction false} BuildMode(r: Matched, mean: real, p99: real, scope: string, timebase: string,
                                     inputs: Option<string>, schema: int)
    requires Sound(r) && r.dv != [] && 0.0 < mean
    ensures ModeFault(Build(r, mean, p99, scope, timebase, inputs, schema)) == None
  {
    if r.stable {
      RatioCovers(|r.dv|, r.eligibleO);
      RatioCovers(|r.dv|, r.eligibleM);
    }
  }

  lemma {:induction false} BuildFilter(r: Matched, mean: real, p99: real, scope: string, timebase: string,
                                       inputs: Option<string>, schema: int)
    requires Sound(r) && r.dv != [] && 0.0 < mean
    ensures FilterFault(Build(r, mean, p99, scope, timebase, inputs, schema)) == None
  {
    RatioCovers(r.eligibleO, r.nO);
    RatioCovers(r.eligibleM, r.nM);
    if r.stable {
      RatioCovers(|r.dv|, r.logical.value.pairs);
    }
  }

  /** A match yields a payload exactly when it paired something, some oracle read took time, and the
      caller named a scope and a timebase: the validator never turns down a match of its own kind. */
  lemma {:induction false} MatchScores(r: Matched, p99: real, scope: string, timebase: string,
                                       inputs: Option<string>, schema: int)
    requires Sound(r) && 0.0 <= p99
    ensures PayloadFromMatch(r, p99, scope, timebase, inputs, schema).Ok?
            <==> r.dv != [] && (exists i :: 0 <= i < |r.allO| && 0 < r.allO[i]) && !Blank(scope) && !Blank(timebase)
  {
    if r.dv != [] && r.allO != [] {
      MeanSign(r.allO);
      var mean := Mean(r.allO);
      if 0.0 < mean {
        BuildCounts(r, mean, p99, scope, timebase, inputs, schema);
        BuildMode(r, mean, p99, scope, timebase, inputs, schema);
        BuildFilter(r, mean, p99, scope, timebase, inputs, schema);
      }
    }
  }

  /** The same from the traces on: every pair of loadable traces that match scores. */
  lemma {:induction false} TracesScore(oracle: Trace, model: Trace, filter: bool, p99: real, scope: string,
                                       timebase: string, inputs: Option<string>, schema: int)
    requires Match(oracle, model, filter).Ok? && 0.0 <= p99
    ensures Sound(Match(oracle, model, filter).value)
    ensures PayloadFromMatch(Match(oracle, model, filter).value, p99, scope, timebase, inputs, schema).Ok?
            <==> && Match(oracle, model, filter).value.dv != []
                 && (exists i :: 0 <= i < |oracle.rows| && 0 < oracle.rows[i].lat) && !Blank(scope) && !Blank(timebase)
  {
    MatchSound(oracle, model, filter);
    var r := Match(oracle, model, filter).value;
    MatchScores(r, p99, scope, timebase, inputs, schema);
    assert forall i :: 0 <= i < |oracle.rows| ==> r.allO[i] == oracle.rows[i].lat;
  }

  // ----- What the figures mean -----

  /** No two errors have opposite signs. */
  predicate OneSided(s: seq<int>) {
    !exists i, j :: 0 <= i < |s| && 0 <= j < |s| && s[i] < 0 < s[j]
  }

  predicate AllZero(s: seq<int>) {
    forall i :: 0 <= i < |s| ==> s[i] == 0
  }

  function Plus(a: seq<int>, b: seq<int>): (r: seq<int>)
    requires |a| == |b|
    ensures |r| == |a| && forall i :: 0 <= i < |a| ==> r[i] == a[i] + b[i]
  {
    seq(|a|, i requires 0 <= i < |a| => a[i] + b[i])
  }

  function Negated(s: seq<int>): (r: seq<int>)
    ensures |r| == |s| && forall i :: 0 <= i < |s| ==> r[i] == -s[i]
  {
    seq(|s|, i requires 0 <= i < |s| => -s[i])
  }

  lemma {:induction false} TotalPlus(a: seq<int>, b: seq<int>)
    requires |a| == |b|
    ensures Total(Plus(a, b)) == Total(a) + Total(b)
  {
    if a != [] {
      TotalPlus(a[1..], b[1..]);
      assert Plus(a, b)[1..] == Plus(a[1..], b[1..]);
    }
  }

  lemma {:induction false} TotalNegated(s: seq<int>)
    ensures Total(Negated(s)) == -Total(s) && Magnitudes(Negated(s)) == Magnitudes(s)
  {
    if s != [] {
      TotalNegated(s[1..]);
      assert Negated(s)[1..] == Negated(s[1..]);
    }
  }

  /** Magnitudes exceed what they are of by twice its negative part. */
  lemma {:induction false} MagnitudesAbove(s: seq<int>)
    ensures Total(s) <= Total(Magnitudes(s))
    ensures Total(s) == Total(Magnitudes(s)) <==> forall i :: 0 <= i < |s| ==> 0 <= s[i]
  {
    var excess := Plus(Magnitudes(s), Negated(s));
    TotalPlus(Magnitudes(s), Negated(s));
    TotalNegated(s);
    TotalSign(excess);
    assert forall i :: 0 <= i < |s| ==> (0 < excess[i] <==> s[i] < 0);
  }

  /** The total magnitude bounds the total error, and meets it in size exactly when all errors lean one way. */
  lemma {:induction false} MagnitudesBound(s: seq<int>)
    ensures -Total(Magnitudes(s)) <= Total(s) <= Total(Magnitudes(s))
    ensures Total(Magnitudes(s)) in {Total(s), -Total(s)} <==> OneSided(s)
    ensures Total(Magnitudes(s)) == 0 <==> AllZero(s)
  {
    MagnitudesAbove(s);
    MagnitudesAbove(Negated(s));
    TotalNegated(s);
    TotalSign(Magnitudes(s));
    assert (forall i :: 0 <= i < |s| ==> 0 <= Negated(s)[i]) <==> (forall i :: 0 <= i < |s| ==> s[i] <= 0);
    assert AllZero(s) <==> !exists i :: 0 <= i < |s| && 0 < Magnitudes(s)[i];
  }

  lemma {:induction false} Normalised(total: real, n: real, mean: real)
    requires 0.0 < n && 0.0 < mean
    ensures total / n / mean * (mean * n) == total
  {
    assert total / n / mean * mean == total / n;
    assert total / n * n == total;
    Regroup(total / n / mean, mean, n);
  }

  lemma {:induction false} Regroup(x: real, y: real, z: real)
    ensures x * y * z == x * (y * z)
  {
  }

  /** Quotients by one positive scale compare as their numerators do. */
  lemma {:induction false} SameScale(x: real, y: real, a: real, b: real, k: real)
    requires 0.0 < k && x * k == a && y * k == b
    ensures (x <= y <==> a <= b) && (x == y <==> a == b)
  {
    assert (y - x) * k == b - a;
  }

  /** A payload's scale: the matched reads times the mean oracle latency. */
  function Scale(p: Payload): real {
    p.oracleMean * p.matched as real
  }

  /** The payload's figures, multiplied out: the mean latency is that of every oracle read, and the two
      errors are totals over the matched reads, so the payload scores what the match found. */
  lemma {:induction false} PayloadFigures(r: Matched, p99: real, scope: string, timebase: string,
                                          inputs: Option<string>, schema: int)
    requires Sound(r) && PayloadFromMatch(r, p99, scope, timebase, inputs, schema).Ok?
    ensures var p := PayloadFromMatch(r, p99, scope, timebase, inputs, schema).value;
            && p.matched == |r.dv| && 0.0 < Scale(p)
            && p.oracleMean * |r.allO| as real == Total(r.allO) as real
            && p.mae * Scale(p) == Total(Magnitudes(r.dv)) as real
            && p.sgn * Scale(p) == Total(r.dv) as real
            && p.tail * p.oracleMean == p99
  {
    hide Validate, Total;
    var p := PayloadFromMatch(r, p99, scope, timebase, inputs, schema).value;
    RealFacts.Product(p.oracleMean, p.matched as real);
    Normalised(Total(Magnitudes(r.dv)) as real, p.matched as real, p.oracleMean);
    Normalised(Total(r.dv) as real, p.matched as real, p.oracleMean);
  }

  /** The signed error never exceeds the absolute one, which equals its size exactly when no two errors have
      opposite signs, and is zero exactly when every error is. */
  lemma {:induction false} PayloadErrors(r: Matched, p99: real, scope: string, timebase: string,
                                         inputs: Option<string>, schema: int)
    requires Sound(r) && PayloadFromMatch(r, p99, scope, timebase, inputs, schema).Ok?
    ensures var p := PayloadFromMatch(r, p99, scope, timebase, inputs, schema).value;
            && -p.mae <= p.sgn <= p.mae
            && (p.mae == (if p.sgn < 0.0 then -p.sgn else p.sgn) <==> OneSided(r.dv))
            && (p.mae == 0.0 <==> AllZero(r.dv))
  {
    hide PayloadFromMatch, Total, Magnitudes, OneSided, AllZero, Scale;
    var p := PayloadFromMatch(r, p99, scope, timebase, inputs, schema).value;
    PayloadFigures(r, p99, scope, timebase, inputs, schema);
    MagnitudesBound(r.dv);
    var a, b, k := Total(Magnitudes(r.dv)) as real, Total(r.dv) as real, Scale(p);
    SameScale(p.sgn, p.mae, b, a, k);
    SameScale(-p.mae, p.sgn, -a, b, k);
    SameScale(p.mae, 0.0, a, 0.0, k);
  }
}
