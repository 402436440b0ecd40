/** Comparing the model's trace against the oracle's or the other way round: the same reads are paired, and
    every error changes its sign. */
module RequestSymmetry {

  import opened Basics
  import opened RequestMatch
  import opened RequestPayload

  // ----- Sums and images of a rearranged list -----

  function Image<A>(f: A -> int, s: seq<A>): (r: seq<int>)
    ensures |r| == |s| && forall i :: 0 <= i < |s| ==> r[i] == f(s[i])
  {
    seq(|s|, i requires 0 <= i < |s| => f(s[i]))
  }

  /** A rearrangement without its first element rearranges the rest. */
  lemma {:induction false} DropFirst<A(!new)>(a: seq<A>, b: seq<A>) returns (k: nat)
    requires multiset(a) == multiset(b) && a != []
    ensures k < |b| && b[k] == a[0] && multiset(a[1..]) == multiset(b[..k] + b[k + 1..]) && |a[1..]| < |a|
  {
    assert a[0] in multiset(b);
    k :| 0 <= k < |b| && b[k] == a[0];
    assert a == [a[0]] + a[1..];
    assert b == b[..k] + [b[k]] + b[k + 1..];
    assert multiset(a[1..]) == multiset(a) - multiset{a[0]};
    assert multiset(b[..k] + b[k + 1..]) == multiset(b) - multiset{b[k]};
  }

  lemma {:induction false} ImageRearranged<A(!new)>(f: A -> int, a: seq<A>, b: seq<A>)
    requires multiset(a) == multiset(b)
    ensures multiset(Image(f, a)) == multiset(Image(f, b))
  {
    if a == [] {
      assert |multiset(b)| == |b|;
    } else {
      var k := DropFirst(a, b);
      ImageRearranged(f, a[1..], b[..k] + b[k + 1..]);
      assert Image(f, a) == [f(a[0])] + Image(f, a[1..]);
      assert Image(f, b) == Image(f, b[..k]) + [f(b[k])] + Image(f, b[k + 1..]);
      assert Image(f, b[..k] + b[k + 1..]) == Image(f, b[..k]) + Image(f, b[k + 1..]);
    }
  }

  lemma {:induction false} TotalConcat(a: seq<int>, b: seq<int>)
    ensures Total(a + b) == Total(a) + Total(b)
  {
    if a == [] {
      assert a + b == b;
    } else {
      TotalConcat(a[1..], b);
      assert (a + b)[1..] == a[1..] + b;
    }
  }

  lemma {:induction false} TotalRearranged(a: seq<int>, b: seq<int>)
    requires multiset(a) == multiset(b)
    ensures Total(a) == Total(b)
  {
    if a == [] {
      assert |multiset(b)| == |b|;
    } else {
      var k := DropFirst(a, b);
      TotalRearranged(a[1..], b[..k] + b[k + 1..]);
      TotalConcat(b[..k], b[k + 1..]);
      TotalConcat(b[..k], [b[k]] + b[k + 1..]);
      assert b == b[..k] + ([b[k]] + b[k + 1..]);
    }
  }

  lemma {:induction false} MagnitudesRearranged(a: seq<int>, b: seq<int>)
    requires multiset(a) == multiset(b)
    ensures multiset(Magnitudes(a)) == multiset(Magnitudes(b))
  {
    var f := (x: int) => if x < 0 then -x else x;
    ImageRearranged(f, a, b);
    assert Magnitudes(a) == Image(f, a) && Magnitudes(b) == Image(f, b);
  }

  // ----- Pairs the other way round -----

  function Flipped(pairs: seq<Pair>): (r: seq<Pair>)
    ensures |r| == |pairs| && forall i :: 0 <= i < |pairs| ==> r[i] == Pair(pairs[i].m, pairs[i].o)
  {
    seq(|pairs|, i requires 0 <= i < |pairs| => Pair(pairs[i].m, pairs[i].o))
  }

  lemma {:induction false} CountedOnce(pairs: seq<Pair>, p: Pair)
    requires OneToOne(pairs)
    ensures multiset(pairs)[p] == if p in pairs then 1 else 0
  {
    if pairs != [] {
      var n := |pairs| - 1;
      CountedOnce(pairs[..n], p);
      assert pairs == pairs[..n] + [pairs[n]];
    }
  }

  lemma {:induction false} SamePairs(a: seq<Pair>, b: seq<Pair>)
    requires OneToOne(a) && OneToOne(b) && forall p :: p in a <==> p in b
    ensures multiset(a) == multiset(b)
  {
    forall p ensures multiset(a)[p] == multiset(b)[p] {
      CountedOnce(a, p);
      CountedOnce(b, p);
    }
  }

  lemma {:induction false} FlippedIn(pairs: seq<Pair>, p: Pair)
    ensures p in Flipped(pairs) <==> Pair(p.m, p.o) in pairs
  {
    if k :| 0 <= k < |pairs| && pairs[k] == Pair(p.m, p.o) {
      assert Flipped(pairs)[k] == p;
    }
  }

  /** Joining the other way round finds the same pairs. */
  lemma {:induction false} JoinFlips(o: seq<Key>, m: seq<Key>)
    requires Distinct(o) && Distinct(m)
    ensures multiset(Flipped(Join(o, m, |o|))) == multiset(Join(m, o, |m|))
    ensures OneToOne(Flipped(Join(o, m, |o|)))
  {
    JoinOneToOne(o, m, |o|);
    JoinOneToOne(m, o, |m|);
    var there, back := Join(o, m, |o|), Join(m, o, |m|);
    forall p ensures p in Flipped(there) <==> p in back {
      FlippedIn(there, p);
      JoinExact(o, m, |o|, Pair(p.m, p.o));
      JoinExact(m, o, |m|, p);
    }
    SamePairs(Flipped(there), back);
  }

  lemma {:induction false} ErrorsRearranged(o: seq<Row>, m: seq<Row>, a: seq<Pair>, b: seq<Pair>)
    requires InRange(a, |o|, |m|) && InRange(b, |o|, |m|) && multiset(a) == multiset(b)
    ensures multiset(Errors(o, m, a)) == multiset(Errors(o, m, b))
  {
    var f := (p: Pair) => if p.o < |o| && p.m < |m| then m[p.m].lat - o[p.o].lat else 0;
    ImageRearranged(f, a, b);
    assert Errors(o, m, a) == Image(f, a) && Errors(o, m, b) == Image(f, b);
  }

  /** The errors of flipped pairs are the negated errors. */
  lemma {:induction false} ErrorsFlip(o: seq<Row>, m: seq<Row>, there: seq<Pair>, back: seq<Pair>)
    requires InRange(there, |o|, |m|) && InRange(back, |m|, |o|) && multiset(Flipped(there)) == multiset(back)
    ensures multiset(Errors(m, o, back)) == multiset(Negated(Errors(o, m, there)))
  {
    ErrorsRearranged(m, o, Flipped(there), back);
    assert Errors(m, o, Flipped(there)) == Negated(Errors(o, m, there));
  }

  /** The address filter keeps the same pairs either way round. */
  lemma {:induction false} ConsistentFlips(o: seq<Row>, m: seq<Row>, there: seq<Pair>, back: seq<Pair>)
    requires InRange(there, |o|, |m|) && InRange(back, |m|, |o|)
    requires OneToOne(there) && OneToOne(back) && multiset(Flipped(there)) == multiset(back)
    ensures multiset(Flipped(Consistent(o, m, there))) == multiset(Consistent(m, o, back))
    ensures |there| == |back| && |Consistent(o, m, there)| == |Consistent(m, o, back)|
  {
    var kept, kept' := Consistent(o, m, there), Consistent(m, o, back);
    ConsistentOneToOne(o, m, there);
    ConsistentOneToOne(m, o, back);
    forall p ensures p in Flipped(kept) <==> p in kept' {
      var q := Pair(p.m, p.o);
      FlippedIn(kept, p);
      FlippedIn(there, p);
      KeptExactly(o, m, there, q);
      KeptExactly(m, o, back, p);
      assert p in multiset(Flipped(there)) <==> p in multiset(back);
    }
    SamePairs(Flipped(kept), kept');
    assert |multiset(Flipped(there))| == |there| && |multiset(back)| == |back|;
    assert |multiset(Flipped(kept))| == |kept| && |multiset(kept')| == |kept'|;
  }

  lemma {:induction false} KeptExactly(o: seq<Row>, m: seq<Row>, pairs: seq<Pair>, p: Pair)
    requires InRange(pairs, |o|, |m|)
    ensures p in Consistent(o, m, pairs) <==> p in pairs && o[p.o].addr == m[p.m].addr
  {
    hide Consistent;
    if p in pairs {
      ConsistentIsFilter(o, m, pairs, p);
      assert p in multiset(Consistent(o, m, pairs)) <==> p in Consistent(o, m, pairs);
      assert p in multiset(pairs);
    }
  }

  lemma {:induction false} ConsistentOneToOne(o: seq<Row>, m: seq<Row>, pairs: seq<Pair>)
    requires InRange(pairs, |o|, |m|) && OneToOne(pairs)
    ensures OneToOne(Consistent(o, m, pairs))
  {
    if pairs != [] {
      ConsistentOneToOne(o, m, pairs[1..]);
      var rest := Consistent(o, m, pairs[1..]);
      forall i | 0 <= i < |rest| ensures rest[i].o != pairs[0].o && rest[i].m != pairs[0].m {
        var k :| 0 <= k < |pairs[1..]| && pairs[1..][k] == rest[i];
        assert pairs[k + 1] == rest[i];
      }
    }
  }

  // ----- Matches -----

  lemma {:induction false} LegacyFlips(o: seq<Row>, m: seq<Row>)
    ensures InRange(LegacyPairs(o, m), |o|, |m|) && InRange(LegacyPairs(m, o), |m|, |o|)
    ensures multiset(Errors(m, o, LegacyPairs(m, o))) == multiset(Negated(Errors(o, m, LegacyPairs(o, m))))
  {
    VisitsDistinct(o);
    VisitsDistinct(m);
    JoinFlips(Visits(o), Visits(m));
    LegacyInRange(o, m);
    LegacyInRange(m, o);
    ErrorsFlip(o, m, LegacyPairs(o, m), LegacyPairs(m, o));
  }

  lemma {:induction false} StableFlips(o: seq<Row>, m: seq<Row>, filter: bool)
    requires StableMatch(o, m, filter).Ok?
    ensures StableMatch(m, o, filter).Ok?
    ensures multiset(StableMatch(m, o, filter).value.dv) == multiset(Negated(StableMatch(o, m, filter).value.dv))
  {
    hide Consistent, Eligible, Join;
    var eo, em := Eligible(o), Eligible(m);
    JoinFlips(Identities(eo), Identities(em));
    StableInRange(o, m);
    StableInRange(m, o);
    StablePairsExact(o, m);
    StablePairsExact(m, o);
    ConsistentFlips(eo, em, StablePairs(o, m).value, StablePairs(m, o).value);
    ScoresOnlyConsistent(o, m, filter);
    ScoresOnlyConsistent(m, o, filter);
    ErrorsFlip(eo, em, Consistent(eo, em, StablePairs(o, m).value), Consistent(em, eo, StablePairs(m, o).value));
  }

  /** Exchanging the traces pairs the same reads and negates every error, in some order: the total magnitude
      stays and the total error changes its sign. */
  lemma {:induction false} SwapNegates(oracle: Trace, model: Trace, filter: bool)
    requires Match(oracle, model, filter).Ok?
    ensures Match(model, oracle, filter).Ok?
    ensures var dv, dv' := Match(oracle, model, filter).value.dv, Match(model, oracle, filter).value.dv;
            && multiset(dv') == multiset(Negated(dv)) && multiset(Magnitudes(dv')) == multiset(Magnitudes(dv))
            && Total(Magnitudes(dv')) == Total(Magnitudes(dv)) && Total(dv') == -Total(dv)
  {
    hide Errors, LegacyPairs, StableMatch, Eligible;
    if oracle.schema && model.schema && (0 < |Eligible(oracle.rows)| || 0 < |Eligible(model.rows)|) {
      StableFlips(oracle.rows, model.rows, filter);
    } else {
      LegacyFlips(oracle.rows, model.rows);
    }
    var dv, dv' := Match(oracle, model, filter).value.dv, Match(model, oracle, filter).value.dv;
    MagnitudesRearranged(dv', Negated(dv));
    TotalNegated(dv);
    TotalRearranged(dv', Negated(dv));
    TotalRearranged(Magnitudes(dv'), Magnitudes(dv));
  }

  /** The payloads of the two comparisons have the same unnormalised absolute error and opposite signed ones. */
  lemma {:induction false} SwapScores(oracle: Trace, model: Trace, filter: bool, p99: real, p99': real,
                                      scope: string, timebase: string, inputs: Option<string>, schema: int)
    requires Match(oracle, model, filter).Ok?
    ensures Match(model, oracle, filter).Ok? && Sound(Match(oracle, model, filter).value)
    ensures Sound(Match(model, oracle, filter).value)
    ensures var p := PayloadFromMatch(Match(oracle, model, filter).value, p99, scope, timebase, inputs, schema);
            var p' := PayloadFromMatch(Match(model, oracle, filter).value, p99', scope, timebase, inputs, schema);
            p.Ok? && p'.Ok? ==>
              && p'.value.mae * Scale(p'.value) == p.value.mae * Scale(p.value)
              && p'.value.sgn * Scale(p'.value) == -(p.value.sgn * Scale(p.value))
  {
    hide Match, PayloadFromMatch, Total, Magnitudes, Scale, Sound;
    SwapNegates(oracle, model, filter);
    MatchSound(oracle, model, filter);
    MatchSound(model, oracle, filter);
    var r, r' := Match(oracle, model, filter).value, Match(model, oracle, filter).value;
    if PayloadFromMatch(r, p99, scope, timebase, inputs, schema).Ok? {
      PayloadFigures(r, p99, scope, timebase, inputs, schema);
    }
    if PayloadFromMatch(r', p99', scope, timebase, inputs, schema).Ok? {
      PayloadFigures(r', p99', scope, timebase, inputs, schema);
    }
  }
}
