/** Choosing a candidate by two co-equal error measures: keep the incumbent unless a later candidate
    Pareto-dominates it. */
module CandidateSelection {

  import opened Basics

  /** A measured objective; NotNumber stands for a missing, boolean, infinite or undefined figure. */
  datatype Figure = Number(value: real) | NotNumber

  datatype Candidate = Candidate(name: string, proposal: string, cycleError: Figure, requestError: Figure)

  datatype Objectives = Objectives(cycle: real, request: real)

  predicate Scored(c: Candidate) {
    c.cycleError.Number? && c.requestError.Number? && 0.0 <= c.cycleError.value && 0.0 <= c.requestError.value
  }

  function ObjectivesOf(c: Candidate): Result<Objectives> {
    if Scored(c) then Ok(Objectives(c.cycleError.value, c.requestError.value)) else Err("invalid objective")
  }

  /** No worse on either measure and better on one. */
  predicate Dominates(a: Objectives, b: Objectives) {
    a.cycle <= b.cycle && a.request <= b.request && (a.cycle < b.cycle || a.request < b.request)
  }

  predicate Beats(a: Candidate, b: Candidate) {
    Scored(a) && Scored(b) && Dominates(ObjectivesOf(a).value, ObjectivesOf(b).value)
  }

  lemma {:induction false} BeatsOrder(a: Candidate, b: Candidate, c: Candidate)
    ensures !Beats(a, a)
    ensures Beats(a, b) && Beats(b, c) ==> Beats(a, c)
  {
  }

  datatype Comparison = Comparison(incumbent: nat, challenger: nat, dominates: bool)

  /** The recorded comparisons are the run: each challenger in turn meets the last one that won. */
  predicate Recorded(results: seq<Candidate>, log: seq<Comparison>, winner: nat) {
    && |log| < |results|
    && (forall i :: 0 <= i < |log| ==> log[i].challenger == i + 1 && log[i].incumbent <= i
                                       && log[i].dominates == Beats(results[i + 1], results[log[i].incumbent]))
    && (forall i :: 0 <= i < |log| ==> Next(log, i) == if i + 1 < |log| then log[i + 1].incumbent else winner)
    && (if |log| == 0 then winner == 0 else log[0].incumbent == 0)
  }

  function Next(log: seq<Comparison>, i: nat): nat
    requires i < |log|
  {
    if log[i].dominates then log[i].challenger else log[i].incumbent
  }

  lemma {:induction false} RecordedStep(results: seq<Candidate>, log: seq<Comparison>, w: nat)
    requires Recorded(results, log, w) && w <= |log| && |log| + 1 < |results|
    ensures var c := Comparison(w, |log| + 1, Beats(results[|log| + 1], results[w]));
            Recorded(results, log + [c], if c.dominates then c.challenger else c.incumbent)
  {
    var c := Comparison(w, |log| + 1, Beats(results[|log| + 1], results[w]));
    var log', w' := log + [c], if c.dominates then c.challenger else c.incumbent;
    forall i | 0 <= i < |log'| ensures Next(log', i) == if i + 1 < |log'| then log'[i + 1].incumbent else w' {
      if i < |log| {
        assert log'[i] == log[i] && Next(log, i) == Next(log', i);
      }
    }
    assert log'[0].incumbent == 0;
  }

  datatype Selection = Selection(winner: nat, log: seq<Comparison>)

  /** One pass over the candidates. No candidate of the whole list dominates the winner, even one turned
      down against an earlier incumbent, and the winner is the first candidate or dominates it. The pass
      fails exactly on an empty list or an invalid figure. */
  method Select(results: seq<Candidate>) returns (r: Result<Selection>)
    ensures r.Ok? <==> results != [] && forall i :: 0 <= i < |results| ==> Scored(results[i])
    ensures r.Ok? ==>
              && r.value.winner < |results|
              && (forall i :: 0 <= i < |results| ==> !Beats(results[i], results[r.value.winner]))
              && (r.value.winner == 0 || Beats(results[r.value.winner], results[0]))
              && |r.value.log| == |results| - 1 && Recorded(results, r.value.log, r.value.winner)
  {
    if results == [] { return Err("cannot select from an empty candidate set"); }
    var w: nat := 0;
    var log: seq<Comparison> := [];
    for n := 1 to |results|
      invariant w < n && |log| == n - 1 && Recorded(results, log, w)
      invariant forall i :: 0 <= i < n && 1 < n ==> Scored(results[i])
      invariant forall i :: 0 <= i < n ==> !Beats(results[i], results[w])
      invariant w == 0 || Beats(results[w], results[0])
    {
      var incumbent, challenger := ObjectivesOf(results[w]), ObjectivesOf(results[n]);
      if incumbent.Err? { return Err(incumbent.fault); }
      if challenger.Err? { return Err(challenger.fault); }
      var dominates := Dominates(challenger.value, incumbent.value);
      RecordedStep(results, log, w);
      log := log + [Comparison(w, n, dominates)];
      if dominates {
        forall i | 0 <= i <= n ensures !Beats(results[i], results[n]) {
          BeatsOrder(results[i], results[n], results[w]);
        }
        if w != 0 { BeatsOrder(results[n], results[w], results[0]); }
        w := n;
      }
    }
    if ObjectivesOf(results[w]).Err? { return Err(ObjectivesOf(results[w]).fault); }
    r := Ok(Selection(w, log));
  }
}
