/** The Mess latency controller: a table from read percentages to measured bandwidth-latency curves,
    and a feedback loop that follows the chosen curve. Doubles are modelled as reals, except that a
    window that spans no cycles has unbounded bandwidth. */
module MessController {

  import RealFacts

  datatype Point = Point(bandwidth: real, latency: real)

  type Curve = seq<Point>

  /** What the loader accepts: strictly descending bandwidth from the first point, positive latency. */
  predicate CurveOk(c: Curve) {
    && |c| > 0
    && (forall i :: 0 <= i < |c| ==> 0.0 <= c[i].bandwidth && 0.0 < c[i].latency)
    && (forall i, j :: 0 <= i < j < |c| ==> c[j].bandwidth < c[i].bandwidth)
  }

  // ----- Nearest curve -----

  const MAX_PCT: int := 100

  function Distance(a: int, b: int): nat {
    if a <= b then b - a else a - b
  }

  /** Curve k is nearest to read percentage p; of two equally near the lower percentage wins. */
  predicate Nearest(pcts: seq<int>, p: int, k: int) {
    && 0 <= k < |pcts|
    && forall i :: 0 <= i < |pcts| ==>
         && Distance(pcts[k], p) <= Distance(pcts[i], p)
         && (Distance(pcts[k], p) == Distance(pcts[i], p) ==> pcts[k] <= pcts[i])
  }

  predicate PctsOk(pcts: seq<int>) {
    && |pcts| > 0
    && (forall i :: 0 <= i < |pcts| ==> 0 <= pcts[i] <= MAX_PCT)
    && (forall i, j :: 0 <= i < j < |pcts| ==> pcts[i] != pcts[j])
  }

  /** owner[p] is the curve measured at p, or -1. */
  predicate Owns(owner: seq<int>, pcts: seq<int>) {
    && |owner| == MAX_PCT + 1
    && (forall p :: 0 <= p <= MAX_PCT ==> -1 <= owner[p] < |pcts|)
    && (forall p :: 0 <= p <= MAX_PCT && 0 <= owner[p] ==> pcts[owner[p]] == p)
    && (forall i :: 0 <= i < |pcts| ==> 0 <= pcts[i] <= MAX_PCT && owner[pcts[i]] == i)
  }

  /** last is the nearest owned percentage in [lo, p], or -1 when there is none. */
  predicate LeftOf(owner: seq<int>, p: int, last: int) {
    && |owner| == MAX_PCT + 1 && p <= MAX_PCT && -1 <= last <= p
    && (0 <= last ==> 0 <= owner[last])
    && forall q :: last < q <= p ==> owner[q] < 0
  }

  predicate RightOf(owner: seq<int>, p: int, last: int) {
    && |owner| == MAX_PCT + 1 && 0 <= p
    && (last == -1 || (p <= last <= MAX_PCT && 0 <= owner[last]))
    && forall q :: p <= q <= MAX_PCT && (last == -1 || q < last) ==> owner[q] < 0
  }

  method Owners(pcts: seq<int>) returns (owner: seq<int>)
    requires PctsOk(pcts)
    ensures Owns(owner, pcts)
  {
    var a := new int[MAX_PCT + 1](_ => -1);
    for i := 0 to |pcts|
      invariant forall p :: 0 <= p <= MAX_PCT ==> -1 <= a[p] < i
      invariant forall p :: 0 <= p <= MAX_PCT && 0 <= a[p] ==> pcts[a[p]] == p
      invariant forall k :: 0 <= k < i ==> a[pcts[k]] == k
    {
      a[pcts[i]] := i;
    }
    owner := a[..];
  }

  method SweepLeft(owner: seq<int>) returns (left: seq<int>)
    requires |owner| == MAX_PCT + 1 && forall p :: 0 <= p <= MAX_PCT ==> -1 <= owner[p]
    ensures |left| == MAX_PCT + 1 && forall p :: 0 <= p <= MAX_PCT ==> LeftOf(owner, p, left[p])
  {
    var a := new int[MAX_PCT + 1](_ => -1);
    var last := -1;
    for p := 0 to MAX_PCT + 1
      invariant LeftOf(owner, p - 1, last)
      invariant forall q :: 0 <= q < p ==> LeftOf(owner, q, a[q])
    {
      if 0 <= owner[p] { last := p; }
      a[p] := last;
    }
    left := a[..];
  }

  method SweepRight(owner: seq<int>) returns (right: seq<int>)
    requires |owner| == MAX_PCT + 1 && forall p :: 0 <= p <= MAX_PCT ==> -1 <= owner[p]
    ensures |right| == MAX_PCT + 1 && forall p :: 0 <= p <= MAX_PCT ==> RightOf(owner, p, right[p])
  {
    var a := new int[MAX_PCT + 1](_ => -1);
    var last := -1;
    for p := MAX_PCT + 1 downto 0
      invariant RightOf(owner, p, last)
      invariant forall q :: p <= q <= MAX_PCT ==> RightOf(owner, q, a[q])
    {
      if 0 <= owner[p] { last := p; }
      a[p] := last;
    }
    right := a[..];
  }

  function Closer(p: int, left: int, right: int): int {
    if left < 0 then right else if right < 0 then left
    else if p - left <= right - p then left else right
  }

  /** The nearer of the two neighbours is nearest of all curves. */
  lemma {:induction false} CloserIsNearest(owner: seq<int>, pcts: seq<int>, p: int, left: int, right: int)
    requires PctsOk(pcts) && Owns(owner, pcts) && 0 <= p <= MAX_PCT
    requires LeftOf(owner, p, left) && RightOf(owner, p, right)
    ensures 0 <= Closer(p, left, right) <= MAX_PCT
    ensures Nearest(pcts, p, owner[Closer(p, left, right)])
  {
    assert owner[pcts[0]] == 0;
    var c := Closer(p, left, right);
    forall i | 0 <= i < |pcts|
      ensures Distance(c, p) <= Distance(pcts[i], p) && (Distance(c, p) == Distance(pcts[i], p) ==> c <= pcts[i])
    {
      assert owner[pcts[i]] == i;
      if pcts[i] <= p {
        assert pcts[i] <= left;
      } else {
        assert 0 <= right <= pcts[i];
      }
    }
  }

  /** The two sweeps give every read percentage its nearest curve. */
  method NearestCurves(pcts: seq<int>) returns (table: seq<int>)
    requires PctsOk(pcts)
    ensures |table| == MAX_PCT + 1 && forall p :: 0 <= p <= MAX_PCT ==> Nearest(pcts, p, table[p])
  {
    var owner := Owners(pcts);
    var left := SweepLeft(owner);
    var right := SweepRight(owner);
    var a := new int[MAX_PCT + 1](_ => 0);
    for p := 0 to MAX_PCT + 1
      invariant forall q :: 0 <= q < p ==> Nearest(pcts, q, a[q])
    {
      CloserIsNearest(owner, pcts, p, left[p], right[p]);
      a[p] := owner[Closer(p, left[p], right[p])];
    }
    table := a[..];
  }

  // ----- The feedback loop -----

  const SPEED: real := 0.05

  /** A window's bandwidth: unbounded when its accesses all fell on one cycle. */
  datatype Rate = Finite(value: real) | Unbounded

  function Blend(x: real, last: real): real {
    SPEED * x + (1.0 - SPEED) * last
  }

  /** The window asks for more than the curve's saturation point. */
  predicate Saturates(peak: real, rate: Rate, last: real) {
    rate.Unbounded? || peak * 0.99 < Blend(rate.value, last)
  }

  /** The next bandwidth estimate. */
  function NextEstimate(peak: real, rate: Rate, last: real): real {
    if Saturates(peak, rate, last) then Blend(peak, last) else Blend(rate.value, last)
  }

  /** Where a bandwidth falls on a curve of several points: between points j-1 and j, or past the
      last one. */
  predicate Brackets(c: Curve, x: real, j: int) {
    && 0 < j < |c| && x <= c[j - 1].bandwidth
    && (c[j].bandwidth < x || j == |c| - 1)
  }

  function Interpolate(c: Curve, x: real, j: int): real
    requires CurveOk(c) && 0 < j < |c|
  {
    c[j].latency + ((x - c[j].bandwidth) / (c[j - 1].bandwidth - c[j].bandwidth)) * (c[j - 1].latency - c[j].latency)
  }

  lemma {:induction false} Affine(t: real, a: real, b: real)
    requires 0.0 <= t <= 1.0
    ensures a <= b ==> a <= a + t * (b - a) <= b
    ensures b <= a ==> b <= a + t * (b - a) <= a
  {
    var d := b - a;
    if 0.0 <= d {
      RealFacts.Product(t, d);
      RealFacts.Product(1.0 - t, d);
    } else {
      RealFacts.Product(t, -d);
      RealFacts.Product(1.0 - t, -d);
    }
  }

  /** Above the curve's lowest bandwidth the latency lies between those of the two bracketing points. */
  lemma {:induction false} InterpolationBetween(c: Curve, x: real, j: int)
    requires CurveOk(c) && Brackets(c, x, j) && c[|c| - 1].bandwidth <= x
    ensures c[j].latency <= c[j - 1].latency ==> c[j].latency <= Interpolate(c, x, j) <= c[j - 1].latency
    ensures c[j - 1].latency <= c[j].latency ==> c[j - 1].latency <= Interpolate(c, x, j) <= c[j].latency
  {
    var d := c[j - 1].bandwidth - c[j].bandwidth;
    RealFacts.QuotientSign(x - c[j].bandwidth, d);
    RealFacts.QuotientBound(x - c[j].bandwidth, d, 1.0);
    Affine((x - c[j].bandwidth) / d, c[j].latency, c[j - 1].latency);
  }

  /** At a measured bandwidth the curve gives exactly the measured latency. */
  lemma {:induction false} InterpolationExact(c: Curve, k: int, j: int)
    requires CurveOk(c) && 0 <= k < |c| && Brackets(c, c[k].bandwidth, j)
    ensures Interpolate(c, c[k].bandwidth, j) == c[k].latency
  {
    var d := c[j - 1].bandwidth - c[j].bandwidth;
    RealFacts.QuotientOfItself(d);
  }

  /** Exactly one position brackets a bandwidth the curve can carry. */
  lemma {:induction false} BracketUnique(c: Curve, x: real, i: int, j: int)
    requires CurveOk(c) && Brackets(c, x, i) && Brackets(c, x, j)
    ensures i == j
  {
  }

  /** The bracket of a bandwidth, searched from point j on. */
  function Bracket(c: Curve, x: real, j: int): (r: int)
    requires 0 < j < |c|
    ensures j <= r < |c|
    decreases |c| - j
  {
    if j == |c| - 1 || c[j].bandwidth < x then j else Bracket(c, x, j + 1)
  }

  lemma {:induction false} BracketBrackets(c: Curve, x: real, j: int)
    requires 0 < j < |c| && x <= c[j - 1].bandwidth
    ensures Brackets(c, x, Bracket(c, x, j))
    decreases |c| - j
  {
    if j != |c| - 1 && x <= c[j].bandwidth {
      BracketBrackets(c, x, j + 1);
    }
  }

  /** Walk the curve from its peak down to the first point below x; the latency of the last point
      visited. A curve of several points never stops at its first. */
  method FindPoint(c: Curve, x: real) returns (j: int, latency: real)
    requires CurveOk(c) && x <= c[0].bandwidth
    ensures |c| == 1 ==> j == 0 && latency == c[0].latency
    ensures |c| > 1 ==> Brackets(c, x, j) && j == Bracket(c, x, 1)
  {
    j, latency := 0, 0.0;
    var bandwidth := 0.0;
    while j < |c|
      invariant 0 <= j <= |c| && (0 < j ==> x <= c[j - 1].bandwidth && latency == c[j - 1].latency)
    {
      if bandwidth == 0.0 {
        bandwidth, latency := c[j].bandwidth, c[j].latency;
      }
      if c[j].bandwidth < x { break; }
      bandwidth, latency := c[j].bandwidth, c[j].latency;
      j := j + 1;
    }
    if j == |c| { j := j - 1; }
    if |c| > 1 {
      BracketBrackets(c, x, 1);
      BracketUnique(c, x, j, Bracket(c, x, 1));
    }
  }

  /** The read share as a whole percentage, rounded half up. */
  function Percent(fraction: real): (p: int)
    ensures 0 <= p <= MAX_PCT
    ensures 0.0 <= fraction <= 1.0 ==> p as real - 0.5 <= 100.0 * fraction < p as real + 0.5
  {
    var p := (100.0 * fraction + 0.5).Floor;
    if p < 0 then 0 else if MAX_PCT < p then MAX_PCT else p
  }

  /** The latency a window earns before smoothing: past saturation the curve's worst, else the curve's
      own latency at the blended bandwidth; either inflated by the penalty. */
  function RawLatency(m: Model, rate: Rate, last: real, penalty: real): real
    requires CurveOk(m.curve)
  {
    if Saturates(m.peak, rate, last) then (1.0 + (penalty + 0.02)) * m.worst
    else var y := CurveLatency(m.curve, Blend(rate.value, last)); y + penalty * y
  }

  function CurveLatency(c: Curve, x: real): real
    requires CurveOk(c)
  {
    if |c| == 1 then c[0].latency else Interpolate(c, x, Bracket(c, x, 1))
  }

  function NextPenalty(saturates: bool, penalty: real): real {
    if saturates then penalty + 0.02 else if 0.01 < penalty then penalty - 0.01 else penalty
  }

  /** What the feedback loop carries from window to window. */
  datatype Estimates = Estimates(bandwidth: real, smoothed: real, overflow: real, latency: int)

  /** A loaded curve, with its peak bandwidth and greatest latency, and the lead-off of all curves. */
  datatype Model = Model(curve: Curve, peak: real, worst: real, leadOff: real)

  /** The estimates one window leads to. */
  function Step(m: Model, rate: Rate, e: Estimates): Estimates
    requires CurveOk(m.curve)
  {
    var smoothed := Blend(RawLatency(m, rate, e.bandwidth, e.overflow), e.smoothed);
    Estimates(NextEstimate(m.peak, rate, e.bandwidth), smoothed,
              NextPenalty(Saturates(m.peak, rate, e.bandwidth), e.overflow),
              if smoothed < m.leadOff then m.leadOff.Floor else smoothed.Floor)
  }

  /** A full window: its reads, its accesses and the cycles it spanned. */
  datatype Window = Window(loads: nat, accesses: nat, span: nat)

  /** The bandwidth of a window. */
  function WindowRate(w: Window): Rate {
    if w.span == 0 then Unbounded else Finite(w.accesses as real / w.span as real)
  }

  /** Every percentage has a curve. */
  predicate Usable(models: seq<Model>, table: seq<int>) {
    && |table| == MAX_PCT + 1 && (forall i :: 0 <= i < |models| ==> CurveOk(models[i].curve))
    && forall p :: 0 <= p <= MAX_PCT ==> 0 <= table[p] < |models|
  }

  /** The curve a window's read share selects. */
  function Chosen(models: seq<Model>, table: seq<int>, w: Window): (m: Model)
    requires Usable(models, table) && 0 < w.accesses
    ensures CurveOk(m.curve)
  {
    models[table[Percent(w.loads as real / w.accesses as real)]]
  }

  /** The estimates a window leads to. */
  function Measured(models: seq<Model>, table: seq<int>, w: Window, e: Estimates): Estimates
    requires Usable(models, table) && 0 < w.accesses
  {
    Step(Chosen(models, table, w), WindowRate(w), e)
  }

  predicate FullWindows(ws: seq<Window>) {
    forall i :: 0 <= i < |ws| ==> 0 < ws[i].accesses
  }

  /** The estimates a run of windows leads to. */
  function Replay(models: seq<Model>, table: seq<int>, ws: seq<Window>, e: Estimates): Estimates
    requires Usable(models, table) && FullWindows(ws)
  {
    if ws == [] then e
    else Measured(models, table, ws[|ws| - 1], Replay(models, table, ws[..|ws| - 1], e))
  }

  lemma {:induction false} ReplayAppend(models: seq<Model>, table: seq<int>, ws: seq<Window>, w: Window, e: Estimates)
    requires Usable(models, table) && FullWindows(ws) && 0 < w.accesses
    ensures FullWindows(ws + [w])
    ensures Replay(models, table, ws + [w], e) == Measured(models, table, w, Replay(models, table, ws, e))
  {
    assert (ws + [w])[..|ws|] == ws;
  }

  function Unsigned(x: int): nat {
    x % 0x1_0000_0000_0000_0000
  }

  // ----- Steady load -----

  /** An error after n windows, each closing the fixed fraction of it. */
  function Decayed(n: nat, error: real): real {
    if n == 0 then error else (1.0 - SPEED) * Decayed(n - 1, error)
  }

  /** The estimate after a run of windows at one rate, each served by a curve of the given peak. */
  function Settle(peaks: seq<real>, rate: real, last: real): real {
    if peaks == [] then last
    else NextEstimate(peaks[|peaks| - 1], Finite(rate), Settle(peaks[..|peaks| - 1], rate, last))
  }

  predicate Below(peaks: seq<real>, x: real) {
    forall i :: 0 <= i < |peaks| ==> x <= peaks[i] * 0.99
  }

  lemma {:induction false} BlendBounds(x: real, last: real, bound: real)
    requires x <= bound && last <= bound
    ensures Blend(x, last) <= bound
  {
  }

  /** The estimate stays below any bound on the load and its start, so the last window cannot saturate. */
  lemma {:induction false} SettleBounded(peaks: seq<real>, rate: real, last: real, bound: real)
    requires Below(peaks, rate) && Below(peaks, last) && rate <= bound && last <= bound
    ensures Settle(peaks, rate, last) <= bound
    ensures peaks != [] ==> !Saturates(peaks[|peaks| - 1], Finite(rate), Settle(peaks[..|peaks| - 1], rate, last))
  {
    if peaks != [] {
      var n := |peaks| - 1;
      var limit := peaks[n] * 0.99;
      SettleBounded(peaks[..n], rate, last, limit);
      BlendBounds(rate, Settle(peaks[..n], rate, last), limit);
      SettleBounded(peaks[..n], rate, last, bound);
      BlendBounds(rate, Settle(peaks[..n], rate, last), bound);
    }
  }

  lemma {:induction false} SettleStep(peaks: seq<real>, rate: real, last: real)
    requires Below(peaks, rate) && Below(peaks, last) && peaks != []
    ensures Settle(peaks, rate, last) == Blend(rate, Settle(peaks[..|peaks| - 1], rate, last))
  {
    SettleBounded(peaks, rate, last, if rate < last then last else rate);
  }

  /** Below every saturation point the estimate closes a fixed fraction of its error each window. */
  lemma {:induction false} SettleConverges(peaks: seq<real>, rate: real, last: real)
    requires Below(peaks, rate) && Below(peaks, last)
    ensures Settle(peaks, rate, last) - rate == Decayed(|peaks|, last - rate)
  {
    if peaks != [] {
      var n := |peaks| - 1;
      SettleConverges(peaks[..n], rate, last);
      SettleStep(peaks, rate, last);
    }
  }

  /** Below every saturation point the estimate closes a fixed fraction of its error each window and
      no window enters the penalty branch, whatever curves the read mix selects. */
  lemma {:induction false} SteadyLoadConverges(peaks: seq<real>, rate: real, last: real)
    requires Below(peaks, rate) && Below(peaks, last)
    ensures Settle(peaks, rate, last) - rate == Decayed(|peaks|, last - rate)
    ensures forall i :: 0 <= i < |peaks| ==> !Saturates(peaks[i], Finite(rate), Settle(peaks[..i], rate, last))
  {
    SettleConverges(peaks, rate, last);
    forall i | 0 <= i < |peaks| ensures !Saturates(peaks[i], Finite(rate), Settle(peaks[..i], rate, last)) {
      assert peaks[..i + 1][..i] == peaks[..i];
      SettleBounded(peaks[..i + 1], rate, last, if rate < last then last else rate);
    }
  }

  /** The peaks of the curves a run of windows selects. */
  function Peaks(models: seq<Model>, table: seq<int>, ws: seq<Window>): (r: seq<real>)
    requires Usable(models, table) && FullWindows(ws)
    ensures |r| == |ws| && forall i :: 0 <= i < |ws| ==> r[i] == Chosen(models, table, ws[i]).peak
  {
    seq(|ws|, i requires 0 <= i < |ws| => Chosen(models, table, ws[i]).peak)
  }

  /** In a run of windows at one rate below saturation the estimated bandwidth converges to that rate
      and the overflow penalty never grows. */
  lemma {:induction false} SteadyRunConverges(models: seq<Model>, table: seq<int>, ws: seq<Window>, e: Estimates,
                                              rate: real)
    requires Usable(models, table) && FullWindows(ws)
    requires forall i :: 0 <= i < |ws| ==> WindowRate(ws[i]) == Finite(rate)
    requires Below(Peaks(models, table, ws), rate) && Below(Peaks(models, table, ws), e.bandwidth)
    ensures Replay(models, table, ws, e).bandwidth == Settle(Peaks(models, table, ws), rate, e.bandwidth)
    ensures Replay(models, table, ws, e).bandwidth - rate == Decayed(|ws|, e.bandwidth - rate)
    ensures Replay(models, table, ws, e).overflow <= e.overflow
  {
    hide RawLatency, CurveLatency, Blend, Saturates, Decayed, Usable, WindowRate, Chosen, Percent;
    var peaks := Peaks(models, table, ws);
    SettleConverges(peaks, rate, e.bandwidth);
    if ws != [] {
      var n := |ws| - 1;
      assert Peaks(models, table, ws[..n]) == peaks[..n];
      SteadyRunConverges(models, table, ws[..n], e, rate);
      SettleBounded(peaks, rate, e.bandwidth, if rate < e.bandwidth then e.bandwidth else rate);
    }
  }

  /** At a measured bandwidth the whole curve gives the measured latency. */
  lemma {:induction false} CurveLatencyExact(c: Curve, k: int)
    requires CurveOk(c) && 0 <= k < |c|
    ensures CurveLatency(c, c[k].bandwidth) == c[k].latency
  {
    if |c| > 1 {
      assert k > 0 ==> c[k].bandwidth < c[0].bandwidth;
      BracketBrackets(c, c[k].bandwidth, 1);
      InterpolationExact(c, k, Bracket(c, c[k].bandwidth, 1));
    }
  }

  /** Every window selects the same curve. */
  predicate AllSelect(models: seq<Model>, table: seq<int>, ws: seq<Window>, m: Model)
    requires Usable(models, table) && FullWindows(ws)
  {
    forall i :: 0 <= i < |ws| ==> Chosen(models, table, ws[i]) == m
  }

  /** A window at the estimated rate, below saturation, moves the smoothed latency a fixed fraction of the
      way to the curve's, inflated by a penalty too small to be paid off. */
  lemma {:induction false} SettledStep(m: Model, rate: real, e: Estimates)
    requires CurveOk(m.curve) && rate <= m.peak * 0.99 && e.bandwidth == rate && e.overflow <= 0.01
    ensures var e', target := Step(m, Finite(rate), e), (1.0 + e.overflow) * CurveLatency(m.curve, rate);
            && e'.bandwidth == rate && e'.overflow == e.overflow
            && e'.smoothed - target == (1.0 - SPEED) * (e.smoothed - target)
  {
    hide CurveLatency;
    assert Blend(rate, rate) == rate;
  }

  /** Under a settled load the smoothed latency converges to the curve's latency at that load: to the
      measured one, where the load was measured. */
  lemma {:induction false} SteadyLatencyConverges(models: seq<Model>, table: seq<int>, ws: seq<Window>, e: Estimates,
                                                  m: Model, rate: real)
    requires Usable(models, table) && FullWindows(ws) && CurveOk(m.curve) && AllSelect(models, table, ws, m)
    requires forall i :: 0 <= i < |ws| ==> WindowRate(ws[i]) == Finite(rate)
    requires rate <= m.peak * 0.99 && e.bandwidth == rate && e.overflow <= 0.01
    ensures var e', target := Replay(models, table, ws, e), (1.0 + e.overflow) * CurveLatency(m.curve, rate);
            && e'.bandwidth == rate && e'.overflow == e.overflow
            && e'.smoothed - target == Decayed(|ws|, e.smoothed - target)
    ensures forall k :: 0 <= k < |m.curve| && m.curve[k].bandwidth == rate ==>
              CurveLatency(m.curve, rate) == m.curve[k].latency
  {
    hide CurveLatency, Step, Usable, WindowRate, Chosen;
    if ws != [] {
      var n := |ws| - 1;
      SteadyLatencyConverges(models, table, ws[..n], e, m, rate);
      SettledStep(m, rate, Replay(models, table, ws[..n], e));
    }
    forall k | 0 <= k < |m.curve| && m.curve[k].bandwidth == rate
      ensures CurveLatency(m.curve, rate) == m.curve[k].latency
    {
      CurveLatencyExact(m.curve, k);
    }
  }

  /** Below every saturation point each window pays back a fixed part of the penalty, down to a last
      hundredth that stays. */
  lemma {:induction false} SteadyPenaltyDrains(models: seq<Model>, table: seq<int>, ws: seq<Window>, e: Estimates,
                                               rate: real)
    requires Usable(models, table) && FullWindows(ws) && 0.0 <= e.overflow
    requires forall i :: 0 <= i < |ws| ==> WindowRate(ws[i]) == Finite(rate)
    requires Below(Peaks(models, table, ws), rate) && Below(Peaks(models, table, ws), e.bandwidth)
    ensures var left := Replay(models, table, ws, e).overflow;
            && 0.0 <= left
            && (0.01 * |ws| as real < e.overflow ==> left == e.overflow - 0.01 * |ws| as real)
            && (e.overflow <= 0.01 * (|ws| + 1) as real ==> left <= 0.01)
  {
    hide RawLatency, CurveLatency, Blend, Saturates, Usable, WindowRate, Chosen, Percent;
    if ws != [] {
      var n, peaks := |ws| - 1, Peaks(models, table, ws);
      assert Peaks(models, table, ws[..n]) == peaks[..n];
      SteadyPenaltyDrains(models, table, ws[..n], e, rate);
      SteadyRunConverges(models, table, ws[..n], e, rate);
      SettleBounded(peaks, rate, e.bandwidth, if rate < e.bandwidth then e.bandwidth else rate);
    }
  }

  /** The window alone asks for more than the saturation point. */
  predicate Overloads(peak: real, rate: Rate) {
    rate.Unbounded? || peak * 0.99 < rate.value
  }

  /** A window past saturation, once the estimate is there: a larger penalty, and a step towards the
      curve's worst latency inflated by it. */
  lemma {:induction false} OverloadStep(m: Model, rate: Rate, e: Estimates)
    requires CurveOk(m.curve) && 0.0 <= m.peak && Overloads(m.peak, rate) && m.peak * 0.99 <= e.bandwidth
    ensures var e' := Step(m, rate, e);
            && e'.overflow == e.overflow + 0.02 && m.peak * 0.99 <= e'.bandwidth
            && e'.bandwidth - m.peak == (1.0 - SPEED) * (e.bandwidth - m.peak)
            && e'.smoothed - (1.0 + e'.overflow) * m.worst
               == (1.0 - SPEED) * (e.smoothed - (1.0 + e'.overflow) * m.worst)
  {
    hide CurveLatency;
  }

  /** A sustained overload settles the estimate at the peak and raises the penalty in every window. */
  lemma {:induction false} OverloadGrows(models: seq<Model>, table: seq<int>, ws: seq<Window>, e: Estimates, m: Model)
    requires Usable(models, table) && FullWindows(ws) && CurveOk(m.curve) && AllSelect(models, table, ws, m)
    requires forall i :: 0 <= i < |ws| ==> Overloads(m.peak, WindowRate(ws[i]))
    requires 0.0 <= m.peak && m.peak * 0.99 <= e.bandwidth
    ensures var e' := Replay(models, table, ws, e);
            && e'.overflow == e.overflow + 0.02 * |ws| as real && m.peak * 0.99 <= e'.bandwidth
            && e'.bandwidth - m.peak == Decayed(|ws|, e.bandwidth - m.peak)
            && (ws != [] ==> e'.smoothed - (1.0 + e'.overflow) * m.worst
                             == (1.0 - SPEED) * (Replay(models, table, ws[..|ws| - 1], e).smoothed
                                                 - (1.0 + e'.overflow) * m.worst))
  {
    hide Step, Usable, WindowRate, Chosen, Overloads;
    if ws != [] {
      var n := |ws| - 1;
      OverloadGrows(models, table, ws[..n], e, m);
      OverloadStep(m, WindowRate(ws[n]), Replay(models, table, ws[..n], e));
    }
  }

  /** A window's rate over its span is its accesses. */
  lemma {:induction false} RateCounts(w: Window)
    ensures WindowRate(w).Unbounded? <==> w.span == 0
    ensures 0 < w.span ==> WindowRate(w).value * w.span as real == w.accesses as real
  {
  }

  // ----- The controller -----

  /** The curve's latency at x, and whether it came from the first point. */
  method OnCurve(c: Curve, x: real) returns (y: real, first: bool)
    requires CurveOk(c) && x <= c[0].bandwidth
    ensures y == CurveLatency(c, x) && (first <==> |c| == 1)
  {
    var j;
    j, y := FindPoint(c, x);
    if j != 0 { y := Interpolate(c, x, j); }
    first := j == 0;
  }

  predicate Worst(c: Curve, worst: real) {
    (forall i :: 0 <= i < |c| ==> c[i].latency <= worst) && exists i :: 0 <= i < |c| && worst == c[i].latency
  }

  /** The lead-off latency belongs to some curve, unless it is the loader's starting bound. */
  predicate Attained(curves: seq<Curve>, leadOff: real) {
    leadOff == 100000.0 || exists i, k :: 0 <= i < |curves| && 0 <= k < |curves[i]| && leadOff == curves[i][k].latency
  }

  predicate ModelOk(m: Model) {
    && CurveOk(m.curve) && m.peak == m.curve[0].bandwidth && 0.0 < m.leadOff
    && Worst(m.curve, m.worst) && forall i :: 0 <= i < |m.curve| ==> m.leadOff <= m.curve[i].latency
  }

  /** What every run keeps. */
  predicate Bounded(e: Estimates, maxBandwidth: real, leadOff: real) {
    0.0 <= e.bandwidth <= maxBandwidth && 0.0 <= e.overflow && leadOff.Floor <= e.latency
  }

  lemma {:induction false} StepBounded(m: Model, rate: Rate, e: Estimates, maxBandwidth: real)
    requires ModelOk(m) && m.peak <= maxBandwidth && Bounded(e, maxBandwidth, m.leadOff)
    requires rate.Finite? ==> 0.0 <= rate.value
    ensures Bounded(Step(m, rate, e), maxBandwidth, m.leadOff)
  {
  }

  /** Peak and worst latency of one curve, folding its least latency into the lead-off. */
  method Summarise(c: Curve, leadOff: real) returns (peak: real, worst: real, least: real)
    requires CurveOk(c) && 0.0 < leadOff
    ensures peak == c[0].bandwidth && 0.0 < least <= leadOff
    ensures Worst(c, worst) && forall i :: 0 <= i < |c| ==> least <= c[i].latency
    ensures least == leadOff || exists i :: 0 <= i < |c| && least == c[i].latency
  {
    peak, worst, least := 0.0, 0.0, leadOff;
    for i := 0 to |c|
      invariant 0.0 < least <= leadOff && (least == leadOff || exists k :: 0 <= k < |c| && least == c[k].latency)
      invariant i == 0 ==> peak == 0.0 && worst == 0.0
      invariant 0 < i ==> peak == c[0].bandwidth && exists k :: 0 <= k < |c| && worst == c[k].latency
      invariant forall k :: 0 <= k < i ==> least <= c[k].latency <= worst
    {
      if c[i].latency < least { least := c[i].latency; }
      if worst < c[i].latency { worst := c[i].latency; }
      if peak < c[i].bandwidth { peak := c[i].bandwidth; }
    }
  }

  class Controller {
    const windowSize: nat
    const models: seq<Model>
    const pcts: seq<int>
    const table: seq<int>
    const leadOff: real
    const maxBandwidth: real
    var count: nat
    var writeCount: nat
    var readCount: nat
    var windowStart: int
    var estimate: real           // last estimated bandwidth
    var smoothed: real           // last estimated latency
    var latency: int
    var overflow: real
    ghost var windows: seq<Window>   // every full window so far

    /** The loaded curves and their nearest-curve table; fixed after construction. */
    ghost predicate Loaded() {
      && |models| == |pcts| && |table| == MAX_PCT + 1
      && (forall i :: 0 <= i < |models| ==>
            ModelOk(models[i]) && models[i].peak <= maxBandwidth && models[i].leadOff == leadOff)
      && (forall p :: 0 <= p <= MAX_PCT ==> Nearest(pcts, p, table[p])) && Usable(models, table)
    }

    function Now(): Estimates
      reads this`estimate, this`smoothed, this`overflow, this`latency
    {
      Estimates(estimate, smoothed, overflow, latency)
    }

    ghost predicate Valid()
      reads this
    {
      && Loaded() && Bounded(Now(), maxBandwidth, leadOff)
      && count == readCount + writeCount && (0 < windowSize ==> count < windowSize)
      && Replayed()
    }

    ghost const first: Estimates := Estimates(0.0, leadOff, 0.0, leadOff.Floor)

    /** The estimates are those of all full windows so far, from the start. */
    ghost predicate Replayed()
      reads this`windows, this`estimate, this`smoothed, this`overflow, this`latency
      requires Loaded()
    {
      FullWindows(windows) && Now() == Replay(models, table, windows, first)
    }

    constructor (pcts: seq<int>, curves: seq<Curve>, windowSize: nat)
      requires PctsOk(pcts) && |curves| == |pcts| && forall i :: 0 <= i < |curves| ==> CurveOk(curves[i])
      ensures Valid() && this.pcts == pcts && this.windowSize == windowSize && count == 0 && windows == []
      ensures |models| == |curves| && forall i :: 0 <= i < |curves| ==> models[i].curve == curves[i]
      ensures Attained(curves, leadOff)
      ensures maxBandwidth == 0.0 || exists i :: 0 <= i < |models| && maxBandwidth == models[i].peak
    {
      var peaks: seq<real>, worsts: seq<real>, least, top := [], [], 100000.0, 0.0;
      for i := 0 to |curves|
        invariant |peaks| == |worsts| == i && 0.0 < least && 0.0 <= top
        invariant Attained(curves, least) && (top == 0.0 || top in peaks)
        invariant forall k :: 0 <= k < i ==> peaks[k] == curves[k][0].bandwidth && peaks[k] <= top
        invariant forall k :: 0 <= k < i ==> Worst(curves[k], worsts[k])
        invariant forall k, n :: 0 <= k < i && 0 <= n < |curves[k]| ==> least <= curves[k][n].latency
      {
        var peak, worst, l := Summarise(curves[i], least);
        peaks, worsts, least := peaks + [peak], worsts + [worst], l;
        if top < peak { top := peak; }
      }
      var table := NearestCurves(pcts);
      this.windowSize, this.pcts, this.table := windowSize, pcts, table;
      models := seq(|curves|, i requires 0 <= i < |curves| => Model(curves[i], peaks[i], worsts[i], least));
      leadOff, maxBandwidth, smoothed, latency := least, top, least, least.Floor;
      estimate, overflow, count, writeCount, readCount, windowStart, windows := 0.0, 0.0, 0, 0, 0, 0, [];
    }

    /** Raw latency for the window just ended, with the overflow penalty and the penalty's own update. */
    method Follow(m: Model, rate: Rate) returns (raw: real)
      requires ModelOk(m) && 0.0 <= overflow
      modifies this`overflow
      ensures overflow == NextPenalty(Saturates(m.peak, rate, estimate), old(overflow))
      ensures raw == RawLatency(m, rate, estimate, old(overflow))
    {
      if Saturates(m.peak, rate, estimate) {
        overflow := overflow + 0.02;
        raw := (1.0 + overflow) * m.worst;
      } else {
        var y, first := OnCurve(m.curve, Blend(rate.value, estimate));
        raw := y + overflow * y;
        if 0.01 < overflow { overflow := overflow - 0.01; }
        if first { overflow := if overflow < 0.0 then 0.0 else overflow; }
      }
    }

    /** Feed one window's measurement back into the estimates. */
    method Search(m: Model, rate: Rate)
      requires ModelOk(m) && 0.0 <= overflow
      modifies this`overflow, this`estimate, this`smoothed, this`latency
      ensures Now() == Step(m, rate, old(Now()))
    {
      var raw := Follow(m, rate);
      estimate := NextEstimate(m.peak, rate, estimate);
      smoothed := Blend(raw, smoothed);
      latency := if smoothed < m.leadOff then m.leadOff.Floor else smoothed.Floor;
    }

    /** Close a full window: feed its measurement back and clear the counts. */
    method EndWindow(span: nat)
      requires Loaded() && Bounded(Now(), maxBandwidth, leadOff) && 0 < count == readCount + writeCount && Replayed()
      modifies this`count, this`writeCount, this`readCount, this`windows
      modifies this`overflow, this`estimate, this`smoothed, this`latency
      ensures Bounded(Now(), maxBandwidth, leadOff) && count == readCount == writeCount == 0 && Replayed()
      ensures windows == old(windows) + [Window(old(readCount), old(count), span)]
    {
      hide Replay;
      ghost var w := Window(readCount, count, span);
      var p := Percent(readCount as real / (readCount + writeCount) as real);
      assert Nearest(pcts, p, table[p]);
      var m := models[table[p]];
      var rate := WindowRate(Window(readCount, count, span));
      RealFacts.QuotientSign(count as real, if span == 0 then 1.0 else span as real);
      StepBounded(m, rate, Now(), maxBandwidth);
      assert m == Chosen(models, table, w);
      ReplayAppend(models, table, windows, w, first);
      Search(m, rate);
      windows := windows + [w];
      count, writeCount, readCount := 0, 0, 0;
    }

    /** Record one access; a full window updates the latency it and later accesses see. The window's span
        is the source's unsigned 64-bit difference. */
    method Access(cycle: int, isWrite: bool) returns (r: int)
      requires Valid()
      modifies this`count, this`writeCount, this`readCount, this`windowStart, this`windows
      modifies this`overflow, this`estimate, this`smoothed, this`latency
      ensures Valid() && r == latency && leadOff.Floor <= r
      ensures windowStart == if old(count) == 0 then cycle else old(windowStart)
      ensures old(count) + 1 != windowSize ==>
                && count == old(count) + 1 && readCount == old(readCount) + (if isWrite then 0 else 1)
                && windows == old(windows) && Now() == old(Now())
      ensures old(count) + 1 == windowSize ==>
                && count == 0
                && windows == old(windows) + [Window(old(readCount) + (if isWrite then 0 else 1), windowSize,
                                                     Unsigned(cycle - windowStart))]
    {
      hide Replay, WindowRate;
      if count == 0 { windowStart := cycle; }
      count := count + 1;
      if isWrite { writeCount := writeCount + 1; } else { readCount := readCount + 1; }
      if count == windowSize {
        EndWindow(Unsigned(cycle - windowStart));
      }
      r := latency;
    }
  }
}
