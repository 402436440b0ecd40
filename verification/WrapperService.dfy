/** The wrapper's service loop as it runs: tick events, boundary synchronisation and admission,
    in event-driven or polling mode. */
module WrapperService {
  import opened Basics
  import opened WrapperClock

  /** The edges from `from` on that have passed by `now`. */
  lemma {:induction false} EdgesElapsed(from: int, now: int, period: nat)
    requires from <= now && 0 < period
    ensures var e := (now - from) / period + 1;
            1 <= e && from + Span(e - 1, period) <= now < from + Span(e, period)
  {
    var q := (now - from) / period;
    SpanIsProduct(q, period);
    assert now - from == q * period + (now - from) % period;
  }

  lemma {:induction false} SpanOrder(a: nat, b: nat, period: nat)
    requires a <= b
    ensures Span(b, period) == Span(a, period) + Span(b - a, period)
  {
    SpanAdds(a, b - a, period);
  }

  lemma {:induction false} CountdownShift<S(!new)>(c: Controller<S>, s: S, k: nat, period: nat)
    requires Honest(c) && c.idle(s).Covers(k)
    ensures c.skip(s, k) == c.Ticks(s, k) && c.idle(c.skip(s, k)) == c.idle(s).Minus(k)
    ensures c.idle(s).Cycles? ==> Span(c.idle(s).n, period) == Span(k, period) + Span(c.idle(s).n - k, period)
  {
    TicksCountDown(c, s, k);
    if c.idle(s).Cycles? {
      SpanOrder(k, c.idle(s).n, period);
    }
  }

  lemma {:induction false} RetryIgnoresEdge<S>(c: Controller<S>, r: Ref<S>, i: nat, at: int, edge: int)
    requires WellFormed(r) && i <= |r.retry|
    ensures RetryPorts(c, r.(edge := edge), i, at) == RetryPorts(c, r, i, at).(edge := edge)
    decreases |r.retry| - i
  {
    if i < |r.retry| {
      if !r.retry[i] {
        RetryIgnoresEdge(c, r, i + 1, at, edge);
      } else {
        RetryIgnoresEdge(c, Offer(c, r.(retry := r.retry[i := false]), i, r.blocked[i], at), i + 1, at, edge);
      }
    }
  }

  class ServiceWrapper<S(!new)> {
    const c: Controller<S>
    const eventDriven: bool
    const period: nat
    const firstEdge: int

    var now: int            // curTick
    var nextTick: int       // next controller cycle not yet ticked or skipped
    var ctrl: S
    var retry: seq<bool>
    var blocked: seq<int>
    var trace: seq<Event<S>>
    var scheduled: bool     // tickEvent
    var when: int
    var inService: bool
    ghost var cycles: nat   // controller cycles ticked or skipped so far

    /** The wrapper as a reference state that has processed the edges before nextTick. */
    ghost function A(): Ref<S>
      reads this
    {
      Ref(ctrl, nextTick, retry, blocked, trace)
    }

    /** When the idle countdown ends, if it does. */
    ghost function Due(): int
      reads this
    {
      if c.idle(ctrl).Cycles? then nextTick + Span(c.idle(ctrl).n, period) else nextTick
    }

    ghost predicate DueAt(w: int)
      reads this
    {
      c.idle(ctrl).Cycles? && w == Due()
    }

    /** Everything but the service event: no edge is missed, none is run twice. */
    ghost predicate Core()
      reads this
    {
      && Honest(c) && 0 < period && WellFormed(A()) && Settled(c, A(), |retry|) && !inService
      && nextTick == firstEdge + Span(cycles, period)
    }

    /** The service event is pending exactly when the next non-idle cycle is. */
    ghost predicate EventSet()
      reads this
    {
      if !eventDriven then scheduled && when == nextTick
      else if c.idle(ctrl).Forever? then !scheduled
      else scheduled && DueAt(when)
    }

    ghost predicate Valid()
      reads this
    {
      Core() && EventSet() && (scheduled ==> now <= when)
    }

    /** startup: the first service event. */
    constructor (c: Controller<S>, init: S, ports: nat, period: nat, eventDriven: bool, now: int, first: int)
      requires Honest(c) && 0 < period && now <= first
      ensures this.c == c && this.period == period && this.eventDriven == eventDriven
      ensures Valid() && this.now == now
      ensures A() == Ref(init, first, seq(ports, _ => false), seq(ports, _ => 0), [])
    {
      this.c, this.period, this.eventDriven, this.firstEdge := c, period, eventDriven, first;
      this.now, nextTick, ctrl, trace := now, first, init, [];
      retry, blocked := seq(ports, _ => false), seq(ports, _ => 0);
      inService, cycles := false, 0;
      scheduled := !eventDriven || c.idle(init).Cycles?;
      when := if eventDriven && c.idle(init).Cycles? then first + Span(c.idle(init).n, period) else first;
    }

    /** Skip the certified-idle cycles whose edges have passed. */
    method SkipIdleCycles()
      requires Core()
      modifies this`ctrl, this`nextTick, this`cycles
      ensures Core() && CatchUp(c, A(), period, now) == CatchUp(c, old(A()), period, now)
      ensures !eventDriven || now < old(nextTick) ==> A() == old(A())
      ensures c.idle(ctrl).Cycles? == old(c.idle(ctrl).Cycles?) && (c.idle(ctrl).Cycles? ==> Due() == old(Due()))
      ensures eventDriven ==> now < nextTick || c.idle(ctrl) == Cycles(0)
    {
      if !eventDriven || now < nextTick { return; }
      var elapsed := (now - nextTick) / period + 1;
      EdgesElapsed(nextTick, now, period);
      var idle := c.idle(ctrl);
      var k: nat := if idle.Forever? then elapsed else Min(elapsed, idle.n);
      SkipCycles(k, elapsed);
    }

    method SkipCycles(k: nat, elapsed: nat)
      requires Core() && k <= elapsed && c.idle(ctrl).Covers(k)
      requires 1 <= elapsed && nextTick + Span(elapsed - 1, period) <= now < nextTick + Span(elapsed, period)
      modifies this`ctrl, this`nextTick, this`cycles
      ensures Core() && CatchUp(c, A(), period, now) == CatchUp(c, old(A()), period, now)
      ensures c.idle(ctrl).Cycles? ==> Due() == old(Due())
      ensures c.idle(ctrl) == old(c.idle(ctrl)).Minus(k)
      ensures k == elapsed ==> now < nextTick
    {
      hide Settled, CatchUp;
      if 0 < k {
        ghost var r := A();
        SpanOrder(k - 1, elapsed - 1, period);
        SkipIsCatchUp(c, r, period, k, now);
        CountdownShift(c, ctrl, k, period);
        JumpTo(k);
      }
    }

    method JumpTo(k: nat)
      requires nextTick == firstEdge + Span(cycles, period) && c.skip(ctrl, k) == c.Ticks(ctrl, k)
      modifies this`ctrl, this`nextTick, this`cycles
      ensures nextTick == firstEdge + Span(cycles, period)
      ensures A() == Skipped(c, old(A()), period, k)
    {
      SpanAdds(cycles, k, period);
      SpanIsProduct(k, period);
      ctrl := c.skip(ctrl, k);
      nextTick := nextTick + k * period;
      cycles := cycles + k;
    }

    /** One admission attempt: allocate, offer to the memory system, and note a rejection. */
    method OfferRequest(port: nat, req: int) returns (accepted: bool)
      requires WellFormed(A()) && port < |retry|
      modifies this`ctrl, this`retry, this`blocked, this`trace
      ensures A() == Offer(c, old(A()), port, req, now)
      ensures accepted == !c.Rejects(old(ctrl), req)
    {
      var answer := c.admit(ctrl, req);
      accepted := answer.Accepted?;
      if accepted {
        trace := trace + [Admitted(now, req, ctrl)] + (if answer.completed then [Completed(now, req)] else []);
        ctrl := answer.state;
      } else {
        retry, blocked := retry[port := true], blocked[port := req];
      }
    }

    /** Offer every waiting port's request again, in port order. Called inside a service, so the
        synchronous admissions neither synchronise nor schedule. */
    method SendRetries()
      requires WellFormed(A()) && inService
      modifies this`ctrl, this`retry, this`blocked, this`trace
      ensures A() == RetryPorts(c, old(A()), 0, now)
    {
      for i := 0 to |retry|
        invariant WellFormed(A()) && |retry| == |old(retry)|
        invariant RetryPorts(c, A(), i, now) == RetryPorts(c, old(A()), 0, now)
      {
        if retry[i] {
          retry := retry[i := false];
          var _ := OfferRequest(i, blocked[i]);
        }
      }
    }

    /** Arm, move or cancel the service event. The service time is never in the past. */
    method ScheduleService()
      requires Core() && eventDriven && now < nextTick
      modifies this`scheduled, this`when
      ensures Valid()
    {
      var idle := c.idle(ctrl);
      if idle.Forever? {
        scheduled := false;
        return;
      }
      var at := nextTick + Span(idle.n, period);
      assert now <= at;
      scheduled, when := true, at;
    }

    /** Run one controller cycle at `now`, deliver its completions and retries, and re-arm. */
    method Tick()
      requires Core() && !scheduled && (if eventDriven then DueAt(now) else now == nextTick)
      modifies this
      ensures Valid() && now == old(now) && now < nextTick && !inService
      ensures A() == CatchUp(c, old(A()), period, now)
    {
      hide Honest, Settled, RetryPorts, CatchUp, Step;
      SkipIdleCycles();
      if eventDriven {
        NotBeforeDue();
      }
      assert nextTick == now;
      ghost var r := A();
      LastEdge(c, r, period);
      nextTick, cycles := now + period, cycles + 1;
      inService := true;
      RunCycle(r);
      inService := false;
      StepKeepsBlocked(c, r, period);
      Rearm();
    }

    method Rearm()
      requires Core() && nextTick == now + period
      modifies this`scheduled, this`when
      ensures Valid()
    {
      if eventDriven {
        ScheduleService();
      } else {
        scheduled, when := true, now + period;
      }
    }

    /** If the countdown ends at `now`, the next edge is not after it. */
    lemma {:induction false} NotBeforeDue()
      requires 0 < period && DueAt(now) && (now < nextTick || c.idle(ctrl) == Cycles(0))
      ensures nextTick == now
    {
    }

    method RunCycle(ghost r: Ref<S>)
      requires WellFormed(r) && inService && 0 < period && r.edge == now && A() == r.(edge := now + period)
      modifies this`ctrl, this`retry, this`blocked, this`trace
      ensures A() == Step(c, r, period)
    {
      var (s, done) := c.tick(ctrl);
      ctrl := s;
      for i := 0 to |done|
        invariant A() == r.(edge := now + period, ctrl := s, trace := trace)
        invariant r.trace + Completions(now, done) == trace + Completions(now, done[i..])
      {
        trace := trace + [Completed(now, done[i])];
      }
      assert done[|done|..] == [];
      ghost var t := r.(ctrl := s, trace := r.trace + Completions(now, done));
      assert A() == t.(edge := now + period);
      RetryIgnoresEdge(c, t, 0, now, now + period);
      SendRetries();
    }

    /** Finish every edge up to `now` before a request is admitted. Neither panic can fire: the
        next edge is exactly `now`, and a pending service event is due exactly now. */
    method SynchronizeClock()
      requires Valid()
      modifies this
      ensures Valid() && now == old(now) && now < nextTick
      ensures A() == CatchUp(c, old(A()), period, now)
    {
      if now < nextTick { return; }
      ghost var w := when;
      SkipIdleCycles();
      if eventDriven && scheduled {
        assert DueAt(w);
        LateDue(w);
      }
      if nextTick <= now {
        assert nextTick == now;                // "missed a service edge"
        assert scheduled && when == now;       // "boundary service timestamp differs"
        scheduled := false;
        Tick();
      }
    }

    /** A service due no earlier than now leaves no edge before now after skipping. */
    lemma {:induction false} LateDue(w: int)
      requires 0 < period && DueAt(w) && now <= w && (now < nextTick || c.idle(ctrl) == Cycles(0))
      ensures now <= nextTick && (nextTick == now && c.idle(ctrl) == Cycles(0) ==> w == now)
    {
    }

    /** A timing request at a port. */
    method ReceiveRequest(a: Arrival) returns (accepted: bool)
      requires Valid() && a.port < |retry| && a.at == now
      modifies this
      ensures Valid() && now == old(now) && now < nextTick
      ensures A() == Receive(c, CatchUp(c, old(A()), period, now), a)
    {
      hide Honest;
      SynchronizeClock();
      if retry[a.port] {
        trace := trace + [Refused(now, a.req)];
        return false;
      }
      OfferKeepsBlocked(c, A(), a.port, a.req, now, |retry|);
      accepted := OfferRequest(a.port, a.req);
      if !accepted {
        trace := trace + [Refused(now, a.req)];
      }
      assert Core();
      if eventDriven {
        ScheduleService();
      }
    }

    /** The event queue runs every service event due before time t (or at t, unless `early`). */
    method RunTo(t: int, early: bool)
      requires Valid() && now <= t
      modifies this
      ensures Valid() && now == t && |retry| == |old(retry)|
      ensures CatchUp(c, A(), period, t) == CatchUp(c, old(A()), period, t)
      ensures !early && scheduled ==> t < when
    {
      ghost var r := A();
      while scheduled && (when < t || (when == t && !early))
        invariant Valid() && now <= t && CatchUp(c, A(), period, t) == CatchUp(c, r, period, t) && |retry| == |r.retry|
        decreases if scheduled then t - when + 1 else 0
      {
        ghost var before := A();
        now := when;
        scheduled := false;
        Tick();
        CatchUpTwice(c, before, period, now, t);
        if scheduled {
          NotEarlier();
        }
      }
      now := t;
    }

    /** A pending service is not before the next edge. */
    lemma {:induction false} NotEarlier()
      requires 0 < period && EventSet() && scheduled
      ensures nextTick <= when
    {
    }

    /** Deliver arrivals in time order. */
    method Deliver(arrivals: seq<Arrival>)
      requires Valid() && PortsKnown(arrivals, |retry|)
      requires forall i :: 0 <= i < |arrivals| ==> now <= arrivals[i].at
      requires forall i, j :: 0 <= i < j < |arrivals| ==> arrivals[i].at <= arrivals[j].at
      modifies this
      ensures Valid() && (arrivals != [] ==> now == arrivals[|arrivals| - 1].at) && now >= old(now)
      ensures arrivals == [] ==> A() == old(A()) && now == old(now)
      ensures A() == Reference(c, old(A()), period, arrivals)
    {
      ghost var r := A();
      for i := 0 to |arrivals|
        invariant Valid() && |retry| == |r.retry|
        invariant now == if i == 0 then old(now) else arrivals[i - 1].at
        invariant A() == Reference(c, r, period, arrivals[..i])
      {
        var a := arrivals[i];
        assert arrivals[..i + 1][..i] == arrivals[..i];
        RunTo(a.at, a.early);
        var _ := ReceiveRequest(a);
      }
      assert arrivals[..|arrivals|] == arrivals;
    }

    /** Run the remaining services up to time t: everything observable up to t has been observed. */
    method Finish(t: int)
      requires Valid() && now <= t
      modifies this
      ensures Valid() && now == t
      ensures trace == CatchUp(c, old(A()), period, t).trace
    {
      hide Honest, StillBlocked;
      RunTo(t, false);
      if nextTick <= t {
        EdgesElapsed(nextTick, t, period);
        ghost var k: nat := (t - nextTick) / period + 1;
        if c.idle(ctrl).Cycles? && c.idle(ctrl).n < k {
          SpanOrder(c.idle(ctrl).n, k - 1, period);
          assert false;
        }
        SkipIsCatchUp(c, A(), period, k, t);
      }
    }
  }

  /** Whatever arrives and whenever, the event-driven wrapper and the clock-edge-first polling wrapper
      produce the same history: the same requests accepted in the same controller states, the same
      arrivals refused, and every completion at the same time. */
  method EventDrivenMatchesPolling<S(!new)>(c: Controller<S>, init: S, ports: nat, period: nat, start: int, first: int,
                                            arrivals: seq<Arrival>, horizon: int)
    returns (event: seq<Event<S>>, polling: seq<Event<S>>)
    requires Honest(c) && 0 < period && start <= first && PortsKnown(arrivals, ports)
    requires forall i :: 0 <= i < |arrivals| ==> start <= arrivals[i].at <= horizon
    requires forall i, j :: 0 <= i < j < |arrivals| ==> arrivals[i].at <= arrivals[j].at
    requires start <= horizon
    ensures event == polling
    ensures var r := Ref(init, first, seq(ports, _ => false), seq(ports, _ => 0), []);
            event == CatchUp(c, Reference(c, r, period, arrivals), period, horizon).trace
  {
    var e := new ServiceWrapper(c, init, ports, period, true, start, first);
    e.Deliver(arrivals);
    e.Finish(horizon);
    event := e.trace;
    var p := new ServiceWrapper(c, init, ports, period, false, start, first);
    p.Deliver(arrivals);
    p.Finish(horizon);
    polling := p.trace;
  }
}
