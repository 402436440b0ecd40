/** The wrapper's clock: an event-driven service that skips certified-idle DRAM cycles, and the
    clock-edge-first polling it stands in for. Both are proved against one reference that ticks
    every edge: the same requests are admitted in the same controller states, the same arrivals are
    refused, and everything completes at the same times. Polling also repeats retries in vain on idle
    edges; those calls leave no event here. */
module WrapperClock {

  /** How long the memory system promises to do nothing. */
  datatype Idle = Cycles(n: nat) | Forever {
    predicate Covers(k: nat) {
      Forever? || k <= n
    }

    function Minus(k: nat): Idle
      requires Covers(k)
    {
      if Forever? then Forever else Cycles(n - k)
    }
  }

  /** The answer to an offered request; an accepted one may complete inside its own admission. */
  datatype Admission<S> = Rejected | Accepted(state: S, completed: bool)

  /** The memory system behind the wrapper. A rejection returns no state: it changes nothing. */
  datatype Controller<!S> = Controller(
    tick: S -> (S, seq<int>),     // one cycle, and the requests it completes
    idle: S -> Idle,              // idle_ticks
    skip: (S, nat) -> S,          // fast_forward
    admit: (S, int) -> Admission<S>
  )
  {
    predicate Rejects(s: S, q: int) {
      admit(s, q).Rejected?
    }

    function Ticks(s: S, k: nat): S {
      if k == 0 then s else Ticks(tick(s).0, k - 1)
    }

    ghost predicate Quiet(s: S) {
      && tick(s).1 == []
      && idle(s).Covers(1) && idle(tick(s).0) == idle(s).Minus(1)
      && forall q: int :: Rejects(s, q) == Rejects(tick(s).0, q)
    }

    /** Admitting p makes no room for a request rejected before it. */
    ghost predicate MakesNoRoom(s: S, p: int) {
      Rejects(s, p) || forall q: int :: Rejects(s, q) ==> Rejects(admit(s, p).state, q)
    }

    ghost predicate StaysCalm(s: S, p: int) {
      Rejects(s, p) || !idle(admit(s, p).state).Covers(1) || (idle(s).Covers(1) && MakesNoRoom(s, p))
    }
  }

  /** An idle count is an exact countdown of cycles that complete nothing and do not change which
      requests are accepted, and fast-forwarding within it equals ticking. */
  ghost predicate CountsDown<S(!new)>(c: Controller<S>) {
    && (forall s: S {:trigger c.Quiet(s)} :: c.idle(s).Covers(1) ==> c.Quiet(s))
    && (forall s: S, k: nat {:trigger c.skip(s, k)} :: c.idle(s).Covers(k) ==> c.skip(s, k) == c.Ticks(s, k))
  }

  /** Admissions never make room for a rejected request. */
  ghost predicate NeverMakesRoom<S(!new)>(c: Controller<S>) {
    forall s: S, p: int {:trigger c.MakesNoRoom(s, p)} :: c.MakesNoRoom(s, p)
  }

  /** An admission that leaves the controller idle was made to an idle one and makes no room; one that
      makes room leaves work behind, so the next edge is run and not skipped. */
  ghost predicate MakesNoIdleRoom<S(!new)>(c: Controller<S>) {
    forall s: S, p: int {:trigger c.StaysCalm(s, p)} :: c.StaysCalm(s, p)
  }

  /** What the memory system guarantees: exact countdowns, and that no idle state has room for a request
      rejected earlier, for either reason. The last cannot be dropped (see RoomMatters). */
  ghost predicate Honest<S(!new)>(c: Controller<S>) {
    CountsDown(c) && (NeverMakesRoom(c) || MakesNoIdleRoom(c))
  }

  /** What a requester can observe, with the controller state each accepted request met. */
  datatype Event<S> =
    | Admitted(at: int, req: int, met: S)
    | Refused(at: int, req: int)
    | Completed(at: int, req: int)

  function Completions<S>(at: int, reqs: seq<int>): seq<Event<S>> {
    if reqs == [] then [] else [Completed(at, reqs[0])] + Completions(at, reqs[1..])
  }

  /** A request reaching a port; `early` if it runs before a service event of the same tick. */
  datatype Arrival = Arrival(at: int, port: nat, req: int, early: bool)

  // ----- The reference: every edge is ticked -----

  datatype Ref<S> = Ref(
    ctrl: S,
    edge: int,           // first DRAM edge not yet processed
    retry: seq<bool>,    // ports owed a retry
    blocked: seq<int>,   // the request each such port will send again
    trace: seq<Event<S>>
  )

  ghost predicate WellFormed<S>(r: Ref<S>) {
    |r.retry| == |r.blocked|
  }

  ghost function Offer<S>(c: Controller<S>, r: Ref<S>, port: nat, req: int, at: int): (o: Ref<S>)
    requires WellFormed(r) && port < |r.retry|
    ensures WellFormed(o) && |o.retry| == |r.retry| && o.edge == r.edge
  {
    match c.admit(r.ctrl, req)
    case Rejected => r.(retry := r.retry[port := true], blocked := r.blocked[port := req])
    case Accepted(s, completed) =>
      r.(ctrl := s, trace := r.trace + [Admitted(at, req, r.ctrl)] + (if completed then [Completed(at, req)] else []))
  }

  /** Ports i.. that are owed a retry send their blocked request again, in port order. */
  ghost function RetryPorts<S>(c: Controller<S>, r: Ref<S>, i: nat, at: int): (o: Ref<S>)
    requires WellFormed(r) && i <= |r.retry|
    ensures WellFormed(o) && |o.retry| == |r.retry| && o.edge == r.edge
    decreases |r.retry| - i
  {
    if i == |r.retry| then r
    else if !r.retry[i] then RetryPorts(c, r, i + 1, at)
    else RetryPorts(c, Offer(c, r.(retry := r.retry[i := false]), i, r.blocked[i], at), i + 1, at)
  }

  ghost function Step<S>(c: Controller<S>, r: Ref<S>, period: nat): (o: Ref<S>)
    requires WellFormed(r)
    ensures WellFormed(o) && |o.retry| == |r.retry| && o.edge == r.edge + period
  {
    var (s, done) := c.tick(r.ctrl);
    var t := r.(ctrl := s, trace := r.trace + Completions(r.edge, done));
    RetryPorts(c, t, 0, r.edge).(edge := r.edge + period)
  }

  /** Process every edge up to and including time t. */
  ghost function CatchUp<S>(c: Controller<S>, r: Ref<S>, period: nat, t: int): (o: Ref<S>)
    requires WellFormed(r) && 0 < period
    ensures WellFormed(o) && |o.retry| == |r.retry| && t < o.edge
    decreases t - r.edge
  {
    if t < r.edge then r else CatchUp(c, Step(c, r, period), period, t)
  }

  /** A request arriving at a port, all edges up to then processed. */
  ghost function Receive<S>(c: Controller<S>, r: Ref<S>, a: Arrival): (o: Ref<S>)
    requires WellFormed(r) && a.port < |r.retry|
    ensures WellFormed(o) && |o.retry| == |r.retry|
  {
    if r.retry[a.port] then r.(trace := r.trace + [Refused(a.at, a.req)])
    else
      var o := Offer(c, r, a.port, a.req, a.at);
      if c.Rejects(r.ctrl, a.req) then o.(trace := o.trace + [Refused(a.at, a.req)]) else o
  }

  predicate PortsKnown(arrivals: seq<Arrival>, ports: nat) {
    forall i :: 0 <= i < |arrivals| ==> arrivals[i].port < ports
  }

  ghost function Reference<S>(c: Controller<S>, r: Ref<S>, period: nat, arrivals: seq<Arrival>): (o: Ref<S>)
    requires WellFormed(r) && 0 < period && PortsKnown(arrivals, |r.retry|)
    ensures WellFormed(o) && |o.retry| == |r.retry|
  {
    if arrivals == [] then r
    else
      var last := arrivals[|arrivals| - 1];
      Receive(c, CatchUp(c, Reference(c, r, period, arrivals[..|arrivals| - 1]), period, last.at), last)
  }

  // ----- Why idle cycles can be skipped -----

  /** Every blocked request would be rejected again now. */
  ghost predicate StillBlocked<S>(c: Controller<S>, r: Ref<S>, n: nat)
    requires WellFormed(r) && n <= |r.retry|
  {
    forall i :: 0 <= i < n && r.retry[i] ==> c.Rejects(r.ctrl, r.blocked[i])
  }

  /** The same of every state whose next edge may be skipped. */
  ghost predicate Settled<S(!new)>(c: Controller<S>, r: Ref<S>, n: nat)
    requires WellFormed(r) && n <= |r.retry|
  {
    NeverMakesRoom(c) || c.idle(r.ctrl).Covers(1) ==> StillBlocked(c, r, n)
  }

  lemma {:induction false} OfferKeepsBlocked<S(!new)>(c: Controller<S>, r: Ref<S>, port: nat, req: int, at: int, n: nat)
    requires Honest(c) && WellFormed(r) && port < |r.retry| && n <= |r.retry| && Settled(c, r, n)
    ensures Settled(c, Offer(c, r, port, req, at), n)
  {
    if NeverMakesRoom(c) {
      assert c.MakesNoRoom(r.ctrl, req);
    } else {
      assert c.StaysCalm(r.ctrl, req);
    }
  }

  /** After the retries, every port still waiting was rejected in a state with no less room. */
  lemma {:induction false} RetriesLeaveBlocked<S(!new)>(c: Controller<S>, r: Ref<S>, i: nat, at: int)
    requires Honest(c) && WellFormed(r) && i <= |r.retry| && Settled(c, r, i)
    ensures var o := RetryPorts(c, r, i, at); Settled(c, o, |o.retry|)
    decreases |r.retry| - i
  {
    if i < |r.retry| {
      if !r.retry[i] {
        RetriesLeaveBlocked(c, r, i + 1, at);
      } else {
        var r' := r.(retry := r.retry[i := false]);
        OfferKeepsBlocked(c, r', i, r.blocked[i], at, i);
        RetriesLeaveBlocked(c, Offer(c, r', i, r.blocked[i], at), i + 1, at);
      }
    }
  }

  lemma {:induction false} StepKeepsBlocked<S(!new)>(c: Controller<S>, r: Ref<S>, period: nat)
    requires Honest(c) && WellFormed(r)
    ensures var o := Step(c, r, period); Settled(c, o, |o.retry|)
  {
    var (s, done) := c.tick(r.ctrl);
    RetriesLeaveBlocked(c, r.(ctrl := s, trace := r.trace + Completions(r.edge, done)), 0, r.edge);
  }

  lemma {:induction false} RetriesInVain<S>(c: Controller<S>, r: Ref<S>, i: nat, at: int)
    requires WellFormed(r) && i <= |r.retry| && StillBlocked(c, r, |r.retry|)
    ensures RetryPorts(c, r, i, at) == r
    decreases |r.retry| - i
  {
    if i < |r.retry| {
      if r.retry[i] {
        assert Offer(c, r.(retry := r.retry[i := false]), i, r.blocked[i], at) == r;
      }
      RetriesInVain(c, r, i + 1, at);
    }
  }

  /** An idle cycle changes the controller's countdown and nothing a requester can see. */
  lemma {:induction false} QuietStep<S(!new)>(c: Controller<S>, r: Ref<S>, period: nat)
    requires Honest(c) && WellFormed(r) && c.idle(r.ctrl).Covers(1) && StillBlocked(c, r, |r.retry|)
    ensures Step(c, r, period) == r.(ctrl := c.tick(r.ctrl).0, edge := r.edge + period)
    ensures var o := Step(c, r, period); StillBlocked(c, o, |o.retry|)
  {
    var s := c.tick(r.ctrl).0;
    assert c.Quiet(r.ctrl);
    var t := r.(ctrl := s, trace := r.trace + Completions(r.edge, []));
    assert t.trace == r.trace;
    RetriesInVain(c, t, 0, r.edge);
  }

  ghost function Skipped<S>(c: Controller<S>, r: Ref<S>, period: nat, k: nat): Ref<S> {
    r.(ctrl := c.Ticks(r.ctrl, k), edge := r.edge + Span(k, period))
  }

  /** The length of k DRAM cycles. */
  function Span(k: nat, period: nat): nat {
    if k == 0 then 0 else period + Span(k - 1, period)
  }

  lemma {:induction false} SpanIsProduct(k: nat, period: nat)
    ensures Span(k, period) == k * period
    decreases k
  {
    if 0 < k {
      SpanIsProduct(k - 1, period);
    }
  }

  lemma {:induction false} SpanAdds(j: nat, k: nat, period: nat)
    ensures Span(j + k, period) == Span(j, period) + Span(k, period)
    decreases k
  {
    if 0 < k {
      SpanAdds(j, k - 1, period);
    }
  }

  lemma {:induction false} TicksCountDown<S(!new)>(c: Controller<S>, s: S, k: nat)
    requires Honest(c) && c.idle(s).Covers(k)
    ensures c.idle(c.Ticks(s, k)) == c.idle(s).Minus(k)
    decreases k
  {
    if 0 < k {
      assert c.Quiet(s);
      TicksCountDown(c, c.tick(s).0, k - 1);
    }
  }

  /** Skipping k certified-idle edges that have all passed is the same as ticking them. */
  lemma {:induction false} SkipIsCatchUp<S(!new)>(c: Controller<S>, r: Ref<S>, period: nat, k: nat, t: int)
    requires Honest(c) && WellFormed(r) && 0 < period && c.idle(r.ctrl).Covers(k)
    requires Settled(c, r, |r.retry|) && (0 < k ==> r.edge + Span(k - 1, period) <= t)
    ensures CatchUp(c, Skipped(c, r, period, k), period, t) == CatchUp(c, r, period, t)
    ensures Settled(c, Skipped(c, r, period, k), |r.retry|)
    decreases k
  {
    if k == 0 {
      assert Skipped(c, r, period, 0) == r;
    } else {
      QuietStep(c, r, period);
      assert c.Quiet(r.ctrl);
      var next := Step(c, r, period);
      SkipIsCatchUp(c, next, period, k - 1, t);
      assert Skipped(c, next, period, k - 1) == Skipped(c, r, period, k);
    }
  }

  lemma {:induction false} LastEdge<S>(c: Controller<S>, r: Ref<S>, period: nat)
    requires WellFormed(r) && 0 < period
    ensures CatchUp(c, r, period, r.edge) == Step(c, r, period)
  {
  }

  lemma {:induction false} CatchUpTwice<S>(c: Controller<S>, r: Ref<S>, period: nat, t: int, u: int)
    requires WellFormed(r) && 0 < period && t <= u
    ensures CatchUp(c, CatchUp(c, r, period, t), period, u) == CatchUp(c, r, period, u)
    decreases t - r.edge
  {
    if r.edge <= t {
      CatchUpTwice(c, Step(c, r, period), period, t, u);
    }
  }

  // ----- Why admissions must make no room -----

  /** A controller that counts down honestly, but whose request 2 makes room for request 1. */
  datatype Room = Room(free: bool, left: nat)

  ghost const ROOMY: Controller<Room> := Controller(
    (s: Room) => (Room(s.free, if s.left == 0 then 0 else s.left - 1), []),
    (s: Room) => Cycles(s.left),
    (s: Room, k: nat) => Room(s.free, if k <= s.left then s.left - k else 0),
    (s: Room, q: int) => if q == 1 && !s.free then Rejected else Accepted(Room(s.free || q == 2, s.left), false))

  lemma {:induction false} RoomyTicks(s: Room, k: nat)
    requires k <= s.left
    ensures ROOMY.Ticks(s, k) == Room(s.free, s.left - k)
    decreases k
  {
    if 0 < k {
      RoomyTicks(ROOMY.tick(s).0, k - 1);
    }
  }

  lemma {:induction false} RoomyCountsDown()
    ensures CountsDown(ROOMY)
  {
    forall s: Room, k: nat | ROOMY.idle(s).Covers(k) ensures ROOMY.skip(s, k) == ROOMY.Ticks(s, k) {
      RoomyTicks(s, k);
    }
  }

  ghost const ROOMY_START: Ref<Room> := Ref(Room(false, 1), 1, [false, false], [0, 0], [])
  const TWO_ARRIVALS: seq<Arrival> := [Arrival(0, 0, 1, true), Arrival(0, 1, 2, true)]

  /** Port 0's request is rejected; port 1's is accepted and makes room for it. */
  lemma {:induction false} RoomyArrivals()
    ensures Reference(ROOMY, ROOMY_START, 1, TWO_ARRIVALS)
            == Ref(Room(true, 1), 1, [true, false], [1, 0], [Refused(0, 1), Admitted(0, 2, Room(false, 1))])
  {
    var first := TWO_ARRIVALS[..1];
    assert first == [TWO_ARRIVALS[0]] && first[..0] == [];
    assert Reference(ROOMY, ROOMY_START, 1, []) == ROOMY_START;
    assert Reference(ROOMY, ROOMY_START, 1, first) == Ref(Room(false, 1), 1, [true, false], [1, 0], [Refused(0, 1)]);
  }

  /** Exact countdowns alone do not make idle edges invisible: after two arrivals the edge that the
      event-driven service would skip admits the retry, so skipping it changes the history. */
  lemma {:induction false} RoomMatters()
    ensures CountsDown(ROOMY)
    ensures var r := Reference(ROOMY, ROOMY_START, 1, TWO_ARRIVALS);
            && ROOMY.idle(r.ctrl).Covers(1)
            && CatchUp(ROOMY, Skipped(ROOMY, r, 1, 1), 1, r.edge).trace != CatchUp(ROOMY, r, 1, r.edge).trace
  {
    hide Reference, CountsDown, Step;
    RoomyCountsDown();
    RoomyArrivals();
    var r := Reference(ROOMY, ROOMY_START, 1, TWO_ARRIVALS);
    var next := Step(ROOMY, r, 1);
    RoomyStep(r);
    assert CatchUp(ROOMY, r, 1, 1) == CatchUp(ROOMY, next, 1, 1) == next;
    assert Span(1, 1) == 1;
    assert CatchUp(ROOMY, Skipped(ROOMY, r, 1, 1), 1, 1) == Skipped(ROOMY, r, 1, 1);
  }

  lemma {:induction false} RoomyStep(r: Ref<Room>)
    requires r.ctrl == Room(true, 1) && r.retry == [true, false] && r.blocked == [1, 0]
    ensures Step(ROOMY, r, 1).trace == r.trace + [Admitted(r.edge, 1, Room(true, 0))]
  {
    var t := r.(ctrl := Room(true, 0), trace := r.trace + Completions(r.edge, []));
    assert t.trace == r.trace;
    var u := Offer(ROOMY, t.(retry := [false, false]), 0, 1, r.edge);
    assert RetryPorts(ROOMY, u, 2, r.edge) == u;
    assert RetryPorts(ROOMY, u, 1, r.edge) == u;
    assert t.retry[0 := false] == [false, false];
    assert RetryPorts(ROOMY, t, 0, r.edge) == u;
  }

  /** The same, except that request 2 leaves work behind. */
  ghost const BUSY: Controller<Room> := ROOMY.(
    admit := (s: Room, q: int) =>
      if q == 1 && !s.free then Rejected
      else if q == 2 then Accepted(Room(true, 0), false) else Accepted(s, false))

  lemma {:induction false} BusyTicks(s: Room, k: nat)
    requires k <= s.left
    ensures BUSY.Ticks(s, k) == Room(s.free, s.left - k)
    decreases k
  {
    if 0 < k {
      BusyTicks(BUSY.tick(s).0, k - 1);
    }
  }

  /** Making room is allowed when it leaves work behind: such a controller meets the contract. */
  lemma {:induction false} BusyRoomIsHonest()
    ensures Honest(BUSY) && !NeverMakesRoom(BUSY)
  {
    forall s: Room, k: nat | BUSY.idle(s).Covers(k) ensures BUSY.skip(s, k) == BUSY.Ticks(s, k) {
      BusyTicks(s, k);
    }
    assert !BUSY.MakesNoRoom(Room(false, 0), 2) by {
      assert BUSY.Rejects(Room(false, 0), 1);
    }
  }
}
