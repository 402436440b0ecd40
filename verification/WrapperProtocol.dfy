/** The wrapper's request protocol: admission tokens, outstanding requests, per-port response
    queues with their retry handshake, and the deferred drain signal. Every method is one action
    of the surroundings, so any interleaving of them is a run. */
module WrapperProtocol {

  datatype Packet = Packet(id: int, read: bool, needsResponse: bool)

  datatype Held = Held(packet: Packet, port: nat)

  datatype Port = Port(
    retryReq: bool,        // a rejected request is owed a retry
    retryResp: bool,       // the peer refused the front response and will ask again
    queue: seq<Packet>,    // responses waiting to be sent
    scheduled: bool,       // sendResponseEvent is pending
    sending: bool          // the front response is being offered to the peer right now
  )

  /** A waiting response always has exactly one thing that will send it. */
  predicate PortOk(p: Port) {
    if p.sending then !p.retryResp && p.queue != [] && (p.scheduled ==> 1 < |p.queue|)
    else if p.queue == [] then !p.retryResp && !p.scheduled
    else p.retryResp != p.scheduled
  }

  function Queued(ports: seq<Port>): nat {
    if ports == [] then 0 else Queued(ports[..|ports| - 1]) + |ports[|ports| - 1].queue|
  }

  lemma {:induction false} QueuedUpdate(ports: seq<Port>, i: nat, p: Port)
    requires i < |ports|
    ensures Queued(ports[i := p]) == Queued(ports) - |ports[i].queue| + |p.queue|
  {
    var n := |ports| - 1;
    if i < n {
      assert ports[i := p][..n] == ports[..n][i := p];
      QueuedUpdate(ports[..n], i, p);
    } else {
      assert ports[i := p][..n] == ports[..n];
    }
  }

  lemma {:induction false} NothingQueued(ports: seq<Port>)
    requires forall p :: 0 <= p < |ports| ==> ports[p].queue == []
    ensures Queued(ports) == 0
  {
    if ports != [] {
      NothingQueued(ports[..|ports| - 1]);
    }
  }

  /** One port's responses so far: everything queued, whose they are, and how many were taken. */
  datatype Lane = Lane(log: seq<Packet>, owner: seq<nat>, sent: nat) {
    function Push(packet: Packet, token: nat): Lane {
      Lane(log + [packet], owner + [token], sent)
    }
  }

  predicate LaneOk(l: Lane, p: Port) {
    |l.owner| == |l.log| && l.sent <= |l.log| && p.queue == l.log[l.sent..]
  }

  /** A port after a packet's response is queued: if nothing is due to send it, a send is scheduled. */
  function Pushed(p: Port, packet: Packet): Port {
    if packet.needsResponse then p.(queue := p.queue + [packet], scheduled := p.scheduled || !p.retryResp) else p
  }

  /** What has happened to read requests so far. */
  datatype History = History(
    offered: map<nat, Held>,   // every read token handed out and not rejected
    answered: map<nat, nat>,   // completed reads: their place among their port's responses
    dropped: set<nat>,         // completed reads that needed no response
    lanes: seq<Lane>
  )

  predicate Answers(h: History, t: nat) {
    && t in h.answered && t in h.offered && h.offered[t].port < |h.lanes|
    && var l := h.lanes[h.offered[t].port];
       h.answered[t] < |l.log| == |l.owner|
       && l.log[h.answered[t]] == h.offered[t].packet && l.owner[h.answered[t]] == t
  }

  ghost predicate LanesOk(h: History, ports: seq<Port>) {
    |h.lanes| == |ports| && forall p :: 0 <= p < |ports| ==> LaneOk(h.lanes[p], ports[p])
  }

  /** Every read token is in exactly one of the outstanding, answered and dropped sets, each
      answered one at its own place. */
  ghost predicate Accounted(h: History, pending: map<nat, Held>) {
    && (forall t :: t in h.offered ==>
          (t in pending || t in h.answered || t in h.dropped) && h.offered[t].port < |h.lanes|)
    && (forall t :: t in pending ==>
          t !in h.answered && t !in h.dropped && t in h.offered && pending[t] == h.offered[t])
    && (forall t :: t in h.answered ==> t !in h.dropped && Answers(h, t))
    && (forall t :: t in h.dropped ==> t in h.offered)
  }

  /** Where a read request is. */
  datatype Place = Outstanding | Waiting(index: nat) | Sent(index: nat) | Dropped

  ghost predicate PlacedAt(h: History, pending: map<nat, Held>, ports: seq<Port>, t: nat, x: Place)
    requires Accounted(h, pending) && LanesOk(h, ports) && t in h.offered
  {
    var port, packet := h.offered[t].port, h.offered[t].packet;
    match x
    case Outstanding => t in pending
    case Waiting(i) => t in h.answered && h.answered[t] == h.lanes[port].sent + i
                       && i < |ports[port].queue| && ports[port].queue[i] == packet
    case Sent(i) => t in h.answered && h.answered[t] == i && i < h.lanes[port].sent && h.lanes[port].log[i] == packet
    case Dropped => t in h.dropped
  }

  /** Every read ever admitted is in exactly one place: outstanding, at one position of its port's
      queue, at one position of its port's sent responses, or completed without a response. */
  lemma {:induction false} ReadIsInOnePlace(h: History, pending: map<nat, Held>, ports: seq<Port>, t: nat)
    requires Accounted(h, pending) && LanesOk(h, ports) && t in h.offered
    ensures exists x: Place :: PlacedAt(h, pending, ports, t, x)
              && (forall y: Place :: PlacedAt(h, pending, ports, t, y) ==> y == x)
  {
    var port := h.offered[t].port;
    var x := if t in pending then Outstanding
             else if t in h.dropped then Dropped
             else if h.answered[t] < h.lanes[port].sent then Sent(h.answered[t])
             else Waiting(h.answered[t] - h.lanes[port].sent);
    if t in h.answered {
      assert Answers(h, t);
    }
    assert LaneOk(h.lanes[port], ports[port]);
    assert PlacedAt(h, pending, ports, t, x);
  }

  /** No position of a port holds two reads. */
  lemma {:induction false} PlacesAreDistinct(h: History, pending: map<nat, Held>, ports: seq<Port>, t: nat, u: nat,
                                             x: Place)
    requires Accounted(h, pending) && LanesOk(h, ports) && t in h.offered && u in h.offered
    requires h.offered[t].port == h.offered[u].port && (x.Waiting? || x.Sent?)
    requires PlacedAt(h, pending, ports, t, x) && PlacedAt(h, pending, ports, u, x)
    ensures t == u
  {
    assert Answers(h, t) && Answers(h, u);
  }

  lemma {:induction false} RemoveCount(pending: map<nat, Held>, t: nat)
    requires t in pending
    ensures |pending - {t}| == |pending| - 1
  {
    assert pending.Keys == (pending - {t}).Keys + {t};
  }

  // ----- Each action keeps the account -----

  lemma {:induction false} OfferAccounted(h: History, pending: map<nat, Held>, t: nat, held: Held)
    requires Accounted(h, pending) && t !in h.offered && held.port < |h.lanes|
    ensures Accounted(h.(offered := h.offered[t := held]), pending[t := held])
  {
    var h' := h.(offered := h.offered[t := held]);
    forall u | u in h'.answered ensures Answers(h', u) {
      assert Answers(h, u);
    }
  }

  lemma {:induction false} RejectAccounted(h: History, pending: map<nat, Held>, t: nat)
    requires Accounted(h, pending) && t in pending
    ensures Accounted(h.(offered := h.offered - {t}), pending - {t})
  {
    var h' := h.(offered := h.offered - {t});
    forall u | u in h'.answered ensures Answers(h', u) {
      assert Answers(h, u);
    }
  }

  lemma {:induction false} DropAccounted(h: History, pending: map<nat, Held>, t: nat)
    requires Accounted(h, pending) && t in pending
    ensures Accounted(h.(dropped := h.dropped + {t}), pending - {t})
  {
    var h' := h.(dropped := h.dropped + {t});
    forall u | u in h'.answered ensures Answers(h', u) {
      assert Answers(h, u);
    }
  }

  /** Queue a response on a port. */
  function Respond(h: History, port: nat, packet: Packet, token: nat): History
    requires port < |h.lanes|
  {
    h.(lanes := h.lanes[port := h.lanes[port].Push(packet, token)])
  }

  /** The history after that. */
  function Responded(h: History, port: nat, packet: Packet, token: nat): History
    requires port < |h.lanes|
  {
    if packet.needsResponse then Respond(h, port, packet, token) else h
  }

  ghost predicate AllPortsOk(h: History, ports: seq<Port>) {
    LanesOk(h, ports) && forall p :: 0 <= p < |ports| ==> PortOk(ports[p])
  }

  lemma {:induction false} PushOk(h: History, ports: seq<Port>, port: nat, packet: Packet, token: nat)
    requires AllPortsOk(h, ports) && port < |ports|
    ensures AllPortsOk(Responded(h, port, packet, token), ports[port := Pushed(ports[port], packet)])
    ensures Queued(ports[port := Pushed(ports[port], packet)])
            == Queued(ports) + (if packet.needsResponse then 1 else 0)
  {
    QueuedUpdate(ports, port, Pushed(ports[port], packet));
    assert LaneOk(h.lanes[port], ports[port]) && PortOk(ports[port]);
  }

  lemma {:induction false} RetryOk(h: History, ports: seq<Port>, port: nat, owed: bool)
    requires AllPortsOk(h, ports) && port < |ports|
    ensures AllPortsOk(h, ports[port := ports[port].(retryReq := owed)])
    ensures Queued(ports[port := ports[port].(retryReq := owed)]) == Queued(ports)
  {
    QueuedUpdate(ports, port, ports[port].(retryReq := owed));
    assert LaneOk(h.lanes[port], ports[port]) && PortOk(ports[port]);
  }

  lemma {:induction false} RespondAccounted(h: History, pending: map<nat, Held>, ports: seq<Port>, port: nat,
                                            packet: Packet, token: nat)
    requires Accounted(h, pending) && LanesOk(h, ports) && port < |ports|
    ensures Accounted(Respond(h, port, packet, token), pending)
  {
    var h' := Respond(h, port, packet, token);
    forall u | u in h'.answered ensures Answers(h', u) {
      assert Answers(h, u);
      assert LaneOk(h.lanes[h.offered[u].port], ports[h.offered[u].port]);
    }
  }

  lemma {:induction false} AnswerAccounted(h: History, pending: map<nat, Held>, ports: seq<Port>, t: nat)
    requires Accounted(h, pending) && LanesOk(h, ports) && t in pending && pending[t].port < |ports|
    ensures var h' := Respond(h, pending[t].port, pending[t].packet, t);
            Accounted(h'.(answered := h.answered[t := |h.lanes[pending[t].port].log|]), pending - {t})
  {
    var held := pending[t];
    RespondAccounted(h, pending, ports, held.port, held.packet, t);
    var h0 := Respond(h, held.port, held.packet, t);
    var h' := h0.(answered := h.answered[t := |h.lanes[held.port].log|]);
    assert LaneOk(h.lanes[held.port], ports[held.port]);
    forall u | u in h'.answered ensures Answers(h', u) {
      if u != t {
        assert Answers(h0, u);
      }
    }
  }

  /** A completed read answered on its port, or dropped when it needs no response. */
  function Settled(h: History, pending: map<nat, Held>, t: nat): History
    requires t in pending && pending[t].port < |h.lanes|
  {
    var held := pending[t];
    if held.packet.needsResponse then
      Respond(h, held.port, held.packet, t).(answered := h.answered[t := |h.lanes[held.port].log|])
    else h.(dropped := h.dropped + {t})
  }

  lemma {:induction false} SettledAccounted(h: History, pending: map<nat, Held>, ports: seq<Port>, t: nat)
    requires Accounted(h, pending) && LanesOk(h, ports) && t in pending
    ensures pending[t].port < |ports| && Accounted(Settled(h, pending, t), pending - {t})
    ensures Settled(h, pending, t).offered == h.offered
  {
    if pending[t].packet.needsResponse {
      AnswerAccounted(h, pending, ports, t);
    } else {
      DropAccounted(h, pending, t);
    }
  }

  lemma {:induction false} TakenOk(h: History, ports: seq<Port>, port: nat)
    requires AllPortsOk(h, ports) && port < |ports| && ports[port].sending
    ensures ports[port].queue != [] && |h.lanes| == |ports|
    ensures var p := ports[port];
            var ports' := ports[port := p.(queue := p.queue[1..], sending := false, scheduled := 1 < |p.queue|)];
            && AllPortsOk(h.(lanes := h.lanes[port := h.lanes[port].(sent := h.lanes[port].sent + 1)]), ports')
            && Queued(ports') == Queued(ports) - 1
  {
    var p := ports[port];
    assert LaneOk(h.lanes[port], p) && PortOk(p);
    QueuedUpdate(ports, port, p.(queue := p.queue[1..], sending := false, scheduled := 1 < |p.queue|));
  }

  lemma {:induction false} SendAccounted(h: History, pending: map<nat, Held>, port: nat)
    requires Accounted(h, pending) && port < |h.lanes|
    ensures Accounted(h.(lanes := h.lanes[port := h.lanes[port].(sent := h.lanes[port].sent + 1)]), pending)
  {
    var h' := h.(lanes := h.lanes[port := h.lanes[port].(sent := h.lanes[port].sent + 1)]);
    forall u | u in h'.answered ensures Answers(h', u) {
      assert Answers(h, u);
    }
  }

  /** The simulator's side of a drain: the signals it has had, whether it is waiting for one, and
      whether a rejection has left it waiting with nothing outstanding. */
  datatype Watch = Watch(signals: nat, waiting: bool, lost: bool) {
    function Signalled(): Watch {
      Watch(signals + 1, false, false)
    }
  }

  lemma {:induction false} QueuedNothing(ports: seq<Port>)
    ensures Queued(ports) == 0 <==> forall p :: 0 <= p < |ports| ==> ports[p].queue == []
  {
    if ports != [] {
      var n := |ports| - 1;
      QueuedNothing(ports[..n]);
      assert forall p :: 0 <= p < n ==> ports[..n][p] == ports[p];
    }
  }

  class RequestProtocol {
    var ports: seq<Port>
    var outstandingReads: map<nat, Held>
    var outstandingWrites: set<nat>
    var nextToken: nat
    var admissionInProgress: bool
    var drainDeferred: bool
    var current: nat             // token, packet and port of the admission in progress
    var currentHeld: Held
    ghost var h: History
    ghost var watch: Watch

    function Outstanding(): nat
      reads this
    {
      |outstandingReads| + |outstandingWrites| + Queued(ports)
    }

    ghost predicate TokensOk()
      reads this
    {
      && (forall t :: t in h.offered ==> t < nextToken && t !in outstandingWrites)
      && (forall t :: t in outstandingWrites ==> t < nextToken)
    }

    ghost predicate PortsOk()
      reads this
    {
      AllPortsOk(h, ports)
    }

    ghost predicate Valid()
      reads this
    {
      && PortsOk() && Accounted(h, outstandingReads) && TokensOk()
      && (drainDeferred ==> admissionInProgress && current !in outstandingReads && current !in outstandingWrites)
      && (admissionInProgress && Outstanding() == 0 ==> drainDeferred)
      && (admissionInProgress ==> current < nextToken && currentHeld.port < |ports|)
      && (Stranded() ==> watch.lost)
    }

    /** A token outstanding as a read is not outstanding as a write. */
    lemma {:induction false} TokensDiffer(t: nat)
      requires Valid()
      ensures t in outstandingReads ==> t !in outstandingWrites
      ensures nextToken !in h.offered && nextToken !in outstandingReads && nextToken !in outstandingWrites
    {
    }

    /** The simulator waits for a signal that nothing outstanding is left to give. */
    ghost predicate Stranded()
      reads this
    {
      watch.waiting && !admissionInProgress && Outstanding() == 0
    }

    constructor (n: nat)
      ensures Valid() && Outstanding() == 0 && watch == Watch(0, false, false) && !admissionInProgress
      ensures |ports| == n && nextToken == 1 && forall p :: 0 <= p < n ==> !ports[p].retryReq
    {
      ports := seq(n, _ => Port(false, false, [], false, false));
      outstandingReads, outstandingWrites, nextToken := map[], {}, 1;
      admissionInProgress, drainDeferred, current := false, false, 0;
      currentHeld := Held(Packet(0, false, false), 0);
      h, watch := History(map[], map[], {}, seq(n, _ => Lane([], [], 0))), Watch(0, false, false);
      new;
      NothingQueued(ports);
    }

    /** Tell the simulator the memory has drained: only with nothing left and no admission open. */
    method SignalDrainDone()
      requires Outstanding() == 0 && !admissionInProgress
      modifies this`watch
      ensures watch == old(watch).Signalled() && !Stranded()
    {
      watch := watch.Signalled();
    }

    /** The watch after a completion: signalled with nothing left and no admission open. */
    ghost function Noticed(w: Watch): Watch
      reads this
    {
      if Outstanding() == 0 && !admissionInProgress then w.Signalled() else w
    }

    method MaybeSignalDrainDone()
      modifies this`watch, this`drainDeferred
      ensures drainDeferred == (old(drainDeferred) || (Outstanding() == 0 && admissionInProgress))
      ensures watch == Noticed(old(watch)) && !Stranded()
    {
      if Outstanding() != 0 { return; }
      if admissionInProgress {
        drainDeferred := true;
        return;
      }
      SignalDrainDone();
    }

    /** Queue a response behind the port's earlier ones, or drop a packet that needs none. */
    method AccessAndRespond(packet: Packet, port: nat, ghost token: nat)
      requires PortsOk() && port < |ports|
      modifies this`ports, this`h
      ensures PortsOk() && h == Responded(old(h), port, packet, token)
      ensures ports == old(ports)[port := Pushed(old(ports)[port], packet)]
      ensures Queued(ports) == Queued(old(ports)) + (if packet.needsResponse then 1 else 0)
    {
      PushOk(h, ports, port, packet, token);
      h := Responded(h, port, packet, token);
      if packet.needsResponse {
        var p := ports[port];
        var due := p.retryResp || p.scheduled;
        ports := ports[port := p.(queue := p.queue + [packet], scheduled := p.scheduled || !due)];
      }
      assert ports == old(ports)[port := Pushed(old(ports)[port], packet)];
    }

    /** recvTimingReq up to the memory system: a fresh token is entered before the request is
        offered, because the completion may come inside that call. */
    method StartAdmission(packet: Packet, port: nat) returns (token: nat)
      requires Valid() && !admissionInProgress && port < |ports| && !ports[port].retryReq
      modifies this`nextToken, this`outstandingReads, this`outstandingWrites, this`h
      modifies this`admissionInProgress, this`current, this`currentHeld
      ensures Valid() && admissionInProgress && current == token && currentHeld == Held(packet, port)
      ensures token == old(nextToken) && nextToken == token + 1
      ensures token !in old(h.offered) && token !in old(outstandingReads) && token !in old(outstandingWrites)
      ensures outstandingReads == if packet.read then old(outstandingReads)[token := Held(packet, port)]
                                  else old(outstandingReads)
      ensures outstandingWrites == if packet.read then old(outstandingWrites) else old(outstandingWrites) + {token}
      ensures Outstanding() == old(Outstanding()) + 1
    {
      hide Accounted, Queued, LaneOk, PortOk;
      TokensDiffer(nextToken);
      token := nextToken;
      nextToken := nextToken + 1;
      if packet.read {
        EnterRead(token, Held(packet, port));
      } else {
        outstandingWrites := outstandingWrites + {token};
      }
      admissionInProgress, current, currentHeld := true, token, Held(packet, port);
    }

    method EnterRead(token: nat, held: Held)
      requires PortsOk() && Accounted(h, outstandingReads) && held.port < |ports|
      requires token !in h.offered && token !in outstandingReads
      modifies this`outstandingReads, this`h
      ensures PortsOk() && Accounted(h, outstandingReads)
      ensures outstandingReads == old(outstandingReads)[token := held]
      ensures Outstanding() == old(Outstanding()) + 1
      ensures h.offered == old(h).offered[token := held]
    {
      hide Accounted, Queued, LaneOk, PortOk;
      OfferAccounted(h, outstandingReads, token, held);
      outstandingReads := outstandingReads[token := held];
      h := h.(offered := h.offered[token := held]);
    }

    /** The memory system's completion callback for a read. */
    method CompleteRead(token: nat)
      requires Valid() && token in outstandingReads
      modifies this`outstandingReads, this`ports, this`h, this`watch, this`drainDeferred
      ensures Valid() && outstandingReads == old(outstandingReads) - {token}
      ensures var held := old(outstandingReads)[token];
              && held.port < |ports| && ports == old(ports)[held.port := Pushed(old(ports)[held.port], held.packet)]
              && Outstanding() == old(Outstanding()) - (if held.packet.needsResponse then 0 else 1)
      ensures watch == Noticed(old(watch)) && !Stranded()
    {
      hide Accounted, Queued, Pushed;
      Settle(token);
      MaybeSignalDrainDone();
    }

    /** A completed read leaves the outstanding set and is answered or dropped. */
    method Settle(token: nat)
      requires PortsOk() && Accounted(h, outstandingReads) && TokensOk() && token in outstandingReads
      modifies this`outstandingReads, this`ports, this`h
      ensures PortsOk() && Accounted(h, outstandingReads) && TokensOk()
      ensures outstandingReads == old(outstandingReads) - {token} && |outstandingReads| == |old(outstandingReads)| - 1
      ensures Queued(ports) == Queued(old(ports)) + (if old(outstandingReads)[token].packet.needsResponse then 1 else 0)
      ensures var held := old(outstandingReads)[token];
              held.port < |ports| && ports == old(ports)[held.port := Pushed(old(ports)[held.port], held.packet)]
    {
      hide Accounted;
      var held := outstandingReads[token];
      SettledAccounted(h, outstandingReads, ports, token);
      RemoveCount(outstandingReads, token);
      ghost var settled := Settled(h, outstandingReads, token);
      outstandingReads := outstandingReads - {token};
      AccessAndRespond(held.packet, held.port, token);
      h := settled;
    }

    /** The completion callback for a write. */
    method CompleteWrite(token: nat)
      requires Valid() && token in outstandingWrites
      modifies this`outstandingWrites, this`watch, this`drainDeferred
      ensures Valid() && outstandingWrites == old(outstandingWrites) - {token}
      ensures Outstanding() == old(Outstanding()) - 1
      ensures watch == Noticed(old(watch)) && !Stranded()
    {
      outstandingWrites := outstandingWrites - {token};
      MaybeSignalDrainDone();
    }

    /** The memory system accepted the request; an accepted write is answered at once. A drain that
        finished meanwhile is signalled now, and only if the answer left nothing outstanding. */
    method AcceptAdmission()
      requires Valid() && admissionInProgress
      modifies this`ports, this`h, this`admissionInProgress, this`drainDeferred, this`watch
      ensures Valid() && !admissionInProgress && |ports| == |old(ports)|
      ensures forall p :: 0 <= p < |ports| ==> ports[p].retryReq == old(ports)[p].retryReq
      ensures Outstanding() == old(Outstanding())
                               + (if !currentHeld.packet.read && currentHeld.packet.needsResponse then 1 else 0)
      ensures watch == Noticed(old(watch)) && !Stranded()
    {
      if !currentHeld.packet.read {
        if currentHeld.packet.needsResponse {
          RespondAccounted(h, outstandingReads, ports, currentHeld.port, currentHeld.packet, current);
        }
        AccessAndRespond(currentHeld.packet, currentHeld.port, current);
      }
      EndAdmission();
    }

    /** Close the admission; the signal it deferred goes out if still nothing is outstanding. */
    method EndAdmission()
      requires admissionInProgress
      modifies this`admissionInProgress, this`drainDeferred, this`watch
      ensures !admissionInProgress && !drainDeferred
      ensures watch == if old(drainDeferred) then Noticed(old(watch)) else old(watch)
    {
      admissionInProgress := false;
      if drainDeferred {
        drainDeferred := false;
        if Outstanding() == 0 {
          SignalDrainDone();
        }
      }
    }

    /** The memory system rejected a read without having called back: the token is withdrawn and its
        port is owed a retry. No drain is signalled, so the simulator is left waiting exactly when it
        was waiting and the withdrawn token was all that was outstanding. No other action strands it. */
    method RejectRead()
      requires Valid() && admissionInProgress && currentHeld.packet.read && current in outstandingReads
      modifies this`ports, this`outstandingReads, this`h, this`admissionInProgress, this`drainDeferred, this`watch
      ensures Valid() && !admissionInProgress
      ensures outstandingReads == old(outstandingReads) - {current} && Outstanding() == old(Outstanding()) - 1
      ensures ports == old(ports)[currentHeld.port := old(ports)[currentHeld.port].(retryReq := true)]
      ensures Stranded() <==> old(watch).waiting && old(Outstanding()) == 1
      ensures watch == old(watch).(lost := old(watch).lost || Stranded())
    {
      hide Accounted, Queued, LaneOk, PortOk;
      WithdrawRead();
      EndAdmission();
      watch := watch.(lost := watch.lost || Stranded());
    }

    /** Take the rejected read back and owe its port a retry. */
    method WithdrawRead()
      requires PortsOk() && Accounted(h, outstandingReads) && TokensOk()
      requires current in outstandingReads && currentHeld.port < |ports|
      modifies this`ports, this`outstandingReads, this`h
      ensures PortsOk() && Accounted(h, outstandingReads) && TokensOk()
      ensures outstandingReads == old(outstandingReads) - {current} && Outstanding() == old(Outstanding()) - 1
      ensures ports == old(ports)[currentHeld.port := old(ports)[currentHeld.port].(retryReq := true)]
    {
      hide Accounted, Queued;
      RetryOk(h, ports, currentHeld.port, true);
      RejectAccounted(h, outstandingReads, current);
      RemoveCount(outstandingReads, current);
      outstandingReads := outstandingReads - {current};
      h := h.(offered := h.offered - {current});
      ports := ports[currentHeld.port := ports[currentHeld.port].(retryReq := true)];
    }

    /** The same for a write. */
    method RejectWrite()
      requires Valid() && admissionInProgress && !currentHeld.packet.read && current in outstandingWrites
      modifies this`ports, this`outstandingWrites, this`admissionInProgress, this`drainDeferred, this`watch
      ensures Valid() && !admissionInProgress
      ensures outstandingWrites == old(outstandingWrites) - {current} && Outstanding() == old(Outstanding()) - 1
      ensures ports == old(ports)[currentHeld.port := old(ports)[currentHeld.port].(retryReq := true)]
      ensures Stranded() <==> old(watch).waiting && old(Outstanding()) == 1
      ensures watch == old(watch).(lost := old(watch).lost || Stranded())
    {
      hide Accounted, Queued, LaneOk, PortOk;
      RetryOk(h, ports, currentHeld.port, true);
      outstandingWrites := outstandingWrites - {current};
      ports := ports[currentHeld.port := ports[currentHeld.port].(retryReq := true)];
      EndAdmission();
      watch := watch.(lost := watch.lost || Stranded());
    }

    /** tick: a port owed a retry is told to send again. */
    method SendRetry(port: nat)
      requires Valid() && port < |ports| && ports[port].retryReq
      modifies this`ports
      ensures Valid() && ports == old(ports)[port := old(ports)[port].(retryReq := false)]
      ensures Outstanding() == old(Outstanding())
    {
      RetryOk(h, ports, port, false);
      ports := ports[port := ports[port].(retryReq := false)];
    }

    /** The send event fires, or the peer asks again: the front response is offered. The asserts of
        the source hold: no retry is pending and the queue is not empty. */
    method BeginSend(port: nat, byRetry: bool) returns (packet: Packet)
      requires Valid() && port < |ports| && !ports[port].sending
      requires if byRetry then ports[port].retryResp else ports[port].scheduled
      modifies this`ports
      ensures Valid() && Outstanding() == old(Outstanding())
      ensures ports == old(ports)[port := old(ports)[port].(retryResp := false, scheduled := false, sending := true)]
      ensures ports[port].queue != [] && packet == ports[port].queue[0] == h.lanes[port].log[h.lanes[port].sent]
    {
      var p := ports[port];
      assert PortOk(p) && LaneOk(h.lanes[port], p);
      packet := p.queue[0];
      var q := p.(retryResp := false, scheduled := false, sending := true);
      QueuedUpdate(ports, port, q);
      ports := ports[port := q];
    }

    /** The peer took the front response: responses leave in the order they were queued. */
    method SendSucceeded(port: nat)
      requires Valid() && port < |ports| && ports[port].sending
      modifies this`ports, this`h, this`watch, this`drainDeferred
      ensures Valid() && |ports| == |old(ports)|
      ensures ports[port].queue == old(ports)[port].queue[1..] && !ports[port].sending
      ensures forall p :: 0 <= p < |ports| && p != port ==> ports[p] == old(ports)[p]
      ensures h == old(h).(lanes := old(h).lanes[port := old(h).lanes[port].(sent := old(h).lanes[port].sent + 1)])
      ensures Outstanding() == old(Outstanding()) - 1
      ensures watch == Noticed(old(watch)) && !Stranded()
    {
      TakeFront(port);
      MaybeSignalDrainDone();
    }

    method TakeFront(port: nat)
      requires PortsOk() && Accounted(h, outstandingReads) && port < |ports| && ports[port].sending
      modifies this`ports, this`h
      ensures PortsOk() && Accounted(h, outstandingReads) && |ports| == |old(ports)|
      ensures ports[port].queue == old(ports)[port].queue[1..] && !ports[port].sending
      ensures forall p :: 0 <= p < |ports| && p != port ==> ports[p] == old(ports)[p]
      ensures h == old(h).(lanes := old(h).lanes[port := old(h).lanes[port].(sent := old(h).lanes[port].sent + 1)])
      ensures Queued(ports) == Queued(old(ports)) - 1
    {
      hide Accounted, Queued, AllPortsOk;
      TakenOk(h, ports, port);
      SendAccounted(h, outstandingReads, port);
      var p := ports[port];
      ports := ports[port := p.(queue := p.queue[1..], sending := false, scheduled := 1 < |p.queue|)];
      h := h.(lanes := h.lanes[port := h.lanes[port].(sent := h.lanes[port].sent + 1)]);
    }

    /** The peer refused it and will ask again. A refusal has no further effect, so no send has been
        scheduled meanwhile. */
    method SendRefused(port: nat)
      requires Valid() && port < |ports| && ports[port].sending && !ports[port].scheduled
      modifies this`ports
      ensures Valid() && ports == old(ports)[port := old(ports)[port].(sending := false, retryResp := true)]
      ensures Outstanding() == old(Outstanding())
    {
      var q := ports[port].(sending := false, retryResp := true);
      assert PortOk(ports[port]) && LaneOk(h.lanes[port], ports[port]);
      QueuedUpdate(ports, port, q);
      ports := ports[port := q];
    }

    /** drain: whether the simulator must wait for a signal. It need not exactly when no request is
        outstanding and no response is queued, and then it is not left waiting. */
    method Drain() returns (draining: bool)
      requires Valid() && !admissionInProgress
      modifies this`watch
      ensures Valid() && !Stranded() && watch.waiting == draining && watch.signals == old(watch).signals
      ensures !draining <==> outstandingReads == map[] && outstandingWrites == {}
                             && forall p :: 0 <= p < |ports| ==> ports[p].queue == []
    {
      QueuedNothing(ports);
      draining := Outstanding() != 0;
      watch := Watch(watch.signals, draining, draining && watch.lost);
    }
  }

  /** How many of the completing requests leave nothing to send: all but the held that are answered. */
  function Freed(held: map<nat, Held>, tokens: seq<nat>): nat {
    if tokens == [] then 0
    else
      var t := tokens[|tokens| - 1];
      Freed(held, tokens[..|tokens| - 1]) + (if t in held && held[t].packet.needsResponse then 0 else 1)
  }

  predicate DistinctTokens(tokens: seq<nat>) {
    forall i, j :: 0 <= i < j < |tokens| ==> tokens[i] != tokens[j]
  }

  /** One request completes inside an admission: no signal yet. */
  method CompleteOne(r: RequestProtocol, t: nat)
    requires r.Valid() && r.admissionInProgress && (t in r.outstandingReads || t in r.outstandingWrites)
    modifies r`outstandingReads, r`outstandingWrites, r`ports, r`h, r`watch, r`drainDeferred
    ensures r.Valid() && r.watch == old(r.watch)
    ensures r.outstandingReads == old(r.outstandingReads) - {t}
    ensures r.outstandingWrites == old(r.outstandingWrites) - {t}
    ensures r.Outstanding() + Freed(old(r.outstandingReads), [t]) == old(r.Outstanding())
  {
    hide RequestProtocol.Valid, RequestProtocol.Outstanding;
    r.TokensDiffer(t);
    assert [t][..0] == [];
    if t in r.outstandingReads {
      r.CompleteRead(t);
    } else {
      r.CompleteWrite(t);
    }
  }

  /** Requests that complete inside an admission. */
  method CompleteInside(r: RequestProtocol, tokens: seq<nat>)
    requires r.Valid() && r.admissionInProgress && DistinctTokens(tokens) && r.current !in tokens
    requires forall t :: t in tokens ==> t in r.outstandingReads || t in r.outstandingWrites
    modifies r`outstandingReads, r`outstandingWrites, r`ports, r`h, r`watch, r`drainDeferred
    ensures r.Valid() && r.watch == old(r.watch)
    ensures r.current in old(r.outstandingReads) ==> r.current in r.outstandingReads
    ensures r.current in old(r.outstandingWrites) ==> r.current in r.outstandingWrites
    ensures r.Outstanding() + Freed(old(r.outstandingReads), tokens) == old(r.Outstanding())
  {
    hide RequestProtocol.Valid, RequestProtocol.Outstanding, DistinctTokens;
    ghost var held, writes, done: set<nat> := r.outstandingReads, r.outstandingWrites, {};
    for i := 0 to |tokens|
      invariant r.Valid() && r.watch == old(r.watch) && (forall t :: t in done <==> t in tokens[..i])
      invariant r.outstandingReads == held - done && r.outstandingWrites == writes - done
      invariant r.Outstanding() + Freed(held, tokens[..i]) == old(r.Outstanding())
    {
      StillPending(held, writes, tokens, i, done);
      CompleteOne(r, tokens[i]);
      done := done + {tokens[i]};
    }
    assert tokens[..|tokens|] == tokens;
  }

  /** The i-th of the completing requests is still outstanding after those before it. */
  lemma {:induction false} StillPending(held: map<nat, Held>, writes: set<nat>, tokens: seq<nat>, i: nat,
                                        done: set<nat>)
    requires i < |tokens| && DistinctTokens(tokens) && tokens[i] in held.Keys + writes
    requires forall t :: t in done <==> t in tokens[..i]
    ensures tokens[i] in held - done || tokens[i] in writes - done
    ensures Freed(held, tokens[..i + 1]) == Freed(held, tokens[..i]) + Freed(held - done, [tokens[i]])
    ensures held - done - {tokens[i]} == held - (done + {tokens[i]})
    ensures writes - done - {tokens[i]} == writes - (done + {tokens[i]})
    ensures forall t :: t in done + {tokens[i]} <==> t in tokens[..i + 1]
  {
    var t := tokens[i];
    assert t !in tokens[..i];
    assert tokens[..i + 1] == tokens[..i] + [t] && tokens[..i + 1][..i] == tokens[..i] && [t][..0] == [];
  }

  /** A rejected admission during which other requests complete leaves a waiting simulator stranded
      exactly when those completions free everything that was outstanding. With RejectRead and
      RejectWrite the only actions that strand, this says when a drain is lost over any run. */
  method RejectedAdmission(r: RequestProtocol, packet: Packet, port: nat, tokens: seq<nat>)
    requires r.Valid() && !r.admissionInProgress && port < |r.ports| && !r.ports[port].retryReq
    requires DistinctTokens(tokens)
    requires forall t :: t in tokens ==> t in r.outstandingReads || t in r.outstandingWrites
    modifies r
    ensures r.Valid() && !r.admissionInProgress && r.watch.signals == old(r.watch).signals
    ensures r.Stranded() <==> old(r.watch).waiting && Freed(old(r.outstandingReads), tokens) == old(r.Outstanding())
  {
    hide Accounted, Queued;
    ghost var held := r.outstandingReads;
    var token := r.StartAdmission(packet, port);
    FreedSame(held, r.outstandingReads, tokens);
    CompleteInside(r, tokens);
    if packet.read {
      r.RejectRead();
    } else {
      r.RejectWrite();
    }
  }

  lemma {:induction false} FreedSame(held: map<nat, Held>, more: map<nat, Held>, tokens: seq<nat>)
    requires forall t :: t in tokens ==> (t in held <==> t in more) && (t in held ==> held[t] == more[t])
    ensures Freed(held, tokens) == Freed(more, tokens)
  {
    if tokens != [] {
      FreedSame(held, more, tokens[..|tokens| - 1]);
    }
  }

  /** A run in which the drain is lost: the last outstanding request is a posted write that completes
      inside an admission the memory system then rejects. */
  method UnsignalledDrain(r: RequestProtocol, last: nat, packet: Packet, port: nat)
    requires r.Valid() && !r.admissionInProgress && port < |r.ports| && !r.ports[port].retryReq
    requires last in r.outstandingWrites && r.Outstanding() == 1
    modifies r
    ensures r.Valid() && r.Stranded() && r.watch.signals == old(r.watch).signals
  {
    var draining := r.Drain();
    assert draining;
    RejectedAdmission(r, packet, port, [last]);
    assert Freed(map[], []) == 0;
  }
}
