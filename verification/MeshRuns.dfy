/** Any number of devices signalling through the hub, with every message delayed, reordered, repeated or lost. */
module MeshRuns {
  import opened Wrappers
  import opened Rows
  import opened IceBuffers
  import opened Mesh

  /** Messages sent are the senders' outboxes; the network may deliver any of them at any time, any number of times. */
  type Net = map<Id, State>

  datatype Step =
    | Presence(at: Id, devices: seq<Id>)
    | Deliver(e: Envelope)
    | Turn(at: Id, peer: Id, outcome: Outcome)
    | Gather(at: Id, peer: Id, candidate: Candidate)
    | Leave(at: Id)
    | Reload(at: Id)

  function NewState(self: Id, outbox: seq<Envelope>): State { State(self, map[], {}, map[], map[], outbox, map[]) }

  function FreshNet(ids: set<Id>): Net { map id | id in ids :: NewState(id, []) }

  predicate Admissible(net: Net, step: Step) {
    match step
    case Deliver(e) => e.from in net && e.to in net && e in net[e.from].outbox
    case Gather(at, peer, _) => at in net && peer in net[at].peers
    case _ => step.at in net
  }

  function Next(net: Net, step: Step): Net
    requires Admissible(net, step)
  {
    match step
    case Presence(at, devices) => net[at := OnPresence(net[at], devices)]
    case Deliver(e) => net[e.to := OnSignal(net[e.to], e)]
    case Turn(at, peer, outcome) => net[at := RunChain(net[at], peer, outcome)]
    case Gather(at, peer, candidate) => net[at := Signal(net[at], RtcIce(at, peer, candidate))]
    case Leave(at) => net[at := Close(net[at], net[at].peers.Keys)]
    case Reload(at) => net[at := NewState(at, net[at].outbox)]
  }

  predicate AdmissibleRun(net: Net, steps: seq<Step>)
    decreases |steps|
  {
    steps == [] || (Admissible(net, steps[0]) && AdmissibleRun(Next(net, steps[0]), steps[1..]))
  }

  function Run(net: Net, steps: seq<Step>): Net
    requires AdmissibleRun(net, steps)
    decreases |steps|
  {
    if steps == [] then net else Run(Next(net, steps[0]), steps[1..])
  }

  // ---- the invariant

  /** Everything a device knows about one peer. */
  datatype Slot = Slot(peer: Option<Peer>, starting: bool, queue: seq<Op>, pending: seq<Candidate>, seen: seq<Candidate>)

  function At(s: State, id: Id): Slot {
    Slot(if id in s.peers then Some(s.peers[id]) else None, id in s.starting, Queue(s.chain, id),
         Buffered(s.pending, id), Buffered(s.seen, id))
  }

  /** Offers go up, answers go down. */
  predicate RightWay(e: Envelope) { (e.RtcOffer? ==> e.from < e.to) && (e.RtcAnswer? ==> e.to < e.from) }

  predicate OpAllowed(self: Id, peer: Id, op: Op) {
    match op
    case DoOffer => self < peer
    case DoAcceptOffer(_) => peer < self
    case DoAcceptAnswer(_, _) => self < peer
    case DoApplyIce(_) => true
  }

  /** Only the smaller end offers and takes an answer, each at most once; only the larger end takes offers. */
  predicate PeerFine(self: Id, id: Id, peer: Peer) {
    && (self < id ==> !peer.state.HaveRemoteOffer? && peer.offers <= 1 && peer.answers <= 1
                      && (peer.state.HaveLocalOffer? ==> peer.answers == 0)
                      && (peer.remote.Some? <==> peer.answers == 1) && (peer.remote.Some? ==> !peer.remote.value.isOffer))
    && (id <= self ==> !peer.state.HaveLocalOffer? && peer.offers == 0 && peer.answers == 0
                       && (peer.remote.Some? ==> peer.remote.value.isOffer)
                       && (peer.state.HaveRemoteOffer? ==> peer.remote.Some?))
  }

  /** Handed, then buffered, is what was processed; nothing is handed early and nothing waits once it could be handed. */
  predicate CandidatesFine(slot: Slot) {
    && (if slot.peer.Some? then slot.peer.value.handed else []) + slot.pending == slot.seen
    && (slot.peer.Some? && slot.peer.value.remote.None? ==> slot.peer.value.handed == [])
    && (slot.peer.Some? && slot.peer.value.remote.Some? ==> slot.pending == [])
  }

  predicate SlotFine(self: Id, id: Id, slot: Slot) {
    && (slot.starting ==> self < id)
    && (forall op | op in slot.queue :: OpAllowed(self, id, op))
    && (slot.peer.Some? ==> PeerFine(self, id, slot.peer.value))
    && CandidatesFine(slot)
  }

  predicate OutboxFine(s: State) { forall e | e in s.outbox :: e.from == s.self && RightWay(e) }

  ghost predicate StateFine(s: State) { OutboxFine(s) && forall id :: SlotFine(s.self, id, At(s, id)) }

  ghost predicate Inv(net: Net) { forall id | id in net :: net[id].self == id && StateFine(net[id]) }

  // ---- every operation keeps it

  /** An operation on one peer keeps a fine state fine when it does so for that peer. */
  lemma OnePeerKeeps(s: State, s': State, id: Id)
    requires StateFine(s) && s'.self == s.self && OutboxFine(s') && SlotFine(s.self, id, At(s', id))
    requires forall other | other != id :: At(s', other) == At(s, other)
    ensures StateFine(s')
  {
    forall other ensures SlotFine(s'.self, other, At(s', other)) {
      assert SlotFine(s.self, other, At(s, other));
    }
  }

  lemma EnqueueKeeps(s: State, id: Id, op: Op)
    requires StateFine(s) && OpAllowed(s.self, id, op)
    ensures StateFine(Enqueue(s, id, op))
  {
    assert SlotFine(s.self, id, At(s, id));
    assert At(Enqueue(s, id, op), id) == At(s, id).(queue := At(s, id).queue + [op]);
    OnePeerKeeps(s, Enqueue(s, id, op), id);
  }

  lemma OfferAt(s: State, id: Id, o: Outcome, other: Id)
    ensures other != id ==> At(Offer(s, id, o), other) == At(s, other)
    ensures SlotFine(s.self, id, At(s, id)) && s.self < id ==> SlotFine(s.self, id, At(Offer(s, id, o), id))
  {
    var slot, after := At(s, id), At(Offer(s, id, o), id);
    assert slot.peer.Some? ==> after == slot.(starting := false);
    assert slot.peer.None? ==> after.peer.Some? && after == slot.(starting := false, peer := after.peer);
  }

  lemma AcceptOfferElsewhere(s: State, id: Id, sdp: Sdp, o: Outcome, other: Id)
    requires other != id
    ensures At(AcceptOffer(s, id, sdp, o), other) == At(s, other)
  {
  }

  lemma TakeRemoteFine(s: State, id: Id, peer: Peer, state: Signaling, remote: Description)
    requires SlotFine(s.self, id, At(s, id)) && (At(s, id).peer == Some(peer) || (At(s, id).peer.None? && peer.handed == []))
    requires PeerFine(s.self, id, peer.(state := state, remote := Some(remote)))
    requires peer.remote.None? ==> peer.handed == []
    ensures SlotFine(s.self, id, At(TakeRemote(s, id, peer, state, remote), id))
  {
    assert peer.handed + At(s, id).pending == At(s, id).seen;
  }

  lemma AcceptOfferFine(s: State, id: Id, sdp: Sdp, o: Outcome)
    requires SlotFine(s.self, id, At(s, id)) && id < s.self
    ensures SlotFine(s.self, id, At(AcceptOffer(s, id, sdp, o), id))
  {
    var peer := if id in s.peers then s.peers[id] else NEW_PEER;
    if PlanRtcSignal(peer.state, true, peer.remote == Some(Description(true, sdp))).ApplyOffer? && !o.Throws? {
      TakeRemoteFine(s, id, peer, HaveRemoteOffer, Description(true, sdp));
      TakeRemoteFine(s, id, peer, Stable, Description(true, sdp));
    }
  }

  lemma AcceptAnswerAt(s: State, id: Id, sdp: Sdp, re: Sdp, o: Outcome, other: Id)
    ensures other != id ==> At(AcceptAnswer(s, id, sdp, re, o), other) == At(s, other)
    ensures SlotFine(s.self, id, At(s, id)) && s.self < id ==> SlotFine(s.self, id, At(AcceptAnswer(s, id, sdp, re, o), id))
  {
  }

  lemma ApplyIceElsewhere(s: State, id: Id, candidate: Candidate, other: Id)
    requires other != id
    ensures At(ApplyIce(s, id, candidate), other) == At(s, other)
  {
  }

  lemma ApplyIceFine(s: State, id: Id, candidate: Candidate)
    requires SlotFine(s.self, id, At(s, id))
    ensures SlotFine(s.self, id, At(ApplyIce(s, id, candidate), id))
  {
    var slot, after := At(s, id), At(ApplyIce(s, id, candidate), id);
    var handed := if slot.peer.Some? then slot.peer.value.handed else [];
    if candidate.line != "" {
      if slot.peer.None? || slot.peer.value.remote.None? {
        assert after == slot.(pending := slot.pending + [candidate], seen := slot.seen + [candidate]);
        assert handed + (slot.pending + [candidate]) == (handed + slot.pending) + [candidate];
      } else {
        assert after == slot.(peer := Some(slot.peer.value.(handed := handed + [candidate])), seen := slot.seen + [candidate]);
        assert handed + [] == handed && (handed + [candidate]) + [] == handed + [candidate];
      }
    }
  }

  lemma PerformAt(s: State, id: Id, op: Op, o: Outcome, other: Id)
    ensures other != id ==> At(Perform(s, id, op, o), other) == At(s, other)
    ensures SlotFine(s.self, id, At(s, id)) && OpAllowed(s.self, id, op) ==> SlotFine(s.self, id, At(Perform(s, id, op, o), id))
  {
    hide SlotFine, At;
    match op
    case DoOffer => OfferAt(s, id, o, other);
    case DoAcceptOffer(sdp) =>
      if other != id {
        AcceptOfferElsewhere(s, id, sdp, o, other);
      }
      if SlotFine(s.self, id, At(s, id)) && id < s.self {
        AcceptOfferFine(s, id, sdp, o);
      }
    case DoAcceptAnswer(sdp, re) => AcceptAnswerAt(s, id, sdp, re, o, other);
    case DoApplyIce(candidate) =>
      if other != id {
        ApplyIceElsewhere(s, id, candidate, other);
      }
      if SlotFine(s.self, id, At(s, id)) {
        ApplyIceFine(s, id, candidate);
      }
  }

  lemma PerformSends(s: State, id: Id, op: Op, o: Outcome)
    requires OutboxFine(s) && OpAllowed(s.self, id, op)
    ensures Perform(s, id, op, o).self == s.self && OutboxFine(Perform(s, id, op, o))
  {
  }

  lemma RunChainKeeps(s: State, id: Id, o: Outcome)
    requires StateFine(s)
    ensures StateFine(RunChain(s, id, o)) && RunChain(s, id, o).self == s.self
  {
    if Queue(s.chain, id) != [] {
      var op := s.chain[id][0];
      var rest := s.(chain := s.chain[id := s.chain[id][1..]]);
      assert SlotFine(s.self, id, At(s, id));
      assert op in Queue(s.chain, id);
      assert At(rest, id) == At(s, id).(queue := s.chain[id][1..]);
      assert SlotFine(rest.self, id, At(rest, id));
      forall other | other != id ensures At(Perform(rest, id, op, o), other) == At(s, other) {
        PerformAt(rest, id, op, o, other);
        assert At(rest, other) == At(s, other);
      }
      PerformAt(rest, id, op, o, id);
      PerformSends(rest, id, op, o);
      hide Perform, SlotFine, At, OutboxFine;
      OnePeerKeeps(s, Perform(rest, id, op, o), id);
    }
  }

  lemma {:induction false} StartOffersKeeps(s: State, others: seq<Id>, from: nat)
    requires StateFine(s) && from <= |others|
    ensures StateFine(StartOffers(s, others, from)) && StartOffers(s, others, from).self == s.self
    ensures StartOffers(s, others, from).peers == s.peers
    decreases |others| - from
  {
    hide StateFine, At;
    if from < |others| {
      var id := others[from];
      if id !in s.peers && id !in s.starting && s.self < id {
        StartingKeeps(s, id);
        EnqueueKeeps(s.(starting := s.starting + {id}), id, DoOffer);
        StartOffersKeeps(Enqueue(s.(starting := s.starting + {id}), id, DoOffer), others, from + 1);
      } else {
        StartOffersKeeps(s, others, from + 1);
      }
    }
  }

  lemma StartingKeeps(s: State, id: Id)
    requires StateFine(s) && s.self < id
    ensures StateFine(s.(starting := s.starting + {id}))
  {
    assert SlotFine(s.self, id, At(s, id));
    OnePeerKeeps(s, s.(starting := s.starting + {id}), id);
  }

  lemma CloseKeeps(s: State, ids: set<Id>)
    requires StateFine(s)
    ensures StateFine(Close(s, ids))
  {
    forall id ensures SlotFine(s.self, id, At(Close(s, ids), id)) {
      assert SlotFine(s.self, id, At(s, id));
    }
  }

  lemma GatherKeeps(s: State, peer: Id, candidate: Candidate)
    requires StateFine(s)
    ensures StateFine(Signal(s, RtcIce(s.self, peer, candidate)))
  {
    forall id ensures SlotFine(s.self, id, At(Signal(s, RtcIce(s.self, peer, candidate)), id)) {
      assert SlotFine(s.self, id, At(s, id));
    }
  }

  lemma NewIsFine(self: Id, outbox: seq<Envelope>)
    requires OutboxFine(NewState(self, outbox))
    ensures StateFine(NewState(self, outbox))
  {
  }

  lemma StepKeeps(net: Net, step: Step)
    requires Inv(net) && Admissible(net, step)
    ensures Inv(Next(net, step)) && Next(net, step).Keys == net.Keys
  {
    hide SlotFine, At, Close, RunChain, StartOffers;
    match step
    case Presence(at, devices) =>
      var others := Others(net[at].self, devices);
      StartOffersKeeps(net[at], others, 0);
      CloseKeeps(StartOffers(net[at], others, 0), Gone(StartOffers(net[at], others, 0).peers, others));
      CloseSelf(StartOffers(net[at], others, 0), Gone(StartOffers(net[at], others, 0).peers, others));
    case Deliver(e) =>
      assert OutboxFine(net[e.from]) && RightWay(e);
      EnqueueKeeps(net[e.to], e.from, OpOf(e));
    case Turn(at, peer, outcome) => RunChainKeeps(net[at], peer, outcome);
    case Gather(at, peer, candidate) => GatherKeeps(net[at], peer, candidate);
    case Leave(at) =>
      CloseKeeps(net[at], net[at].peers.Keys);
      CloseSelf(net[at], net[at].peers.Keys);
    case Reload(at) => NewIsFine(at, net[at].outbox);
  }

  lemma CloseSelf(s: State, ids: set<Id>)
    ensures Close(s, ids).self == s.self
  {
  }

  lemma {:induction false} RunKeeps(net: Net, steps: seq<Step>)
    requires Inv(net) && AdmissibleRun(net, steps)
    ensures Inv(Run(net, steps)) && Run(net, steps).Keys == net.Keys
    decreases |steps|
  {
    hide Inv, Next, Admissible;
    if steps != [] {
      StepKeeps(net, steps[0]);
      RunKeeps(Next(net, steps[0]), steps[1..]);
    }
  }

  lemma FreshIsFine(ids: set<Id>)
    ensures Inv(FreshNet(ids))
  {
    forall id | id in ids ensures StateFine(FreshNet(ids)[id]) {
      NewIsFine(id, []);
    }
  }

  lemma {:induction false} OneMore(start: Net, steps: seq<Step>, step: Step)
    requires AdmissibleRun(start, steps) && Admissible(Run(start, steps), step)
    ensures AdmissibleRun(start, steps + [step]) && Run(start, steps + [step]) == Next(Run(start, steps), step)
    decreases |steps|
  {
    hide Next, Admissible;
    if steps == [] {
      assert [] + [step] == [step] && [step][1..] == [];
    } else {
      OneMore(Next(start, steps[0]), steps[1..], step);
      assert (steps + [step])[1..] == steps[1..] + [step] && (steps + [step])[0] == steps[0];
    }
  }
}
