/** When the answer a connection takes was made for the offer it sent: the code never compares the two. */
module MeshAnswers {
  import opened Wrappers
  import opened Rows
  import opened IceBuffers
  import opened Mesh
  import opened MeshRuns
  import opened MeshPromises

  /** The connection to p on d has taken no answer, or one made for its own offer. */
  predicate Fits(net: Net, d: Id, p: Id) {
    d in net && p in net[d].peers && net[d].peers[p].answered.Some? ==> net[d].peers[p].answered == net[d].peers[p].offered
  }

  // ---- every answer stems from an offer that was sent

  function OffersIn(net: Net): set<Envelope> { set d, e | d in net && e in net[d].outbox && e.RtcOffer? :: e }

  predicate OpTraced(self: Id, id: Id, op: Op, known: set<Envelope>) {
    match op
    case DoAcceptOffer(sdp) => RtcOffer(id, self, sdp) in known
    case DoAcceptAnswer(_, re) => RtcOffer(self, id, re) in known
    case _ => true
  }

  predicate PeerTraced(self: Id, id: Id, peer: Peer, known: set<Envelope>) {
    && (peer.offered.Some? ==> RtcOffer(self, id, peer.offered.value) in known)
    && (peer.answered.Some? ==> RtcOffer(self, id, peer.answered.value) in known)
    && peer.offers == (if peer.offered.Some? then 1 else 0)
    && (peer.state.HaveLocalOffer? ==> peer.answered.None?)
  }

  predicate SlotTraced(self: Id, id: Id, slot: Slot, known: set<Envelope>) {
    && (forall op | op in slot.queue :: OpTraced(self, id, op, known))
    && (slot.peer.Some? ==> PeerTraced(self, id, slot.peer.value, known))
  }

  predicate SentTraced(self: Id, e: Envelope, known: set<Envelope>) {
    && (e.RtcOffer? ==> e in known)
    && (e.RtcAnswer? ==> RtcOffer(e.to, self, e.re) in known)
  }

  ghost predicate StateTraced(s: State, known: set<Envelope>) {
    && (forall e | e in s.outbox :: SentTraced(s.self, e, known))
    && (forall id :: SlotTraced(s.self, id, At(s, id), known))
  }

  ghost predicate Traced(net: Net) { forall d | d in net :: net[d].self == d && StateTraced(net[d], OffersIn(net)) }

  lemma MoreKnown(s: State, known: set<Envelope>, more: set<Envelope>)
    requires StateTraced(s, known) && known <= more
    ensures StateTraced(s, more)
  {
    forall id ensures SlotTraced(s.self, id, At(s, id), more) {
      assert SlotTraced(s.self, id, At(s, id), known);
    }
  }

  /** A change to one peer keeps a traced state traced when it does so for that peer and for what was sent. */
  lemma OnePeerTraced(s: State, s': State, id: Id, known: set<Envelope>)
    requires StateTraced(s, known) && s'.self == s.self && SlotTraced(s.self, id, At(s', id), known)
    requires forall e | e in s'.outbox :: SentTraced(s.self, e, known)
    requires forall other | other != id :: At(s', other) == At(s, other)
    ensures StateTraced(s', known)
  {
    forall other ensures SlotTraced(s'.self, other, At(s', other), known) {
      assert SlotTraced(s.self, other, At(s, other), known);
    }
  }

  lemma EnqueueTraced(s: State, id: Id, op: Op, known: set<Envelope>)
    requires StateTraced(s, known) && OpTraced(s.self, id, op, known)
    ensures StateTraced(Enqueue(s, id, op), known)
  {
    assert SlotTraced(s.self, id, At(s, id), known);
    assert At(Enqueue(s, id, op), id) == At(s, id).(queue := At(s, id).queue + [op]);
    OnePeerTraced(s, Enqueue(s, id, op), id, known);
  }

  /** The offer one operation sends, if any. */
  function Sends(s: State, id: Id, op: Op, o: Outcome): set<Envelope> {
    if o.Works? && op.DoOffer? && id !in s.peers then {RtcOffer(s.self, id, o.sdp)} else {}
  }

  lemma OfferTraced(s: State, id: Id, o: Outcome, known: set<Envelope>)
    requires SlotTraced(s.self, id, At(s, id), known) && Sends(s, id, DoOffer, o) <= known
    ensures SlotTraced(s.self, id, At(Offer(s, id, o), id), known)
    ensures Offer(s, id, o).outbox == s.outbox
            || (o.Works? && Offer(s, id, o).outbox == s.outbox + [RtcOffer(s.self, id, o.sdp)])
  {
    var slot, after := At(s, id), At(Offer(s, id, o), id);
    assert after.queue == slot.queue;
  }

  lemma AcceptOfferTraced(s: State, id: Id, sdp: Sdp, o: Outcome, known: set<Envelope>)
    requires SlotTraced(s.self, id, At(s, id), known)
    ensures SlotTraced(s.self, id, At(AcceptOffer(s, id, sdp, o), id), known)
    ensures AcceptOffer(s, id, sdp, o).outbox == s.outbox
            || (o.Works? && AcceptOffer(s, id, sdp, o).outbox == s.outbox + [RtcAnswer(s.self, id, o.sdp, sdp)])
  {
    var slot, after := At(s, id), At(AcceptOffer(s, id, sdp, o), id);
    assert after.queue == slot.queue;
  }

  lemma AcceptAnswerTraced(s: State, id: Id, sdp: Sdp, re: Sdp, o: Outcome, known: set<Envelope>)
    requires SlotTraced(s.self, id, At(s, id), known) && RtcOffer(s.self, id, re) in known
    ensures SlotTraced(s.self, id, At(AcceptAnswer(s, id, sdp, re, o), id), known)
    ensures AcceptAnswer(s, id, sdp, re, o).outbox == s.outbox
  {
    var slot, after := At(s, id), At(AcceptAnswer(s, id, sdp, re, o), id);
    assert after.queue == slot.queue;
  }

  lemma ApplyIceTraced(s: State, id: Id, candidate: Candidate, known: set<Envelope>)
    requires SlotTraced(s.self, id, At(s, id), known)
    ensures SlotTraced(s.self, id, At(ApplyIce(s, id, candidate), id), known)
    ensures ApplyIce(s, id, candidate).outbox == s.outbox
  {
    var slot, after := At(s, id), At(ApplyIce(s, id, candidate), id);
    assert after.queue == slot.queue;
  }

  lemma PerformTraced(s: State, id: Id, op: Op, o: Outcome, known: set<Envelope>)
    requires StateTraced(s, known) && OpTraced(s.self, id, op, known) && Sends(s, id, op, o) <= known
    ensures StateTraced(Perform(s, id, op, o), known) && Perform(s, id, op, o).self == s.self
    ensures forall e | e in s.outbox :: e in Perform(s, id, op, o).outbox
  {
    var s' := Perform(s, id, op, o);
    forall other | other != id ensures At(s', other) == At(s, other) {
      PerformAt(s, id, op, o, other);
    }
    assert SlotTraced(s.self, id, At(s, id), known);
    PerformSelf(s, id, op, o);
    hide SlotTraced, At, Offer, AcceptOffer, AcceptAnswer, ApplyIce;
    match op
    case DoOffer => OfferTraced(s, id, o, known);
    case DoAcceptOffer(sdp) => AcceptOfferTraced(s, id, sdp, o, known);
    case DoAcceptAnswer(sdp, re) => AcceptAnswerTraced(s, id, sdp, re, o, known);
    case DoApplyIce(candidate) => ApplyIceTraced(s, id, candidate, known);
    OnePeerTraced(s, s', id, known);
  }

  lemma PerformSelf(s: State, id: Id, op: Op, o: Outcome)
    ensures Perform(s, id, op, o).self == s.self
  {
  }

  lemma RunChainTraced(s: State, id: Id, o: Outcome, known: set<Envelope>)
    requires StateTraced(s, known) && (Queue(s.chain, id) != [] ==> Sends(s, id, Queue(s.chain, id)[0], o) <= known)
    ensures StateTraced(RunChain(s, id, o), known) && RunChain(s, id, o).self == s.self
    ensures forall e | e in s.outbox :: e in RunChain(s, id, o).outbox
  {
    if Queue(s.chain, id) != [] {
      var op := s.chain[id][0];
      var rest := s.(chain := s.chain[id := s.chain[id][1..]]);
      assert SlotTraced(s.self, id, At(s, id), known) && op in At(s, id).queue;
      assert At(rest, id) == At(s, id).(queue := s.chain[id][1..]);
      OnePeerTraced(s, rest, id, known);
      hide Perform, StateTraced, At;
      PerformTraced(rest, id, op, o, known);
    }
  }

  lemma {:induction false} StartOffersTraced(s: State, others: seq<Id>, from: nat, known: set<Envelope>)
    requires StateTraced(s, known) && from <= |others|
    ensures var s' := StartOffers(s, others, from);
            StateTraced(s', known) && s'.self == s.self && s'.outbox == s.outbox
    decreases |others| - from
  {
    hide StateTraced, At;
    if from < |others| {
      var id := others[from];
      if id !in s.peers && id !in s.starting && s.self < id {
        var started := s.(starting := s.starting + {id});
        MarkTraced(s, id, known);
        EnqueueTraced(started, id, DoOffer, known);
        StartOffersTraced(Enqueue(started, id, DoOffer), others, from + 1, known);
      } else {
        StartOffersTraced(s, others, from + 1, known);
      }
    }
  }

  lemma MarkTraced(s: State, id: Id, known: set<Envelope>)
    requires StateTraced(s, known)
    ensures StateTraced(s.(starting := s.starting + {id}), known)
  {
    assert SlotTraced(s.self, id, At(s, id), known);
    OnePeerTraced(s, s.(starting := s.starting + {id}), id, known);
  }

  lemma CloseTraced(s: State, ids: set<Id>, known: set<Envelope>)
    requires StateTraced(s, known)
    ensures StateTraced(Close(s, ids), known) && Close(s, ids).self == s.self && Close(s, ids).outbox == s.outbox
  {
    forall id ensures SlotTraced(s.self, id, At(Close(s, ids), id), known) {
      assert SlotTraced(s.self, id, At(s, id), known);
    }
  }

  lemma GatherTraced(s: State, e: Envelope, known: set<Envelope>)
    requires StateTraced(s, known) && e.RtcIce?
    ensures StateTraced(Signal(s, e), known)
  {
    forall id ensures SlotTraced(s.self, id, At(Signal(s, e), id), known) {
      assert SlotTraced(s.self, id, At(s, id), known);
    }
  }

  lemma NewTraced(s: State, known: set<Envelope>)
    requires StateTraced(s, known)
    ensures StateTraced(NewState(s.self, s.outbox), known)
  {
  }

  /** Replacing one state by a traced one that has sent no less keeps the whole network traced. */
  lemma ReplaceTraced(net: Net, at: Id, s: State)
    requires Traced(net) && at in net && s.self == at && (forall e | e in net[at].outbox :: e in s.outbox)
    requires StateTraced(s, OffersIn(net[at := s]))
    ensures Traced(net[at := s])
  {
    KnownGrow(net, at, s);
    forall d | d in net && d != at ensures StateTraced(net[d], OffersIn(net[at := s])) {
      MoreKnown(net[d], OffersIn(net), OffersIn(net[at := s]));
    }
  }

  lemma KnownGrow(net: Net, at: Id, s: State)
    requires at in net && forall e | e in net[at].outbox :: e in s.outbox
    ensures OffersIn(net) <= OffersIn(net[at := s])
    ensures forall e | e in s.outbox && e.RtcOffer? :: e in OffersIn(net[at := s])
  {
    var net' := net[at := s];
    forall e | e in OffersIn(net) ensures e in OffersIn(net') {
      var d :| d in net && e in net[d].outbox;
      assert d in net' && e in net'[d].outbox;
    }
    assert at in net' && net'[at] == s;
  }

  lemma SentIsKept(s: State, id: Id, o: Outcome)
    requires Queue(s.chain, id) != []
    ensures forall e | e in Sends(s, id, Queue(s.chain, id)[0], o) :: e in RunChain(s, id, o).outbox
  {
  }

  lemma TurnTraced(net: Net, at: Id, peer: Id, o: Outcome)
    requires Traced(net) && at in net
    ensures Traced(net[at := RunChain(net[at], peer, o)])
  {
    var s, s' := net[at], RunChain(net[at], peer, o);
    if Queue(s.chain, peer) != [] {
      var sent := Sends(s, peer, Queue(s.chain, peer)[0], o);
      MoreKnown(s, OffersIn(net), OffersIn(net) + sent);
      RunChainTraced(s, peer, o, OffersIn(net) + sent);
      SentIsKept(s, peer, o);
      hide StateTraced, RunChain;
      KnownGrow(net, at, s');
      MoreKnown(s', OffersIn(net) + sent, OffersIn(net[at := s']));
      ReplaceTraced(net, at, s');
    } else {
      assert net[at := s'] == net;
    }
  }

  lemma SameKnown(net: Net, at: Id, s: State)
    requires Traced(net) && at in net && s.self == at && (forall e | e in net[at].outbox :: e in s.outbox)
    requires StateTraced(s, OffersIn(net))
    ensures Traced(net[at := s])
  {
    KnownGrow(net, at, s);
    MoreKnown(s, OffersIn(net), OffersIn(net[at := s]));
    ReplaceTraced(net, at, s);
  }

  lemma StepTraced(net: Net, step: Step)
    requires Traced(net) && Admissible(net, step)
    ensures Traced(Next(net, step))
  {
    hide StateTraced, SlotTraced, At, Close, RunChain, StartOffers;
    var known := OffersIn(net);
    match step
    case Presence(at, devices) =>
      var others := Others(net[at].self, devices);
      StartOffersTraced(net[at], others, 0, known);
      var started := StartOffers(net[at], others, 0);
      CloseTraced(started, Gone(started.peers, others), known);
      SameKnown(net, at, OnPresence(net[at], devices));
    case Deliver(e) =>
      DeliveredTraced(net, e);
      EnqueueTraced(net[e.to], e.from, OpOf(e), known);
      SameKnown(net, e.to, OnSignal(net[e.to], e));
    case Turn(at, peer, outcome) => TurnTraced(net, at, peer, outcome);
    case Gather(at, peer, candidate) =>
      GatherTraced(net[at], RtcIce(at, peer, candidate), known);
      SameKnown(net, at, Signal(net[at], RtcIce(at, peer, candidate)));
    case Leave(at) =>
      CloseTraced(net[at], net[at].peers.Keys, known);
      SameKnown(net, at, Close(net[at], net[at].peers.Keys));
    case Reload(at) =>
      NewTraced(net[at], known);
      SameKnown(net, at, NewState(at, net[at].outbox));
  }

  lemma DeliveredTraced(net: Net, e: Envelope)
    requires Traced(net) && e.from in net && e.to in net && e in net[e.from].outbox
    ensures OpTraced(e.to, e.from, OpOf(e), OffersIn(net))
  {
    assert SentTraced(e.from, e, OffersIn(net));
  }

  lemma {:induction false} RunTraced(net: Net, steps: seq<Step>)
    requires Traced(net) && AdmissibleRun(net, steps)
    ensures Traced(Run(net, steps))
    decreases |steps|
  {
    hide Traced, Next, Admissible;
    if steps != [] {
      StepTraced(net, steps[0]);
      RunTraced(Next(net, steps[0]), steps[1..]);
    }
  }

  /** In every reachable network each applied answer was made for an offer that was sent, to that peer. */
  lemma ReachableIsTraced(ids: set<Id>, steps: seq<Step>)
    requires AdmissibleRun(FreshNet(ids), steps)
    ensures Inv(Run(FreshNet(ids), steps)) && Traced(Run(FreshNet(ids), steps))
  {
    FreshIsFine(ids);
    RunKeeps(FreshNet(ids), steps);
    FreshIsTraced(ids);
    RunTraced(FreshNet(ids), steps);
  }

  lemma FreshIsTraced(ids: set<Id>)
    ensures Traced(FreshNet(ids))
  {
  }

  // ---- the first connection

  function ToPeer(p: Id): Envelope -> bool { (e: Envelope) => e.RtcOffer? && e.to == p }

  lemma {:induction false} OneOfferOnly(outbox: seq<Envelope>, p: Id, a: Envelope, b: Envelope)
    requires OffersTo(outbox, p) <= 1 && a in outbox && b in outbox && ToPeer(p)(a) && ToPeer(p)(b)
    ensures a == b
  {
    FilterMembers(outbox, (e: Envelope) => e.RtcOffer? && e.to == p);
  }

  /** An offer of d to p that anybody sent is in d's own outbox. */
  lemma OwnOffer(net: Net, d: Id, p: Id, sdp: Sdp)
    requires Inv(net) && RtcOffer(d, p, sdp) in OffersIn(net)
    ensures d in net && RtcOffer(d, p, sdp) in net[d].outbox
  {
    var at :| at in net && RtcOffer(d, p, sdp) in net[at].outbox;
    assert OutboxFine(net[at]);
  }

  /**
   * From a point where d has never sent p an offer, the answer d applies during that lifetime was made for its own offer,
   * whatever the network delays, repeats or reorders.
   */
  lemma FirstConnectionFits(net: Net, steps: seq<Step>, d: Id, p: Id)
    requires Inv(net) && Traced(net) && AdmissibleRun(net, steps) && d in net && Lives(net, steps, d, p)
    requires p !in net[d].peers && OffersTo(net[d].outbox, p) == 0
    ensures Fits(Run(net, steps), d, p)
  {
    hide Next, Admissible, Lives, OffersTo, StateFine, OffersIn;
    LifetimeOffers(net, steps, d, p);
    RunKeeps(net, steps);
    RunTraced(net, steps);
    var net' := Run(net, steps);
    if p in net'[d].peers && net'[d].peers[p].answered.Some? {
      var peer := net'[d].peers[p];
      assert SlotTraced(d, p, At(net'[d], p), OffersIn(net'));
      assert StateFine(net'[d]);
      OfferCounts(net'[d], p);
      OwnOffer(net', d, p, peer.answered.value);
      SomeOffer(net'[d].outbox, RtcOffer(d, p, peer.answered.value), p);
      OwnOffer(net', d, p, peer.offered.value);
      OneOfferOnly(net'[d].outbox, p, RtcOffer(d, p, peer.answered.value), RtcOffer(d, p, peer.offered.value));
    }
  }

  lemma OfferCounts(s: State, p: Id)
    requires StateFine(s) && p in s.peers
    ensures s.peers[p].offers <= 1
  {
    assert SlotFine(s.self, p, At(s, p));
  }

  lemma SomeOffer(outbox: seq<Envelope>, e: Envelope, p: Id)
    requires e in outbox && ToPeer(p)(e)
    ensures OffersTo(outbox, p) >= 1
  {
    FilterMembers(outbox, (e: Envelope) => e.RtcOffer? && e.to == p);
  }

  // ---- exactly when every continuation fits

  /** What d can look up: every offer it ever sent p is the one its present connection sent. */
  predicate OnlyOwnOffers(s: State, p: Id)
    requires p in s.peers
  {
    forall e | e in s.outbox && e.RtcOffer? && e.to == p :: s.peers[p].offered == Some(e.sdp)
  }

  /** While a connection lives it keeps its offer and sends no other. */
  lemma PerformKeepsOffer(s: State, id: Id, op: Op, o: Outcome, p: Id)
    requires p in s.peers
    ensures var s' := Perform(s, id, op, o);
            && p in s'.peers && s'.peers[p].offered == s.peers[p].offered
            && forall e | e in s'.outbox && e.RtcOffer? && e.to == p :: e in s.outbox
  {
    match op
    case DoOffer =>
    case DoAcceptOffer(sdp) => AcceptOfferKeepsOffer(s, id, sdp, o, p);
    case DoAcceptAnswer(sdp, re) =>
    case DoApplyIce(candidate) =>
  }

  lemma AcceptOfferKeepsOffer(s: State, id: Id, sdp: Sdp, o: Outcome, p: Id)
    requires p in s.peers
    ensures var s' := AcceptOffer(s, id, sdp, o);
            && p in s'.peers && s'.peers[p].offered == s.peers[p].offered
            && (s'.outbox == s.outbox || (o.Works? && s'.outbox == s.outbox + [RtcAnswer(s.self, id, o.sdp, sdp)]))
  {
  }

  lemma StepKeepsOffer(net: Net, step: Step, d: Id, p: Id)
    requires Admissible(net, step) && d in net && p in net[d].peers && !Ends(net, step, d, p)
    ensures d in Next(net, step)
    ensures var s' := Next(net, step)[d];
            && p in s'.peers && s'.peers[p].offered == net[d].peers[p].offered
            && forall e | e in s'.outbox && e.RtcOffer? && e.to == p :: e in net[d].outbox
  {
    hide Perform, StartOffers;
    match step
    case Presence(at, devices) =>
      StartOffersDue(net[at], Others(net[at].self, devices), 0, p);
    case Turn(at, peer, outcome) =>
      var s := net[at];
      if at == d && Queue(s.chain, peer) != [] {
        PerformKeepsOffer(s.(chain := s.chain[peer := s.chain[peer][1..]]), peer, s.chain[peer][0], outcome, p);
      }
    case _ =>
  }

  lemma {:induction false} LivingKeepsOffer(net: Net, steps: seq<Step>, d: Id, p: Id)
    requires AdmissibleRun(net, steps) && d in net && Lives(net, steps, d, p) && p in net[d].peers && OnlyOwnOffers(net[d], p)
    ensures d in Run(net, steps) && p in Run(net, steps)[d].peers && OnlyOwnOffers(Run(net, steps)[d], p)
    decreases |steps|
  {
    if steps != [] {
      Unfold(net, steps, d, p);
      StepKeepsOffer(net, steps[0], d, p);
      hide Next, Admissible, Lives, Ends;
      LivingKeepsOffer(Next(net, steps[0]), steps[1..], d, p);
    }
  }

  lemma OwnOffersFit(net: Net, d: Id, p: Id)
    requires Inv(net) && Traced(net) && d in net && p in net[d].peers && OnlyOwnOffers(net[d], p)
    ensures Fits(net, d, p)
  {
    var peer := net[d].peers[p];
    if peer.answered.Some? {
      assert SlotTraced(d, p, At(net[d], p), OffersIn(net));
      OwnOffer(net, d, p, peer.answered.value);
    }
  }

  lemma {:induction false} LivesOn(start: Net, steps: seq<Step>, step: Step, d: Id, p: Id)
    requires AdmissibleRun(start, steps + [step]) && AdmissibleRun(start, steps) && d in start && Lives(start, steps, d, p)
    requires Admissible(Run(start, steps), step) && d in Run(start, steps) && !Ends(Run(start, steps), step, d, p)
    ensures Lives(start, steps + [step], d, p)
    decreases |steps|
  {
    if steps == [] {
      assert [] + [step] == [step] && [step][1..] == [];
    } else {
      NextKeys(start, steps[0]);
      hide Next, Admissible, Ends;
      assert (steps + [step])[1..] == steps[1..] + [step] && (steps + [step])[0] == steps[0];
      LivesOn(Next(start, steps[0]), steps[1..], step, d, p);
    }
  }

  /** One more step of a run that spares p's lifetime on d. */
  lemma ThenLiving(start: Net, steps: seq<Step>, step: Step, d: Id, p: Id) returns (more: seq<Step>)
    requires AdmissibleRun(start, steps) && Admissible(Run(start, steps), step) && d in start && Lives(start, steps, d, p)
    requires d in Run(start, steps) && !Ends(Run(start, steps), step, d, p)
    ensures AdmissibleRun(start, more) && Lives(start, more, d, p) && Run(start, more) == Next(Run(start, steps), step)
  {
    more := steps + [step];
    OneMore(start, steps, step);
    LivesOn(start, steps, step, d, p);
  }

  /** The waiting connection to p on d, whatever is still queued for it. */
  predicate Waiting(net: Net, d: Id, p: Id, offered: Option<Sdp>) {
    d in net && p in net[d].peers && net[d].peers[p].state.HaveLocalOffer? && net[d].peers[p].offered == offered
  }

  lemma TurnThrows(s: State, p: Id)
    requires StateFine(s) && Queue(s.chain, p) != [] && p in s.peers && s.peers[p].state.HaveLocalOffer?
    ensures var s' := RunChain(s, p, Throws);
            && p in s'.peers && s'.peers[p].state.HaveLocalOffer? && s'.peers[p].offered == s.peers[p].offered
            && Queue(s'.chain, p) == Queue(s.chain, p)[1..]
  {
    assert SlotFine(s.self, p, At(s, p));
    assert Queue(s.chain, p)[0] in At(s, p).queue;
  }

  /** The operations queued for a waiting connection can all run without changing it. */
  lemma {:induction false} Drain(start: Net, steps: seq<Step>, d: Id, p: Id, offered: Option<Sdp>) returns (more: seq<Step>)
    requires Inv(start) && AdmissibleRun(start, steps) && d in start && Lives(start, steps, d, p) && d != p
    requires Waiting(Run(start, steps), d, p, offered) && p in Run(start, steps)
    ensures AdmissibleRun(start, more) && Lives(start, more, d, p) && Waiting(Run(start, more), d, p, offered)
    ensures Queue(Run(start, more)[d].chain, p) == []
    ensures p in Run(start, more) && Run(start, more)[p] == Run(start, steps)[p]
    decreases |Queue(Run(start, steps)[d].chain, p)|
  {
    var net := Run(start, steps);
    if Queue(net[d].chain, p) == [] {
      more := steps;
    } else {
      RunKeeps(start, steps);
      TurnThrows(net[d], p);
      var next := ThenLiving(start, steps, Turn(d, p, Throws), d, p);
      hide RunChain, Run, AdmissibleRun, Lives, Inv;
      more := Drain(start, next, d, p, offered);
    }
  }

  /** A reloaded device that receives an old offer answers it. */
  lemma ReloadedAnswers(self: Id, outbox: seq<Envelope>, d: Id, sdp: Sdp)
    ensures RtcAnswer(self, d, 0, sdp) in RunChain(OnSignal(NewState(self, outbox), RtcOffer(d, self, sdp)), d, Works(0)).outbox
  {
    var s := OnSignal(NewState(self, outbox), RtcOffer(d, self, sdp));
    assert s.chain == map[d := [DoAcceptOffer(sdp)]] by {
      assert [] + [DoAcceptOffer(sdp)] == [DoAcceptOffer(sdp)];
    }
    assert RunChain(s, d, Works(0)).outbox == outbox + [RtcAnswer(self, d, 0, sdp)];
  }

  lemma WaitingTakes(s: State, p: Id, re: Sdp)
    requires p in s.peers && s.peers[p].state.HaveLocalOffer? && Queue(s.chain, p) == []
    ensures var s' := RunChain(OnSignal(s, RtcAnswer(p, s.self, 0, re)), p, NoSdp);
            p in s'.peers && s'.peers[p].answered == Some(re) && s'.peers[p].offered == s.peers[p].offered
  {
    var s1 := OnSignal(s, RtcAnswer(p, s.self, 0, re));
    assert [] + [DoAcceptAnswer(0, re)] == [DoAcceptAnswer(0, re)];
    assert Queue(s1.chain, p) == [DoAcceptAnswer(0, re)];
  }

  /** The peer reloads and answers an old offer, while the waiting connection stays as it is. */
  lemma OldOfferAnswered(net: Net, d: Id, p: Id, sdp: Sdp) returns (steps: seq<Step>)
    requires d in net && p in net && d != p && RtcOffer(d, p, sdp) in net[d].outbox
    ensures AdmissibleRun(net, steps) && Lives(net, steps, d, p)
    ensures var net' := Run(net, steps);
            d in net' && p in net' && net'[d] == net[d] && RtcAnswer(p, d, 0, sdp) in net'[p].outbox
  {
    hide RunChain, OnSignal, Run, AdmissibleRun, Lives;
    steps := Nothing(net, d, p);
    steps := ThenLiving(net, steps, Reload(p), d, p);
    steps := ThenLiving(net, steps, Deliver(RtcOffer(d, p, sdp)), d, p);
    ReloadedAnswers(p, net[p].outbox, d, sdp);
    steps := ThenLiving(net, steps, Turn(p, d, Works(0)), d, p);
  }

  /** One older offer is enough: the waiting connection takes the answer to it. */
  lemma OlderOfferMisfits(net: Net, d: Id, p: Id, sdp: Sdp) returns (steps: seq<Step>)
    requires Inv(net) && d in net && p in net && d != p && p in net[d].peers && net[d].peers[p].state.HaveLocalOffer?
    requires RtcOffer(d, p, sdp) in net[d].outbox && net[d].peers[p].offered != Some(sdp)
    ensures AdmissibleRun(net, steps) && Lives(net, steps, d, p) && !Fits(Run(net, steps), d, p)
  {
    hide RunChain, OnSignal, Run, AdmissibleRun, Lives, StateFine;
    steps := OldOfferAnswered(net, d, p, sdp);
    steps := Drain(net, steps, d, p, net[d].peers[p].offered);
    RunKeeps(net, steps);
    WaitingTakes(Run(net, steps)[d], p, sdp);
    steps := ThenLiving(net, steps, Deliver(RtcAnswer(p, d, 0, sdp)), d, p);
    steps := ThenLiving(net, steps, Turn(d, p, NoSdp), d, p);
  }

  lemma Nothing(net: Net, d: Id, p: Id) returns (steps: seq<Step>)
    requires d in net
    ensures steps == [] && AdmissibleRun(net, steps) && Run(net, steps) == net && Lives(net, steps, d, p)
  {
    steps := [];
  }

  /**
   * Exactly when a waiting connection is safe from foreign answers: in every continuation of its lifetime the answer it
   * takes was made for its own offer, if and only if every offer d ever sent that peer is the one this connection sent.
   */
  lemma AnswersFitIff(net: Net, d: Id, p: Id)
    requires Inv(net) && Traced(net) && d in net && p in net
    requires p in net[d].peers && net[d].peers[p].state.HaveLocalOffer?
    ensures (forall steps | AdmissibleRun(net, steps) && Lives(net, steps, d, p) :: Fits(Run(net, steps), d, p))
            <==> OnlyOwnOffers(net[d], p)
  {
    hide AdmissibleRun, Run, Lives, StateFine, StateTraced;
    if OnlyOwnOffers(net[d], p) {
      forall steps | AdmissibleRun(net, steps) && Lives(net, steps, d, p) ensures Fits(Run(net, steps), d, p) {
        LivingKeepsOffer(net, steps, d, p);
        RunKeeps(net, steps);
        RunTraced(net, steps);
        OwnOffersFit(Run(net, steps), d, p);
      }
    } else {
      var e :| e in net[d].outbox && e.RtcOffer? && e.to == p && net[d].peers[p].offered != Some(e.sdp);
      SentByItself(net, d, e);
      WaitingIsSmaller(net, d, p);
      var steps := OlderOfferMisfits(net, d, p, e.sdp);
    }
  }

  lemma WaitingIsSmaller(net: Net, d: Id, p: Id)
    requires Inv(net) && d in net && p in net[d].peers && net[d].peers[p].state.HaveLocalOffer?
    ensures d < p
  {
    assert SlotFine(d, p, At(net[d], p));
  }

  lemma SentByItself(net: Net, d: Id, e: Envelope)
    requires Inv(net) && d in net && e in net[d].outbox
    ensures e.from == d
  {
    assert OutboxFine(net[d]);
  }

  // ---- a run in which it happens

  function Offering(sdp: Sdp): Peer { Peer(HaveLocalOffer, None, [], 1, 0, Some(sdp), None) }

  const FIRST_OFFER := RtcOffer(1, 2, 10)
  const SECOND_OFFER := RtcOffer(1, 2, 11)
  const ANSWER := RtcAnswer(2, 1, 20, 10)

  /** Device 1, about to offer after earlier messages, then offering, then with the queued operation left. */
  function One(offering: Option<Sdp>, queue: seq<Op>, outbox: seq<Envelope>): State {
    State(1, if offering.Some? then map[2 := Offering(offering.value)] else map[], {}, map[2 := queue], map[], outbox, map[])
  }

  lemma PresenceStarts(s: State)
    requires s == NewState(1, []) || s == One(None, [], [FIRST_OFFER])
    ensures OnPresence(s, [1, 2]) == One(None, [DoOffer], s.outbox).(starting := {2})
  {
    assert [1, 2][1..] == [2] && [2][1..] == [];
    assert Others(1, [1, 2]) == [2];
    assert {} + {2} == {2} && [] + [DoOffer] == [DoOffer];
    var started := Enqueue(s.(starting := {2}), 2, DoOffer);
    assert started == One(None, [DoOffer], s.outbox).(starting := {2});
    assert StartOffers(s, [2], 0) == started;
    assert Gone(started.peers, [2]) == {};
    CloseNone(started);
  }

  lemma TurnOffersNow(outbox: seq<Envelope>, sdp: Sdp)
    ensures RunChain(One(None, [DoOffer], outbox).(starting := {2}), 2, Works(sdp)) == One(Some(sdp), [], outbox + [RtcOffer(1, 2, sdp)])
  {
    assert [DoOffer][1..] == [];
  }

  lemma PresenceCloses(sdp: Sdp, outbox: seq<Envelope>)
    ensures OnPresence(One(Some(sdp), [], outbox), [1]) == One(None, [], outbox)
  {
    assert [1][1..] == [] && Others(1, [1]) == [];
    assert Gone(map[2 := Offering(sdp)], []) == {2};
  }

  lemma SecondAnswers()
    ensures RunChain(OnSignal(NewState(2, []), FIRST_OFFER), 1, Works(20)).outbox == [ANSWER]
  {
    assert [] + [DoAcceptOffer(10)] == [DoAcceptOffer(10)] && [] + [ANSWER] == [ANSWER];
    assert OnSignal(NewState(2, []), FIRST_OFFER).chain == map[1 := [DoAcceptOffer(10)]];
  }

  lemma AnswerLands(sdp: Sdp, outbox: seq<Envelope>)
    ensures var s := RunChain(OnSignal(One(Some(sdp), [], outbox), ANSWER), 2, NoSdp);
            2 in s.peers && s.peers[2].offered == Some(sdp) && s.peers[2].answered == Some(10)
            && s.peers[2].remote == Some(Description(false, 20)) && s.outbox == outbox
  {
    assert [] + [DoAcceptAnswer(20, 10)] == [DoAcceptAnswer(20, 10)];
    assert OnSignal(One(Some(sdp), [], outbox), ANSWER).chain == map[2 := [DoAcceptAnswer(20, 10)]];
  }

  /**
   * A late answer is applied to the wrong offer. The answer to a closed connection's offer 10 arrives once the next
   * connection has offered 11, and becomes its remote description.
   */
  lemma LateAnswerIsApplied() returns (steps: seq<Step>)
    ensures AdmissibleRun(FreshNet({1, 2}), steps)
    ensures var net := Run(FreshNet({1, 2}), steps);
            && 1 in net && 2 in net && net[1].outbox == [FIRST_OFFER, SECOND_OFFER] && net[2].outbox == [ANSWER]
            && 2 in net[1].peers && net[1].peers[2].remote == Some(Description(false, 20)) && !Fits(net, 1, 2)
  {
    hide OnPresence, OnSignal, RunChain, Run, AdmissibleRun;
    var start := FreshNet({1, 2});
    var one, two := NewState(1, []), NewState(2, []);
    assert [] + [FIRST_OFFER] == [FIRST_OFFER] && [FIRST_OFFER] + [SECOND_OFFER] == [FIRST_OFFER, SECOND_OFFER];
    steps := Begin(start);
    PresenceStarts(one);
    steps := Then(start, steps, Presence(1, [1, 2]));
    TurnOffersNow([], 10);
    steps := Then(start, steps, Turn(1, 2, Works(10)));
    assert Run(start, steps)[1] == One(Some(10), [], [FIRST_OFFER]) && Run(start, steps)[2] == two;
    SecondAnswers();
    steps := Then(start, steps, Deliver(FIRST_OFFER));
    steps := Then(start, steps, Turn(2, 1, Works(20)));
    assert Run(start, steps)[1] == One(Some(10), [], [FIRST_OFFER]) && Run(start, steps)[2].outbox == [ANSWER];
    steps := SecondLifetime(start, steps);
  }

  lemma Begin(start: Net) returns (steps: seq<Step>)
    ensures steps == [] && AdmissibleRun(start, steps) && Run(start, steps) == start
  {
    steps := [];
  }

  lemma SecondLifetime(start: Net, before: seq<Step>) returns (steps: seq<Step>)
    requires AdmissibleRun(start, before)
    requires var net := Run(start, before);
             1 in net && 2 in net && net[1] == One(Some(10), [], [FIRST_OFFER]) && net[2].outbox == [ANSWER]
    ensures AdmissibleRun(start, steps)
    ensures var net := Run(start, steps);
            && 1 in net && 2 in net && net[1].outbox == [FIRST_OFFER, SECOND_OFFER] && net[2].outbox == [ANSWER]
            && 2 in net[1].peers && net[1].peers[2].remote == Some(Description(false, 20)) && !Fits(net, 1, 2)
  {
    hide OnPresence, OnSignal, RunChain, Run, AdmissibleRun;
    assert [FIRST_OFFER] + [SECOND_OFFER] == [FIRST_OFFER, SECOND_OFFER];
    PresenceCloses(10, [FIRST_OFFER]);
    steps := Then(start, before, Presence(1, [1]));
    PresenceStarts(One(None, [], [FIRST_OFFER]));
    steps := Then(start, steps, Presence(1, [1, 2]));
    TurnOffersNow([FIRST_OFFER], 11);
    steps := Then(start, steps, Turn(1, 2, Works(11)));
    assert Run(start, steps)[1] == One(Some(11), [], [FIRST_OFFER, SECOND_OFFER]) && Run(start, steps)[2].outbox == [ANSWER];
    AnswerLands(11, [FIRST_OFFER, SECOND_OFFER]);
    steps := Then(start, steps, Deliver(ANSWER));
    steps := Then(start, steps, Turn(1, 2, NoSdp));
  }

  lemma Then(start: Net, steps: seq<Step>, step: Step) returns (more: seq<Step>)
    requires AdmissibleRun(start, steps) && Admissible(Run(start, steps), step)
    ensures more == steps + [step] && AdmissibleRun(start, more) && Run(start, more) == Next(Run(start, steps), step)
  {
    OneMore(start, steps, step);
    more := steps + [step];
  }
}
