/** What signalling guarantees whatever the network does. */
module MeshPromises {
  import opened Wrappers
  import opened Rows
  import opened IceBuffers
  import opened Mesh
  import opened MeshRuns

  /**
   * No glare. In every run offers go from the smaller id to the larger and answers back, the larger end is never in
   * have-local-offer, so the two ends never both are, and a connection sends one offer and applies one answer at most.
   */
  lemma NoGlare(ids: set<Id>, steps: seq<Step>, a: Id, b: Id)
    requires AdmissibleRun(FreshNet(ids), steps) && a in ids && b in ids && a < b
    ensures var net := Run(FreshNet(ids), steps);
            && a in net && b in net
            && (forall e | e in net[a].outbox :: e.from == a && RightWay(e))
            && (forall e | e in net[b].outbox :: e.from == b && RightWay(e))
            && (forall e | e in net[a].outbox && e.to == b :: !e.RtcAnswer?)
            && (forall e | e in net[b].outbox && e.to == a :: !e.RtcOffer?)
            && (a in net[b].peers ==> !net[b].peers[a].state.HaveLocalOffer? && net[b].peers[a].offers == 0)
            && (b in net[a].peers ==> !net[a].peers[b].state.HaveRemoteOffer?
                                      && net[a].peers[b].offers <= 1 && net[a].peers[b].answers <= 1)
  {
    hide Next, Admissible;
    FreshIsFine(ids);
    RunKeeps(FreshNet(ids), steps);
    var net := Run(FreshNet(ids), steps);
    assert SlotFine(a, b, At(net[a], b)) && SlotFine(b, a, At(net[b], a));
  }

  /** At every point, per peer: the candidates handed over, then the buffered, are those processed since its last close. */
  lemma CandidatesKept(ids: set<Id>, steps: seq<Step>, d: Id, p: Id)
    requires AdmissibleRun(FreshNet(ids), steps) && d in ids
    ensures var net := Run(FreshNet(ids), steps);
            && d in net
            && var s := net[d];
            && (p in s.peers ==> s.peers[p].handed + Buffered(s.pending, p) == Buffered(s.seen, p))
            && (p !in s.peers ==> Buffered(s.pending, p) == Buffered(s.seen, p))
            && (p in s.peers && s.peers[p].remote.None? ==> s.peers[p].handed == [])
            && (p in s.peers && s.peers[p].remote.Some? ==> Buffered(s.pending, p) == [])
  {
    hide Next, Admissible;
    FreshIsFine(ids);
    RunKeeps(FreshNet(ids), steps);
    var net := Run(FreshNet(ids), steps);
    assert SlotFine(d, p, At(net[d], p));
    assert Buffered(net[d].pending, p) == [] + Buffered(net[d].pending, p);
  }

  // ---- from arrival to the connection

  function Real(candidate: Candidate): seq<Candidate> { if candidate.line == "" then [] else [candidate] }

  /** The non-empty candidates among the queued operations. */
  function Queued(ops: seq<Op>): seq<Candidate> {
    if ops == [] then [] else (if ops[0].DoApplyIce? then Real(ops[0].candidate) else []) + Queued(ops[1..])
  }

  /** Processed since the last close, then still in the chain. */
  function Due(s: State, p: Id): seq<Candidate> { Buffered(s.seen, p) + Queued(Queue(s.chain, p)) }

  function OffersTo(outbox: seq<Envelope>, p: Id): nat { |Filter(outbox, (e: Envelope) => e.RtcOffer? && e.to == p)| }

  function OffersOf(s: State, p: Id): nat { if p in s.peers then s.peers[p].offers else 0 }

  /** The step ends p's lifetime on d. */
  predicate Ends(net: Net, step: Step, d: Id, p: Id)
    requires Admissible(net, step) && d in net
  {
    match step
    case Presence(at, devices) => at == d && p in net[d].peers && p !in Others(net[d].self, devices)
    case Leave(at) => at == d && p in net[d].peers
    case Reload(at) => at == d
    case _ => false
  }

  function ArrivesBy(step: Step, d: Id, p: Id): seq<Candidate> {
    if step.Deliver? && step.e.RtcIce? && step.e.to == d && step.e.from == p then Real(step.e.candidate) else []
  }

  lemma {:induction false} QueuedAppend(ops: seq<Op>, op: Op)
    ensures Queued(ops + [op]) == Queued(ops) + (if op.DoApplyIce? then Real(op.candidate) else [])
  {
    if ops == [] {
      assert [] + [op] == [op];
    } else {
      assert (ops + [op])[1..] == ops[1..] + [op] && (ops + [op])[0] == ops[0];
      QueuedAppend(ops[1..], op);
      var first := if ops[0].DoApplyIce? then Real(ops[0].candidate) else [];
      var last := if op.DoApplyIce? then Real(op.candidate) else [];
      assert first + (Queued(ops[1..]) + last) == (first + Queued(ops[1..])) + last;
    }
  }

  lemma EnqueueDue(s: State, id: Id, op: Op, p: Id)
    ensures Due(Enqueue(s, id, op), p) == Due(s, p) + (if id == p && op.DoApplyIce? then Real(op.candidate) else [])
  {
    QueuedAppend(Queue(s.chain, id), op);
  }

  lemma TurnDue(s: State, id: Id, o: Outcome, p: Id)
    ensures Due(RunChain(s, id, o), p) == Due(s, p)
  {
    var ops := Queue(s.chain, id);
    if ops != [] {
      var rest := s.(chain := s.chain[id := s.chain[id][1..]]);
      SeenBy(rest, id, ops[0], o, p);
      hide Perform;
      if p == id {
        var first := if ops[0].DoApplyIce? then Real(ops[0].candidate) else [];
        assert (Buffered(s.seen, p) + first) + Queued(ops[1..]) == Buffered(s.seen, p) + (first + Queued(ops[1..]));
      }
    }
  }

  lemma SeenBy(s: State, id: Id, op: Op, o: Outcome, p: Id)
    ensures Perform(s, id, op, o).chain == s.chain
    ensures Buffered(Perform(s, id, op, o).seen, p)
            == Buffered(s.seen, p) + (if p == id && op.DoApplyIce? then Real(op.candidate) else [])
  {
    if !op.DoApplyIce? {
      OnlyIceIsSeen(s, id, op, o);
    }
  }

  lemma OnlyIceIsSeen(s: State, id: Id, op: Op, o: Outcome)
    requires !op.DoApplyIce?
    ensures Perform(s, id, op, o).seen == s.seen && Perform(s, id, op, o).chain == s.chain
  {
  }

  lemma TurnOffers(s: State, id: Id, o: Outcome, p: Id)
    ensures var s' := RunChain(s, id, o);
            OffersTo(s'.outbox, p) - OffersOf(s', p) == OffersTo(s.outbox, p) - OffersOf(s, p)
  {
    hide Filter;
    if Queue(s.chain, id) != [] {
      var rest := s.(chain := s.chain[id := s.chain[id][1..]]);
      PerformOffers(rest, id, s.chain[id][0], o, p);
    }
  }

  lemma PerformOffers(s: State, id: Id, op: Op, o: Outcome, p: Id)
    ensures var s' := Perform(s, id, op, o);
            OffersTo(s'.outbox, p) - OffersOf(s', p) == OffersTo(s.outbox, p) - OffersOf(s, p)
  {
    if o.Works? {
      SentOffers(s.outbox, RtcOffer(s.self, id, o.sdp), p);
    }
    hide OffersTo;
    match op
    case DoOffer =>
    case DoAcceptOffer(sdp) => AcceptOfferOffers(s, id, sdp, o, p);
    case DoAcceptAnswer(sdp, re) =>
    case DoApplyIce(candidate) =>
  }

  lemma AcceptOfferOffers(s: State, id: Id, sdp: Sdp, o: Outcome, p: Id)
    ensures var s' := AcceptOffer(s, id, sdp, o);
            && OffersOf(s', p) == OffersOf(s, p) && OffersTo(s'.outbox, p) == OffersTo(s.outbox, p)
  {
    hide OffersTo;
    if o.Works? {
      SentOffers(s.outbox, RtcAnswer(s.self, id, o.sdp, sdp), p);
    }
  }

  lemma SentOffers(outbox: seq<Envelope>, e: Envelope, p: Id)
    ensures OffersTo(outbox + [e], p) == OffersTo(outbox, p) + if e.RtcOffer? && e.to == p then 1 else 0
  {
    FilterAppend(outbox, [e], (e: Envelope) => e.RtcOffer? && e.to == p);
  }

  lemma {:induction false} StartOffersDue(s: State, others: seq<Id>, from: nat, p: Id)
    requires from <= |others|
    ensures var s' := StartOffers(s, others, from);
            Due(s', p) == Due(s, p) && s'.outbox == s.outbox && s'.peers == s.peers && s'.seen == s.seen
    decreases |others| - from
  {
    if from < |others| {
      var id := others[from];
      if id !in s.peers && id !in s.starting && s.self < id {
        var started := s.(starting := s.starting + {id});
        EnqueueDue(started, id, DoOffer, p);
        StartOffersDue(Enqueue(started, id, DoOffer), others, from + 1, p);
      } else {
        StartOffersDue(s, others, from + 1, p);
      }
    }
  }

  lemma CloseDue(s: State, ids: set<Id>, p: Id)
    requires p !in ids
    ensures Due(Close(s, ids), p) == Due(s, p) && Close(s, ids).outbox == s.outbox && OffersOf(Close(s, ids), p) == OffersOf(s, p)
  {
  }

  lemma StepDue(net: Net, step: Step, d: Id, p: Id)
    requires Admissible(net, step) && d in net && !Ends(net, step, d, p)
    ensures var s, s' := net[d], Next(net, step)[d];
            && Due(s', p) == Due(s, p) + ArrivesBy(step, d, p)
            && OffersTo(s'.outbox, p) - OffersOf(s', p) == OffersTo(s.outbox, p) - OffersOf(s, p)
  {
    hide Due, OffersTo, RunChain, StartOffers, Close;
    assert Due(net[d], p) + [] == Due(net[d], p);
    match step
    case Presence(at, devices) =>
      if at == d {
        var others := Others(net[d].self, devices);
        StartOffersDue(net[d], others, 0, p);
        CloseDue(StartOffers(net[d], others, 0), Gone(StartOffers(net[d], others, 0).peers, others), p);
      }
    case Deliver(e) =>
      EnqueueDue(net[e.to], e.from, OpOf(e), p);
    case Turn(at, peer, outcome) =>
      TurnDue(net[at], peer, outcome, p);
      TurnOffers(net[at], peer, outcome, p);
    case Gather(at, peer, candidate) =>
      SentOffers(net[at].outbox, RtcIce(at, peer, candidate), p);
      SignalDue(net[at], RtcIce(at, peer, candidate), p);
    case Leave(at) =>
      if at == d {
        CloseDue(net[d], net[d].peers.Keys, p);
      }
    case Reload(at) =>
  }

  lemma NextKeys(net: Net, step: Step)
    requires Admissible(net, step)
    ensures Next(net, step).Keys == net.Keys
  {
  }

  lemma SignalDue(s: State, e: Envelope, p: Id)
    ensures Due(Signal(s, e), p) == Due(s, p)
  {
  }

  predicate Lives(net: Net, steps: seq<Step>, d: Id, p: Id)
    requires AdmissibleRun(net, steps) && d in net
    decreases |steps|
  {
    steps == [] || (!Ends(net, steps[0], d, p) && Lives(Next(net, steps[0]), steps[1..], d, p))
  }

  /** The non-empty candidates that reached d from p, in order of arrival. */
  function Arrived(steps: seq<Step>, d: Id, p: Id): seq<Candidate> {
    if steps == [] then [] else ArrivesBy(steps[0], d, p) + Arrived(steps[1..], d, p)
  }

  /**
   * While p's lifetime on d goes on, no candidate is dropped, repeated or reordered on the way from its arrival through
   * the chain.
   */
  lemma {:induction false} LifetimeCandidates(net: Net, steps: seq<Step>, d: Id, p: Id)
    requires AdmissibleRun(net, steps) && d in net && Lives(net, steps, d, p)
    ensures d in Run(net, steps)
    ensures Due(Run(net, steps)[d], p) == Due(net[d], p) + Arrived(steps, d, p)
    decreases |steps|
  {
    hide Due, ArrivesBy, Ends, Next, Admissible, Lives;
    if steps == [] {
      assert Due(net[d], p) + [] == Due(net[d], p);
    } else {
      Unfold(net, steps, d, p);
      StepDue(net, steps[0], d, p);
      LifetimeCandidates(Next(net, steps[0]), steps[1..], d, p);
      Reassociate(Due(net[d], p), ArrivesBy(steps[0], d, p), Arrived(steps[1..], d, p));
    }
  }

  /** While p's lifetime on d goes on, the offers sent are exactly those its connection counts. */
  lemma {:induction false} LifetimeOffers(net: Net, steps: seq<Step>, d: Id, p: Id)
    requires AdmissibleRun(net, steps) && d in net && Lives(net, steps, d, p)
    ensures d in Run(net, steps)
    ensures OffersTo(Run(net, steps)[d].outbox, p) - OffersOf(Run(net, steps)[d], p) == OffersTo(net[d].outbox, p) - OffersOf(net[d], p)
    decreases |steps|
  {
    if steps != [] {
      Unfold(net, steps, d, p);
      StepDue(net, steps[0], d, p);
      hide *;
      LifetimeOffers(Next(net, steps[0]), steps[1..], d, p);
    }
  }

  lemma Unfold(net: Net, steps: seq<Step>, d: Id, p: Id)
    requires AdmissibleRun(net, steps) && d in net && Lives(net, steps, d, p) && steps != []
    ensures Admissible(net, steps[0]) && AdmissibleRun(Next(net, steps[0]), steps[1..])
    ensures d in Next(net, steps[0]) && !Ends(net, steps[0], d, p) && Lives(Next(net, steps[0]), steps[1..], d, p)
    ensures Run(net, steps) == Run(Next(net, steps[0]), steps[1..])
  {
    NextKeys(net, steps[0]);
    hide Next, Admissible, Ends;
  }

  /** Everything that arrived since a connection was unknown and empty is handed over, buffered or queued, in order. */
  lemma EveryCandidateArrives(net: Net, steps: seq<Step>, d: Id, p: Id)
    requires Inv(net) && AdmissibleRun(net, steps) && d in net && Lives(net, steps, d, p)
    requires p !in net[d].peers && Due(net[d], p) == []
    ensures d in Run(net, steps)
    ensures var s := Run(net, steps)[d];
            && (if p in s.peers then s.peers[p].handed else []) + Buffered(s.pending, p) + Queued(Queue(s.chain, p)) == Arrived(steps, d, p)
            && OffersTo(s.outbox, p) <= OffersTo(net[d].outbox, p) + 1
  {
    hide Next, Admissible, Lives, Arrived, OffersTo;
    LifetimeCandidates(net, steps, d, p);
    LifetimeOffers(net, steps, d, p);
    RunKeeps(net, steps);
    var s := Run(net, steps)[d];
    assert SlotFine(d, p, At(s, p));
    assert [] + Arrived(steps, d, p) == Arrived(steps, d, p);
  }
}
