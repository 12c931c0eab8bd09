/** How each operation ends, and that two devices that hear of each other do connect. */
module MeshPresence {
  import opened Wrappers
  import opened Rows
  import opened IceBuffers
  import opened Mesh
  import opened MeshRuns
  import opened MeshPromises
  import opened MeshAnswers

  // ---- how operations end

  /** An offer leaves no mark; to a peer that is known it does nothing, else it makes one, sent an offer exactly if an sdp came out. */
  lemma OfferEnds(s: State, id: Id, o: Outcome)
    ensures var s' := Offer(s, id, o);
            && id !in s'.starting && id in s'.peers
            && (id in s.peers ==> s'.peers == s.peers && s'.outbox == s.outbox)
            && (id !in s.peers ==>
                  && s'.peers[id].remote.None? && s'.peers[id].handed == []
                  && (s'.peers[id].state.HaveLocalOffer? <==> o.NoSdp? || o.Works?)
                  && (s'.peers[id].state.Stable? <==> o.Throws? || o.ThrowsLate?)
                  && s'.outbox == s.outbox + (if o.Works? then [RtcOffer(s.self, id, o.sdp)] else []))
  {
    assert s.outbox + [] == s.outbox;
  }

  /** An offer is taken unless the end is busy or has it already; what was buffered is handed over, and Works answers it. */
  lemma AcceptOfferEnds(s: State, id: Id, sdp: Sdp, o: Outcome)
    ensures var s' := AcceptOffer(s, id, sdp, o);
            var was := if id in s.peers then s.peers[id] else NEW_PEER;
            var takes := was.state.Stable? && was.remote != Some(Description(true, sdp)) && !o.Throws?;
            && id in s'.peers
            && (!takes ==> s'.peers[id] == was && s'.outbox == s.outbox && s'.pending == s.pending)
            && (takes ==>
                  && s'.peers[id].remote == Some(Description(true, sdp)) && id !in s'.pending
                  && s'.peers[id].handed == was.handed + Buffered(s.pending, id)
                  && s'.peers[id].state == (if o.ThrowsLate? then HaveRemoteOffer else Stable)
                  && s'.outbox == s.outbox + (if o.Works? then [RtcAnswer(s.self, id, o.sdp, sdp)] else []))
  {
    assert s.outbox + [] == s.outbox;
  }

  /** The same offer a second time changes nothing, however the browser would have answered it. */
  lemma RepeatedOfferIsIgnored(s: State, id: Id, sdp: Sdp, o: Outcome, again: Outcome)
    requires var was := if id in s.peers then s.peers[id] else NEW_PEER; was.state.Stable? && !o.Throws?
    ensures AcceptOffer(AcceptOffer(s, id, sdp, o), id, sdp, again) == AcceptOffer(s, id, sdp, o)
  {
    var s1 := AcceptOffer(s, id, sdp, o);
    AcceptOfferEnds(s, id, sdp, o);
    assert s1.peers[id := s1.peers[id]] == s1.peers;
    hide TakeRemote, Answered;
  }

  /** An answer is taken exactly while an offer of one's own waits; it ends the wait and hands over what was buffered. */
  lemma AcceptAnswerEnds(s: State, id: Id, sdp: Sdp, re: Sdp, o: Outcome)
    ensures var s' := AcceptAnswer(s, id, sdp, re, o);
            var takes := id in s.peers && s.peers[id].state.HaveLocalOffer? && !o.Throws?;
            && (!takes ==> s' == s)
            && (takes ==>
                  && id in s'.peers && s'.peers[id].state.Stable? && s'.peers[id].remote == Some(Description(false, sdp))
                  && s'.peers[id].handed == s.peers[id].handed + Buffered(s.pending, id) && id !in s'.pending
                  && s'.outbox == s.outbox)
  {
  }

  // ---- two devices connect

  /** Neither of the two knows the other or has anything queued for it. */
  predicate Apart(net: Net, a: Id, b: Id) {
    && 0 < a < b && a in net && b in net && net[a].self == a && net[b].self == b
    && b !in net[a].peers && b !in net[a].starting && Queue(net[a].chain, b) == []
    && a !in net[b].peers && Queue(net[b].chain, a) == []
  }

  /** With one operation queued, the turn is that operation. */
  lemma OnlyOp(s: State, id: Id, op: Op, o: Outcome)
    requires Queue(s.chain, id) == [op]
    ensures RunChain(s, id, o) == Perform(s.(chain := s.chain[id := []]), id, op, o)
  {
    hide Perform;
    assert s.chain[id] == [op] && s.chain[id][1..] == [];
  }

  lemma OffersTurn(s: State, b: Id, x: Sdp)
    requires Queue(s.chain, b) == [DoOffer] && b !in s.peers
    ensures var s' := RunChain(s, b, Works(x));
            && b in s'.peers && s'.peers[b].state.HaveLocalOffer? && s'.peers[b].offered == Some(x)
            && Queue(s'.chain, b) == [] && s'.self == s.self && RtcOffer(s.self, b, x) in s'.outbox
  {
    OnlyOp(s, b, DoOffer, Works(x));
    OfferEnds(s.(chain := s.chain[b := []]), b, Works(x));
  }

  lemma AnswersTurn(s: State, a: Id, x: Sdp, y: Sdp)
    requires Queue(s.chain, a) == [] && a !in s.peers
    ensures var s' := RunChain(OnSignal(s, RtcOffer(a, s.self, x)), a, Works(y));
            && a in s'.peers && s'.peers[a].state.Stable? && s'.peers[a].remote == Some(Description(true, x))
            && RtcAnswer(s.self, a, y, x) in s'.outbox && s'.self == s.self
  {
    var s1 := OnSignal(s, RtcOffer(a, s.self, x));
    assert [] + [DoAcceptOffer(x)] == [DoAcceptOffer(x)];
    OnlyOp(s1, a, DoAcceptOffer(x), Works(y));
    AcceptOfferEnds(s1.(chain := s1.chain[a := []]), a, x, Works(y));
  }

  lemma TakesTurn(s: State, b: Id, x: Sdp, y: Sdp)
    requires Queue(s.chain, b) == [] && b in s.peers && s.peers[b].state.HaveLocalOffer? && s.peers[b].offered == Some(x)
    ensures var s' := RunChain(OnSignal(s, RtcAnswer(b, s.self, y, x)), b, NoSdp);
            && b in s'.peers && s'.peers[b].state.Stable? && s'.peers[b].remote == Some(Description(false, y))
            && s'.peers[b].answered == s'.peers[b].offered == Some(x)
  {
    var s1 := OnSignal(s, RtcAnswer(b, s.self, y, x));
    assert [] + [DoAcceptAnswer(y, x)] == [DoAcceptAnswer(y, x)];
    OnlyOp(s1, b, DoAcceptAnswer(y, x), NoSdp);
  }

  /** Both ends are settled on one offer and its answer. */
  predicate Connected(net: Net, a: Id, b: Id, offer: Sdp, answer: Sdp) {
    && a in net && b in net && b in net[a].peers && a in net[b].peers
    && net[a].peers[b].state.Stable? && net[a].peers[b].remote == Some(Description(false, answer))
    && net[a].peers[b].answered == net[a].peers[b].offered == Some(offer)
    && net[b].peers[a].state.Stable? && net[b].peers[a].remote == Some(Description(true, offer))
  }

  lemma HeardOf(s: State, devices: seq<Id>, b: Id)
    requires 0 < s.self < b && b in devices && b !in s.peers && b !in s.starting && Queue(s.chain, b) == []
    ensures var s' := OnPresence(s, devices); Queue(s'.chain, b) == [DoOffer] && b !in s'.peers && s'.self == s.self
  {
    PresenceExactly(s, devices, b);
    hide OnPresence;
    assert [] + [DoOffer] == [DoOffer];
  }

  /**
   * Two devices that hear of each other connect. Whatever else is going on in the network, once the smaller one hears a
   * presence list with the larger in it, wherever in the list, five more steps settle both ends on the same offer and answer.
   */
  lemma TwoDevicesConnect(net: Net, a: Id, b: Id, devices: seq<Id>, offer: Sdp, answer: Sdp) returns (steps: seq<Step>)
    requires Apart(net, a, b) && b in devices
    ensures |steps| == 6 && steps[0] == Presence(a, devices)
    ensures AdmissibleRun(net, steps) && Connected(Run(net, steps), a, b, offer, answer)
  {
    hide OnPresence, OnSignal, RunChain, Run, AdmissibleRun;
    HeardOf(net[a], devices, b);
    steps := Begin(net);
    steps := Then(net, steps, Presence(a, devices));
    OffersTurn(Run(net, steps)[a], b, offer);
    steps := Then(net, steps, Turn(a, b, Works(offer)));
    AnswersTurn(net[b], a, offer, answer);
    steps := Then(net, steps, Deliver(RtcOffer(a, b, offer)));
    steps := Then(net, steps, Turn(b, a, Works(answer)));
    TakesTurn(Run(net, steps)[a], b, offer, answer);
    steps := Then(net, steps, Deliver(RtcAnswer(b, a, answer, offer)));
    steps := Then(net, steps, Turn(a, b, NoSdp));
  }
}
