/**
 * One device's mesh of peer connections. A connection is its signalling state (section 3.2 of RFC 8829), its remote
 * description and the candidates handed to it. Queued operations are atomic.
 */
module Mesh {
  import opened Wrappers
  import opened Rows
  import opened IceBuffers

  type Sdp = nat

  /** The empty device id. */
  const NO_ID: Id := 0

  datatype Signaling = Stable | HaveLocalOffer | HaveRemoteOffer

  datatype Description = Description(isOffer: bool, sdp: Sdp)

  /**
   * `offers` and `answers` count the offers sent and the answers applied in this connection's lifetime. `offered` is the
   * offer it sent, and `answered` the offer that its applied answer was made for: nothing in the code compares the two.
   */
  datatype Peer = Peer(state: Signaling, remote: Option<Description>, handed: seq<Candidate>, offers: nat, answers: nat,
                       offered: Option<Sdp>, answered: Option<Sdp>)

  /** `re` records which offer an answer was made for; the real envelope does not carry it. */
  datatype Envelope =
    | RtcOffer(from: Id, to: Id, sdp: Sdp)
    | RtcAnswer(from: Id, to: Id, sdp: Sdp, re: Sdp)
    | RtcIce(from: Id, to: Id, candidate: Candidate)

  datatype Op = DoOffer | DoAcceptOffer(sdp: Sdp) | DoAcceptAnswer(sdp: Sdp, re: Sdp) | DoApplyIce(candidate: Candidate)

  /** How the browser calls of one operation end: the first throws, a later one throws, no sdp comes out, or all is well. */
  datatype Outcome = Throws | ThrowsLate | NoSdp | Works(sdp: Sdp)

  /** `seen` records, per peer, the non-empty candidates processed since its last close. */
  datatype State = State(self: Id, peers: map<Id, Peer>, starting: set<Id>, chain: map<Id, seq<Op>>,
                         pending: map<Id, seq<Candidate>>, outbox: seq<Envelope>, seen: map<Id, seq<Candidate>>)

  const NEW_PEER := Peer(Stable, None, [], 0, 0, None, None)

  function Queue(chain: map<Id, seq<Op>>, peer: Id): seq<Op> { if peer in chain then chain[peer] else [] }

  datatype Plan = ApplyOffer | ApplyAnswer | Ignore

  function PlanRtcSignal(state: Signaling, isOffer: bool, sameRemote: bool): Plan {
    if isOffer then (if sameRemote || !state.Stable? then Ignore else ApplyOffer)
    else if !state.HaveLocalOffer? then Ignore
    else ApplyAnswer
  }

  // ---- what each operation does

  function Enqueue(s: State, peer: Id, op: Op): State { s.(chain := s.chain[peer := Queue(s.chain, peer) + [op]]) }

  function Signal(s: State, e: Envelope): State { s.(outbox := s.outbox + [e]) }

  function WithPeer(s: State, id: Id, peer: Peer): State { s.(peers := s.peers[id := peer]) }

  function Offer(s: State, id: Id, o: Outcome): State {
    var started := s.(starting := s.starting - {id});
    if id in s.peers then started
    else
      match o
      case Works(sdp) =>
        var offering := NEW_PEER.(state := HaveLocalOffer, offers := 1, offered := Some(sdp));
        Signal(WithPeer(started, id, offering), RtcOffer(s.self, id, sdp))
      case NoSdp => WithPeer(started, id, NEW_PEER.(state := HaveLocalOffer))
      case _ => WithPeer(started, id, NEW_PEER)
  }

  /** The peer takes a remote description and every buffered candidate with it. */
  function TakeRemote(s: State, id: Id, peer: Peer, state: Signaling, remote: Description): State {
    var flushed := peer.(state := state, remote := Some(remote), handed := peer.handed + Buffered(s.pending, id));
    WithPeer(s.(pending := s.pending - {id}), id, flushed)
  }

  function Answered(s: State, id: Id, peer: Peer, sdp: Sdp, o: Outcome): State {
    var remote := Description(true, sdp);
    match o
    case ThrowsLate => TakeRemote(s, id, peer, HaveRemoteOffer, remote)
    case Works(answer) => Signal(TakeRemote(s, id, peer, Stable, remote), RtcAnswer(s.self, id, answer, sdp))
    case _ => TakeRemote(s, id, peer, Stable, remote)
  }

  function AcceptOffer(s: State, id: Id, sdp: Sdp, o: Outcome): State {
    var peer := if id in s.peers then s.peers[id] else NEW_PEER;
    if !PlanRtcSignal(peer.state, true, peer.remote == Some(Description(true, sdp))).ApplyOffer? || o.Throws? then WithPeer(s, id, peer)
    else Answered(s, id, peer, sdp, o)
  }

  function AcceptAnswer(s: State, id: Id, sdp: Sdp, re: Sdp, o: Outcome): State {
    if id !in s.peers || !PlanRtcSignal(s.peers[id].state, false, false).ApplyAnswer? || o.Throws? then s
    else
      var peer := s.peers[id];
      TakeRemote(s, id, peer.(answers := peer.answers + 1, answered := Some(re)), Stable, Description(false, sdp))
  }

  function ApplyIce(s: State, id: Id, candidate: Candidate): State {
    if candidate.line == "" then s
    else
      var noted := s.(seen := s.seen[id := Buffered(s.seen, id) + [candidate]]);
      if id !in s.peers || s.peers[id].remote.None?
      then noted.(pending := s.pending[id := Buffered(s.pending, id) + [candidate]])
      else WithPeer(noted, id, s.peers[id].(handed := s.peers[id].handed + [candidate]))
  }

  function Perform(s: State, id: Id, op: Op, o: Outcome): State {
    match op
    case DoOffer => Offer(s, id, o)
    case DoAcceptOffer(sdp) => AcceptOffer(s, id, sdp, o)
    case DoAcceptAnswer(sdp, re) => AcceptAnswer(s, id, sdp, re, o)
    case DoApplyIce(candidate) => ApplyIce(s, id, candidate)
  }

  /** The first operation of a peer's chain runs. */
  function RunChain(s: State, id: Id, o: Outcome): State {
    if Queue(s.chain, id) == [] then s
    else Perform(s.(chain := s.chain[id := s.chain[id][1..]]), id, s.chain[id][0], o)
  }

  function OpOf(e: Envelope): Op {
    match e
    case RtcOffer(_, _, sdp) => DoAcceptOffer(sdp)
    case RtcAnswer(_, _, sdp, re) => DoAcceptAnswer(sdp, re)
    case RtcIce(_, _, candidate) => DoApplyIce(candidate)
  }

  function OnSignal(s: State, e: Envelope): State { Enqueue(s, e.from, OpOf(e)) }

  function Close(s: State, ids: set<Id>): State {
    s.(starting := s.starting - ids, pending := s.pending - ids, peers := s.peers - ids, seen := s.seen - ids)
  }

  lemma CloseMore(s: State, ids: set<Id>, id: Id)
    ensures Close(Close(s, ids), {id}) == Close(s, ids + {id})
  {
    assert s.starting - ids - {id} == s.starting - (ids + {id});
    assert s.pending - ids - {id} == s.pending - (ids + {id});
    assert s.peers - ids - {id} == s.peers - (ids + {id});
    assert s.seen - ids - {id} == s.seen - (ids + {id});
  }

  lemma CloseNone(s: State)
    ensures Close(s, {}) == s
  {
  }

  function Other(self: Id): Id -> bool { (id: Id) => id != NO_ID && id != self }

  function Others(self: Id, devices: seq<Id>): seq<Id> { Filter(devices, Other(self)) }

  function StartOffers(s: State, others: seq<Id>, from: nat): State
    requires from <= |others|
    decreases |others| - from
  {
    if from == |others| then s
    else
      var id := others[from];
      var start := id !in s.peers && id !in s.starting && s.self < id;
      StartOffers(if start then Enqueue(s.(starting := s.starting + {id}), id, DoOffer) else s, others, from + 1)
  }

  function Gone(peers: map<Id, Peer>, others: seq<Id>): set<Id> { set id | id in peers && id !in others }

  function OnPresence(s: State, devices: seq<Id>): State {
    var others := Others(s.self, devices);
    var started := StartOffers(s, others, 0);
    Close(started, Gone(started.peers, others))
  }

  // ---- presence, device by device

  /** Listed, and neither the empty id nor the device itself. */
  predicate Listed(s: State, devices: seq<Id>, id: Id) { id in devices && id != 0 && id != s.self }

  /** A listed larger device that is neither connected nor being offered to. */
  predicate Invited(s: State, devices: seq<Id>, id: Id) {
    Listed(s, devices, id) && s.self < id && id !in s.peers && id !in s.starting
  }

  lemma {:induction false} StartOffersAt(s: State, others: seq<Id>, from: nat, id: Id)
    requires from <= |others|
    ensures var s', invited := StartOffers(s, others, from), id in others[from..] && s.self < id && id !in s.peers && id !in s.starting;
            && Queue(s'.chain, id) == Queue(s.chain, id) + (if invited then [DoOffer] else [])
            && (id in s'.starting <==> id in s.starting || invited)
            && s' == s.(chain := s'.chain, starting := s'.starting)
    decreases |others| - from
  {
    if from < |others| {
      var other := others[from];
      var start := other !in s.peers && other !in s.starting && s.self < other;
      var next := if start then Enqueue(s.(starting := s.starting + {other}), other, DoOffer) else s;
      assert others[from..] == [other] + others[from + 1..];
      StartOffersAt(next, others, from + 1, id);
      assert Queue(s.chain, id) + [] == Queue(s.chain, id) && Queue(next.chain, id) + [] == Queue(next.chain, id);
    }
  }

  /**
   * Presence, device by device: exactly the invited get one offer queued and are marked, exactly the listed peers stay as
   * they are, and of a peer that is gone nothing is left but what its chain still holds.
   */
  lemma PresenceExactly(s: State, devices: seq<Id>, id: Id)
    ensures var s', gone := OnPresence(s, devices), id in s.peers && !Listed(s, devices, id);
            && Queue(s'.chain, id) == Queue(s.chain, id) + (if Invited(s, devices, id) then [DoOffer] else [])
            && (id in s'.starting <==> !gone && (id in s.starting || Invited(s, devices, id)))
            && (id in s'.peers <==> id in s.peers && !gone) && (id in s'.peers ==> s'.peers[id] == s.peers[id])
            && Buffered(s'.pending, id) == (if gone then [] else Buffered(s.pending, id))
            && Buffered(s'.seen, id) == (if gone then [] else Buffered(s.seen, id))
            && s'.outbox == s.outbox && s'.self == s.self
  {
    var others := Others(s.self, devices);
    FilterMembers(devices, Other(s.self));
    assert id in others <==> Listed(s, devices, id);
    StartOffersAt(s, others, 0, id);
    assert others[0..] == others;
    hide StartOffers, Filter;
  }

  // ---- the same as code

  class PeerMesh {
    const selfId: Id
    var peers: map<Id, Peer>
    var starting: set<Id>
    var chain: map<Id, seq<Op>>
    const ice: IceBuffer
    var outbox: seq<Envelope>
    ghost var seen: map<Id, seq<Candidate>>

    constructor (selfId: Id)
      ensures View() == State(selfId, map[], {}, map[], map[], [], map[]) && Valid() && fresh(ice)
    {
      this.selfId := selfId;
      peers, starting, chain, outbox, seen := map[], {}, map[], [], map[];
      ice := new IceBuffer();
    }

    ghost function View(): State
      reads this, ice
    {
      State(selfId, peers, starting, chain, ice.pending, outbox, seen)
    }

    /** Only real candidates are ever buffered. */
    ghost predicate Valid()
      reads this, ice
    {
      forall id | id in ice.pending :: forall c | c in ice.pending[id] :: c.line != ""
    }

    method HandlePresence(devices: seq<Id>)
      requires Valid()
      modifies this, ice
      ensures Valid()
      ensures View() == OnPresence(old(View()), devices)
      ensures forall id :: Queue(chain, id) == Queue(old(chain), id) + (if Invited(old(View()), devices, id) then [DoOffer] else [])
      ensures forall id :: id in peers <==> id in old(peers) && id in devices && id != NO_ID && id != selfId
    {
      forall id {
        PresenceExactly(View(), devices, id);
      }
      var others := Filter(devices, Other(selfId));
      ghost var started := StartOffers(View(), others, 0);
      for i := 0 to |others|
        invariant Valid()
        invariant StartOffers(View(), others, i) == started
      {
        var id := others[i];
        if id !in peers && id !in starting && selfId < id {
          starting := starting + {id};
          EnqueueOp(id, DoOffer);
        }
      }
      CloseOutside(others);
    }

    method CloseOutside(others: seq<Id>)
      requires Valid()
      modifies this, ice
      ensures Valid()
      ensures View() == Close(old(View()), Gone(old(peers), others))
    {
      CloseNone(View());
      hide Close;
      var keys := peers.Keys;
      ghost var gone: set<Id> := {};
      while keys != {}
        invariant Valid()
        invariant keys <= old(peers).Keys
        invariant forall id :: id in gone <==> id in old(peers) && id !in keys && id !in others
        invariant View() == Close(old(View()), gone)
        decreases |keys|
      {
        var id :| id in keys;
        keys := keys - {id};
        if id !in others {
          CloseMore(old(View()), gone, id);
          gone := gone + {id};
          ClosePeer(id);
        }
      }
      assert gone == Gone(old(peers), others);
    }

    method HandleSignal(e: Envelope)
      requires Valid()
      modifies this
      ensures Valid()
      ensures View() == OnSignal(old(View()), e)
    {
      match e
      case RtcOffer(from, _, sdp) => EnqueueOp(from, DoAcceptOffer(sdp));
      case RtcAnswer(from, _, sdp, re) => EnqueueOp(from, DoAcceptAnswer(sdp, re));
      case RtcIce(from, _, candidate) => EnqueueOp(from, DoApplyIce(candidate));
    }

    method CloseAll()
      requires Valid()
      modifies this, ice
      ensures Valid()
      ensures View() == Close(old(View()), old(View()).peers.Keys)
    {
      var keys := peers.Keys;
      while keys != {}
        invariant Valid()
        invariant keys <= old(peers).Keys && View() == Close(old(View()), old(peers).Keys - keys)
        decreases |keys|
      {
        var id :| id in keys;
        CloseMore(old(View()), old(peers).Keys - keys, id);
        assert old(peers).Keys - (keys - {id}) == old(peers).Keys - keys + {id};
        keys := keys - {id};
        ClosePeer(id);
      }
    }

    method EnqueueOp(id: Id, op: Op)
      requires Valid()
      modifies this`chain
      ensures Valid()
      ensures View() == Enqueue(old(View()), id, op)
    {
      chain := chain[id := (if id in chain then chain[id] else []) + [op]];
    }

    /** One turn of a peer's promise chain: the oldest operation runs to its end. */
    method Turn(id: Id, o: Outcome)
      requires Valid()
      modifies this, ice
      ensures Valid()
      ensures View() == RunChain(old(View()), id, o)
    {
      if id !in chain || chain[id] == [] {
        return;
      }
      var op := chain[id][0];
      chain := chain[id := chain[id][1..]];
      match op
      case DoOffer => MakeOffer(id, o);
      case DoAcceptOffer(sdp) => TakeOffer(id, sdp, o);
      case DoAcceptAnswer(sdp, re) => TakeAnswer(id, sdp, re, o);
      case DoApplyIce(candidate) =>
        if candidate.line != "" {
          seen := seen[id := Buffered(seen, id) + [candidate]];
        }
        TakeIce(id, candidate);
    }

    method MakeOffer(id: Id, o: Outcome)
      requires Valid()
      modifies this
      ensures Valid()
      ensures View() == Offer(old(View()), id, o)
    {
      if id !in peers {
        peers := peers[id := NEW_PEER];
        if o.NoSdp? || o.Works? {
          peers := peers[id := peers[id].(state := HaveLocalOffer)];
          if o.Works? {
            peers := peers[id := peers[id].(offers := peers[id].offers + 1, offered := Some(o.sdp))];
            outbox := outbox + [RtcOffer(selfId, id, o.sdp)];
          }
        }
      }
      starting := starting - {id};
    }

    method TakeOffer(id: Id, sdp: Sdp, o: Outcome)
      requires Valid()
      modifies this, ice
      ensures Valid()
      ensures View() == AcceptOffer(old(View()), id, sdp, o)
    {
      if id !in peers {
        peers := peers[id := NEW_PEER];
      }
      assert View() == WithPeer(old(View()), id, peers[id]);
      var sameRemote := peers[id].remote == Some(Description(true, sdp));
      if !PlanRtcSignal(peers[id].state, true, sameRemote).ApplyOffer? || o.Throws? {
        return;
      }
      AnswerOffer(id, sdp, o);
    }

    /** The part after the plan: describe the remote end, flush, answer. */
    method AnswerOffer(id: Id, sdp: Sdp, o: Outcome)
      requires Valid() && id in peers && !o.Throws?
      modifies this`peers, this`outbox, ice
      ensures Valid()
      ensures View() == Answered(old(View()), id, old(peers)[id], sdp, o)
    {
      peers := peers[id := peers[id].(state := HaveRemoteOffer, remote := Some(Description(true, sdp)))];
      FlushIce(id);
      if o.ThrowsLate? {
        return;
      }
      peers := peers[id := peers[id].(state := Stable)];
      if o.Works? {
        outbox := outbox + [RtcAnswer(selfId, id, o.sdp, sdp)];
      }
    }

    method TakeAnswer(id: Id, sdp: Sdp, re: Sdp, o: Outcome)
      requires Valid()
      modifies this, ice
      ensures Valid()
      ensures View() == AcceptAnswer(old(View()), id, sdp, re, o)
    {
      if id !in peers || !PlanRtcSignal(peers[id].state, false, false).ApplyAnswer? || o.Throws? {
        return;
      }
      var peer := peers[id];
      peers := peers[id := peer.(state := Stable, remote := Some(Description(false, sdp)), answers := peer.answers + 1, answered := Some(re))];
      FlushIce(id);
    }

    method TakeIce(id: Id, candidate: Candidate)
      requires Valid()
      modifies this`peers, ice
      ensures Valid()
      ensures candidate.line == "" ==> View() == old(View())
      ensures candidate.line != "" && (id !in old(peers) || old(peers)[id].remote.None?) ==>
                View() == old(View()).(pending := old(ice.pending)[id := Buffered(old(ice.pending), id) + [candidate]])
      ensures candidate.line != "" && id in old(peers) && old(peers)[id].remote.Some? ==>
                View() == WithPeer(old(View()), id, old(peers)[id].(handed := old(peers)[id].handed + [candidate]))
    {
      if candidate.line == "" {
        return;
      }
      if id !in peers || peers[id].remote.None? {
        ice.Push(id, candidate);
        return;
      }
      peers := peers[id := peers[id].(handed := peers[id].handed + [candidate])];
    }

    method FlushIce(id: Id)
      requires id in peers && peers[id].remote.Some?
      requires Valid()
      modifies this`peers, ice
      ensures Valid()
      ensures View() == WithPeer(old(View()).(pending := old(ice.pending) - {id}), id,
                                 old(peers)[id].(handed := old(peers)[id].handed + Buffered(old(ice.pending), id)))
    {
      var list := ice.Take(id);
      for i := 0 to |list|
        invariant ice.pending == old(ice.pending) - {id} && peers.Keys == old(peers).Keys
        invariant peers[id] == old(peers)[id].(handed := old(peers)[id].handed + list[..i])
        invariant forall other | other in peers && other != id :: peers[other] == old(peers)[other]
      {
        assert list[i] in list;
        TakeIce(id, list[i]);
        assert list[..i + 1] == list[..i] + [list[i]];
      }
      assert list[..|list|] == list;
    }

    method ClosePeer(id: Id)
      requires Valid()
      modifies this, ice
      ensures Valid()
      ensures View() == Close(old(View()), {id})
    {
      starting := starting - {id};
      ice.Clear(id);
      peers := peers - {id};
      seen := seen - {id};
    }
  }
}
