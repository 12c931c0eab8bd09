/** The hub's room: who receives which frame, and which frames are let in. */
module Hub {
  import opened Wrappers
  import opened Rows
  import opened Mesh

  datatype Sink = Sink(socket: nat, deviceId: Id)

  datatype Frame = Rtc(e: Envelope) | Keepalive | Shared(tag: nat)

  datatype Delivery = Delivery(socket: nat, frame: Frame)

  function To(sockets: seq<Sink>, frame: Frame): seq<Delivery> { Map(sockets, (sink: Sink) => Delivery(sink.socket, frame)) }

  function OnDevice(deviceId: Id): Sink -> bool { (sink: Sink) => sink.deviceId == deviceId }

  function Routed(sockets: seq<Sink>, frame: Frame): seq<Delivery> {
    if frame.Rtc? then To(Filter(sockets, OnDevice(frame.e.to)), frame) else To(sockets, frame)
  }

  predicate LetIn(attached: Option<Id>, frame: Frame) { !frame.Keepalive? && (frame.Rtc? ==> attached == Some(frame.e.from)) }

  class HubRoom {
    var sockets: seq<Sink>
    var sent: seq<Delivery>

    constructor ()
      ensures sockets == [] && sent == []
    {
      sockets, sent := [], [];
    }

    method Add(sink: Sink)
      modifies this`sockets
      ensures sockets == if sink in old(sockets) then old(sockets) else old(sockets) + [sink]
    {
      if sink !in sockets {
        sockets := sockets + [sink];
      }
    }

    method Remove(sink: Sink)
      modifies this`sockets
      ensures sockets == Filter(old(sockets), (other: Sink) => other != sink)
    {
      sockets := Filter(sockets, (other: Sink) => other != sink);
    }

    method Broadcast(frame: Frame) returns (count: nat)
      modifies this`sent
      ensures sent == old(sent) + To(sockets, frame) && count == |sockets|
    {
      for i := 0 to |sockets|
        invariant sent == old(sent) + To(sockets, frame)[..i]
      {
        sent := sent + [Delivery(sockets[i].socket, frame)];
      }
      return |sockets|;
    }

    method SendTo(deviceId: Id, frame: Frame) returns (hit: bool)
      modifies this`sent
      ensures sent == old(sent) + To(Filter(sockets, OnDevice(deviceId)), frame)
      ensures hit <==> exists sink | sink in sockets :: sink.deviceId == deviceId
    {
      hit := false;
      for i := 0 to |sockets|
        invariant sent == old(sent) + To(Filter(sockets[..i], OnDevice(deviceId)), frame)
        invariant hit <==> exists sink | sink in sockets[..i] :: sink.deviceId == deviceId
      {
        assert sockets[..i + 1] == sockets[..i] + [sockets[i]];
        FilterAppend(sockets[..i], [sockets[i]], OnDevice(deviceId));
        assert [sockets[i]][1..] == [];
        if sockets[i].deviceId == deviceId {
          sent := sent + [Delivery(sockets[i].socket, frame)];
          hit := true;
        }
      }
      assert sockets[..|sockets|] == sockets;
    }

    method Route(frame: Frame)
      modifies this`sent
      ensures sent == old(sent) + Routed(sockets, frame)
    {
      if frame.Rtc? {
        var _ := SendTo(frame.e.to, frame);
        return;
      }
      var _ := Broadcast(frame);
    }

    /** One message from a socket whose attachment names its device. */
    method Receive(attached: Option<Id>, frame: Frame)
      modifies this`sent
      ensures sent == old(sent) + if LetIn(attached, frame) then Routed(sockets, frame) else []
      ensures frame.Keepalive? || (frame.Rtc? && attached != Some(frame.e.from)) ==> sent == old(sent)
      ensures frame.Shared? ==> |sent| == |old(sent)| + |sockets|
                                && forall i | 0 <= i < |sockets| :: sent[|old(sent)| + i] == Delivery(sockets[i].socket, frame)
    {
      if frame.Keepalive? || (frame.Rtc? && Some(frame.e.from) != attached) {
        return;
      }
      Route(frame);
    }

    method Presence() returns (ids: seq<Id>)
      ensures Increasing(ids)
      ensures forall id :: id in ids <==> exists sink | sink in sockets :: sink.deviceId == id
    {
      ids := [];
      for i := 0 to |sockets|
        invariant Increasing(ids)
        invariant forall id :: id in ids <==> exists sink | sink in sockets[..i] :: sink.deviceId == id
      {
        var next := sockets[i].deviceId;
        assert sockets[..i + 1] == sockets[..i] + [sockets[i]];
        InsertIdIncreases(ids, next);
        forall id ensures id in InsertId(ids, next) <==> id == next || id in ids {
          InsertIdMember(ids, next, id);
        }
        ids := InsertId(ids, next);
      }
      assert sockets[..|sockets|] == sockets;
    }
  }

  predicate Increasing(ids: seq<Id>) { forall i, j | 0 <= i < j < |ids| :: ids[i] < ids[j] }

  /** Adds an id to a sorted set of ids. */
  function InsertId(ids: seq<Id>, id: Id): seq<Id> {
    if ids == [] || id < ids[0] then [id] + ids else if id == ids[0] then ids else [ids[0]] + InsertId(ids[1..], id)
  }

  lemma {:induction false} InsertIdMember(ids: seq<Id>, id: Id, other: Id)
    ensures other in InsertId(ids, id) <==> other == id || other in ids
  {
    if ids != [] && id > ids[0] {
      InsertIdMember(ids[1..], id, other);
      assert ids == [ids[0]] + ids[1..];
    }
  }

  lemma {:induction false} InsertIdIncreases(ids: seq<Id>, id: Id)
    requires Increasing(ids)
    ensures Increasing(InsertId(ids, id))
  {
    if ids != [] && id > ids[0] {
      var rest := InsertId(ids[1..], id);
      InsertIdIncreases(ids[1..], id);
      forall k | 0 <= k < |rest| ensures ids[0] < rest[k] {
        InsertIdMember(ids[1..], id, rest[k]);
      }
    }
  }

  /** A signalling frame that was let in names its true sender, and reaches the sockets of its addressee and no others. */
  lemma SignalsArePrivate(sockets: seq<Sink>, attached: Option<Id>, e: Envelope, d: Delivery)
    requires LetIn(attached, Rtc(e))
    ensures attached == Some(e.from)
    ensures d in Routed(sockets, Rtc(e)) <==>
            d.frame == Rtc(e) && exists sink | sink in sockets :: sink.socket == d.socket && sink.deviceId == e.to
    ensures |Routed(sockets, Rtc(e))| == |Filter(sockets, OnDevice(e.to))|
  {
    var chosen := Filter(sockets, OnDevice(e.to));
    FilterMembers(sockets, OnDevice(e.to));
    if sink :| sink in sockets && sink.socket == d.socket && sink.deviceId == e.to {
      assert sink in chosen;
      var k :| 0 <= k < |chosen| && chosen[k] == sink;
      assert To(chosen, Rtc(e))[k] == Delivery(sink.socket, Rtc(e));
    }
    if d in To(chosen, Rtc(e)) {
      var k :| 0 <= k < |chosen| && To(chosen, Rtc(e))[k] == d;
      assert chosen[k] in chosen;
    }
  }
}
