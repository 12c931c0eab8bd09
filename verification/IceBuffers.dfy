/** Candidates that arrive before their peer connection can take them. */
module IceBuffers {
  import opened Wrappers
  import opened Rows

  /** `line` is the candidate line; the end-of-candidates marker has an empty one. */
  datatype Candidate = Candidate(line: string, media: nat)

  /** The buffered candidates of a peer, in order. */
  function Buffered(pending: map<Id, seq<Candidate>>, peer: Id): seq<Candidate> { if peer in pending then pending[peer] else [] }

  class IceBuffer {
    var pending: map<Id, seq<Candidate>>

    constructor ()
      ensures pending == map[]
    {
      pending := map[];
    }

    method Push(peer: Id, candidate: Candidate)
      modifies this
      ensures pending == old(pending)[peer := Buffered(old(pending), peer) + [candidate]]
    {
      if peer in pending {
        pending := pending[peer := pending[peer] + [candidate]];
        return;
      }
      pending := pending[peer := [candidate]];
      assert [] + [candidate] == [candidate];
    }

    method Take(peer: Id) returns (list: seq<Candidate>)
      modifies this
      ensures list == Buffered(old(pending), peer) && pending == old(pending) - {peer}
    {
      list := if peer in pending then pending[peer] else [];
      pending := pending - {peer};
    }

    method Clear(peer: Id)
      modifies this
      ensures pending == old(pending) - {peer}
    {
      pending := pending - {peer};
    }
  }
}
