/** What one prune deletes, decided from the rows alone. */
module PrunePlan {
  import opened Wrappers
  import opened Rows

  datatype Decrement = Decrement(ownerId: Id, bytes: nat)

  datatype Plan = Plan(
    deleteItemIds: set<Id>,
    deletePairingIds: set<Id>,
    deleteSessionKeys: set<Id>,
    deleteBlobIds: seq<Id>,
    decrementUsage: seq<Decrement>,
    deleteR2Keys: seq<string>,
    keepR2Keys: seq<string>)

  predicate Lapsed(item: Item, now: int) { !item.pinned && item.expiresAt <= now }

  function DeletedItemIds(items: seq<Item>, now: int): set<Id> {
    set item | item in items && Lapsed(item, now) :: item.id
  }

  function LiveBlobIds(items: seq<Item>, now: int): set<Id> {
    set item | item in items && item.id !in DeletedItemIds(items, now) && item.blobId.Some? :: item.blobId.value
  }

  predicate PendingExpired(blob: Blob, now: int) {
    blob.state.Pending? && now - blob.createdAt >= PENDING_BLOB_MAX_AGE_MS
  }

  predicate Orphaned(blob: Blob, live: set<Id>) { blob.state.Committed? && blob.id !in live }

  predicate Drops(blob: Blob, live: set<Id>, now: int) { PendingExpired(blob, now) || Orphaned(blob, live) }

  function BlobIds(blobs: seq<Blob>): seq<Id> { Map(blobs, (b: Blob) => b.id) }

  function R2Keys(blobs: seq<Blob>): seq<string> { Map(blobs, (b: Blob) => b.r2Key) }

  function Decrements(blobs: seq<Blob>): seq<Decrement> { Map(blobs, (b: Blob) => Decrement(b.ownerId, b.byteSize)) }

  function Dropped(blobs: seq<Blob>, live: set<Id>, now: int): seq<Blob> {
    Filter(blobs, b => Drops(b, live, now))
  }

  function Kept(blobs: seq<Blob>, live: set<Id>, now: int): seq<Blob> {
    Filter(blobs, b => !Drops(b, live, now))
  }

  function Orphans(blobs: seq<Blob>, live: set<Id>): seq<Blob> {
    Filter(blobs, b => Orphaned(b, live))
  }

  /** The plan as filters over the rows. */
  function PlanOf(s: Store, now: int): Plan {
    var live := LiveBlobIds(s.items, now);
    Plan(
      DeletedItemIds(s.items, now),
      (set id | id in s.pairings && s.pairings[id].expiresAt <= now),
      (set key | key in s.sessions && s.sessions[key].expiresAt <= now),
      BlobIds(Dropped(s.blobs, live, now)),
      Decrements(Orphans(s.blobs, live)),
      R2Keys(Dropped(s.blobs, live, now)),
      R2Keys(Kept(s.blobs, live, now)))
  }

  /** One more blob extends exactly one of the kept and dropped lists. */
  lemma PlanStep(blobs: seq<Blob>, b: Blob, live: set<Id>, now: int)
    ensures Dropped(blobs + [b], live, now) == Dropped(blobs, live, now) + if Drops(b, live, now) then [b] else []
    ensures Kept(blobs + [b], live, now) == Kept(blobs, live, now) + if Drops(b, live, now) then [] else [b]
    ensures Orphans(blobs + [b], live) == Orphans(blobs, live) + if Orphaned(b, live) then [b] else []
  {
    FilterAppend(blobs, [b], x => Drops(x, live, now));
    FilterAppend(blobs, [b], x => !Drops(x, live, now));
    FilterAppend(blobs, [b], x => Orphaned(x, live));
  }

  /** The loop of `planPrune`: one pass over the blobs, pushing to four lists. */
  method PlanPrune(s: Store, now: int) returns (plan: Plan)
    ensures plan == PlanOf(s, now)
    ensures forall key :: key in plan.deleteSessionKeys <==> key in s.sessions && s.sessions[key].expiresAt <= now
    ensures forall id :: id in plan.deletePairingIds <==> id in s.pairings && s.pairings[id].expiresAt <= now
  {
    var deletedItems := DeletedItemIds(s.items, now);
    var live := set item | item in s.items && item.id !in deletedItems && item.blobId.Some? :: item.blobId.value;
    assert live == LiveBlobIds(s.items, now);
    var deleteBlobIds: seq<Id>, decrementUsage: seq<Decrement> := [], [];
    var deleteR2Keys: seq<string>, keepR2Keys: seq<string> := [], [];
    for i := 0 to |s.blobs|
      invariant deleteBlobIds == BlobIds(Dropped(s.blobs[..i], live, now))
      invariant decrementUsage == Decrements(Orphans(s.blobs[..i], live))
      invariant deleteR2Keys == R2Keys(Dropped(s.blobs[..i], live, now))
      invariant keepR2Keys == R2Keys(Kept(s.blobs[..i], live, now))
    {
      var blob := s.blobs[i];
      PlanStep(s.blobs[..i], blob, live, now);
      assert s.blobs[..i + 1] == s.blobs[..i] + [blob];
      var pendingExpired := blob.state.Pending? && now - blob.createdAt >= PENDING_BLOB_MAX_AGE_MS;
      var orphanedCommitted := blob.state.Committed? && blob.id !in live;
      if pendingExpired || orphanedCommitted {
        deleteBlobIds := deleteBlobIds + [blob.id];
        deleteR2Keys := deleteR2Keys + [blob.r2Key];
        if orphanedCommitted {
          decrementUsage := decrementUsage + [Decrement(blob.ownerId, blob.byteSize)];
        }
      } else {
        keepR2Keys := keepR2Keys + [blob.r2Key];
      }
    }
    assert s.blobs[..|s.blobs|] == s.blobs;
    plan := Plan(
      deletedItems,
      (set id | id in s.pairings && s.pairings[id].expiresAt <= now),
      (set key | key in s.sessions && s.sessions[key].expiresAt <= now),
      deleteBlobIds, decrementUsage, deleteR2Keys, keepR2Keys);
  }
}
