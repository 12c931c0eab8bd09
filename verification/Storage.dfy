/** The storage invariant: usage counters, blob references and ownership, across every operation that touches them. */
module Storage {
  import opened Wrappers
  import opened Rows
  import opened PrunePlan
  import opened StoreOps

  /** Bytes of one blob that count against an owner. */
  function Charge(blob: Blob, owner: Id): nat {
    if blob.state.Committed? && blob.ownerId == owner then blob.byteSize else 0
  }

  /** The sum the counter is meant to equal. */
  function Used(blobs: seq<Blob>, owner: Id): nat {
    if blobs == [] then 0 else Charge(blobs[0], owner) + Used(blobs[1..], owner)
  }

  ghost predicate Counted(users: map<Id, User>, blobs: seq<Blob>) {
    forall u | u in users :: users[u].used == Used(blobs, u)
  }

  ghost predicate DistinctBlobs(blobs: seq<Blob>) {
    forall i, j | 0 <= i < j < |blobs| :: blobs[i].id != blobs[j].id && blobs[i].r2Key != blobs[j].r2Key
  }

  ghost predicate Owned(users: map<Id, User>, items: seq<Item>, blobs: seq<Blob>) {
    && (forall item | item in items :: item.ownerId in users)
    && (forall blob | blob in blobs :: blob.ownerId in users)
  }

  predicate Backs(blob: Blob, item: Item) {
    item.blobId == Some(blob.id) && blob.state.Committed? && blob.ownerId == item.ownerId && blob.byteSize == item.byteSize
  }

  ghost predicate Backed(item: Item, blobs: seq<Blob>) {
    if IsNote(item.kind) then item.blobId.None? else exists blob | blob in blobs :: Backs(blob, item)
  }

  ghost predicate AllBacked(items: seq<Item>, blobs: seq<Blob>) { forall item | item in items :: Backed(item, blobs) }

  /** Each blob has at most one item. */
  ghost predicate Exclusive(items: seq<Item>) {
    forall i, j | 0 <= i < j < |items| :: items[i].blobId.Some? ==> items[i].blobId != items[j].blobId
  }

  ghost predicate StorageInv(users: map<Id, User>, items: seq<Item>, blobs: seq<Blob>) {
    && Counted(users, blobs)
    && DistinctBlobs(blobs)
    && Owned(users, items, blobs)
    && AllBacked(items, blobs)
    && Exclusive(items)
  }

  // ---- sums over blob lists

  lemma {:induction false} UsedAppend(xs: seq<Blob>, ys: seq<Blob>, owner: Id)
    ensures Used(xs + ys, owner) == Used(xs, owner) + Used(ys, owner)
  {
    if xs == [] {
      assert xs + ys == ys;
    } else {
      UsedAppend(xs[1..], ys, owner);
      assert (xs + ys)[1..] == xs[1..] + ys;
    }
  }

  lemma UsedReplace(blobs: seq<Blob>, at: nat, blob: Blob, owner: Id)
    requires at < |blobs|
    ensures Used(blobs[at := blob], owner) + Charge(blobs[at], owner) == Used(blobs, owner) + Charge(blob, owner)
  {
    var rest := blobs[at + 1..];
    assert blobs == blobs[..at] + ([blobs[at]] + rest);
    assert blobs[at := blob] == blobs[..at] + ([blob] + rest);
    UsedAppend(blobs[..at], [blobs[at]] + rest, owner);
    UsedAppend(blobs[..at], [blob] + rest, owner);
  }

  lemma {:induction false} UsedWithoutOwner(blobs: seq<Blob>, gone: Id, owner: Id)
    requires owner != gone
    ensures Used(Filter(blobs, (b: Blob) => b.ownerId != gone), owner) == Used(blobs, owner)
  {
    if blobs != [] {
      UsedWithoutOwner(blobs[1..], gone, owner);
    }
  }

  lemma {:induction false} UsedByNobody(blobs: seq<Blob>, owner: Id)
    requires forall b | b in blobs :: b.ownerId != owner
    ensures Used(blobs, owner) == 0
  {
    if blobs != [] {
      UsedByNobody(blobs[1..], owner);
    }
  }

  // ---- pruning

  function Subtracted(rows: seq<Decrement>, owner: Id): nat {
    if rows == [] then 0 else (if rows[0].ownerId == owner then rows[0].bytes else 0) + Subtracted(rows[1..], owner)
  }

  /** Every charged byte is either kept or handed back. */
  lemma {:induction false} KeptPlusSubtracted(blobs: seq<Blob>, live: set<Id>, now: int, owner: Id)
    ensures Used(Kept(blobs, live, now), owner) + Subtracted(Decrements(Orphans(blobs, live)), owner) == Used(blobs, owner)
  {
    if blobs != [] {
      KeptPlusSubtracted(blobs[1..], live, now, owner);
      var rest := Orphans(blobs[1..], live);
      if Orphaned(blobs[0], live) {
        assert Decrements([blobs[0]] + rest) == [Decrement(blobs[0].ownerId, blobs[0].byteSize)] + Decrements(rest);
      }
    }
  }

  lemma {:induction false} DecrementOne(users: map<Id, User>, rows: seq<Decrement>, u: Id)
    requires u in users && Subtracted(rows, u) <= users[u].used
    ensures u in ApplyDecrements(users, rows)
    ensures ApplyDecrements(users, rows)[u] == users[u].(used := users[u].used - Subtracted(rows, u))
  {
    if rows != [] {
      var d := rows[0];
      if d.ownerId in users {
        DecrementOne(users[d.ownerId := users[d.ownerId].(used := Max(0, users[d.ownerId].used - d.bytes))], rows[1..], u);
      } else {
        DecrementOne(users, rows[1..], u);
      }
    }
  }

  lemma {:induction false} DecrementKeys(users: map<Id, User>, rows: seq<Decrement>)
    ensures ApplyDecrements(users, rows).Keys == users.Keys
  {
    if rows != [] {
      var d := rows[0];
      if d.ownerId in users {
        var next := users[d.ownerId := users[d.ownerId].(used := Max(0, users[d.ownerId].used - d.bytes))];
        assert next.Keys == users.Keys;
        DecrementKeys(next, rows[1..]);
      } else {
        DecrementKeys(users, rows[1..]);
      }
    }
  }

  /** When the rows never ask for more than is there, the clamp at zero never acts. */
  lemma DecrementsNeverClamp(users: map<Id, User>, rows: seq<Decrement>)
    requires forall u | u in users :: Subtracted(rows, u) <= users[u].used
    ensures ApplyDecrements(users, rows).Keys == users.Keys
    ensures forall u | u in users ::
              ApplyDecrements(users, rows)[u] == users[u].(used := users[u].used - Subtracted(rows, u))
  {
    DecrementKeys(users, rows);
    forall u | u in users
      ensures ApplyDecrements(users, rows)[u] == users[u].(used := users[u].used - Subtracted(rows, u))
    {
      DecrementOne(users, rows, u);
    }
  }

  lemma DistinctBlobMembers(blobs: seq<Blob>, a: Blob, b: Blob)
    requires DistinctBlobs(blobs) && a in blobs && b in blobs && (a.id == b.id || a.r2Key == b.r2Key)
    ensures a == b
  {}

  /** With distinct ids, dropping by id is dropping by the plan's own test. */
  lemma PrunedBlobs(s: Store, now: int)
    requires DistinctBlobs(s.blobs)
    ensures Prune(s, now).blobs == Kept(s.blobs, LiveBlobIds(s.items, now), now)
  {
    var live := LiveBlobIds(s.items, now);
    var plan := PlanOf(s, now);
    var dropped := Dropped(s.blobs, live, now);
    FilterMembers(s.blobs, b => Drops(b, live, now));
    forall b | b in s.blobs ensures (b.id !in plan.deleteBlobIds) == !Drops(b, live, now) {
      if Drops(b, live, now) {
        var i :| 0 <= i < |dropped| && dropped[i] == b;
        assert plan.deleteBlobIds[i] == b.id;
      } else if b.id in plan.deleteBlobIds {
        var i :| 0 <= i < |dropped| && plan.deleteBlobIds[i] == b.id;
        DistinctBlobMembers(s.blobs, dropped[i], b);
      }
    }
    FilterAgrees(s.blobs, (b: Blob) => b.id !in plan.deleteBlobIds, b => !Drops(b, live, now));
  }

  lemma FilterKeepsDistinctBlobs(blobs: seq<Blob>, keep: Blob -> bool)
    requires DistinctBlobs(blobs)
    ensures DistinctBlobs(Filter(blobs, keep))
  {
    var at := FilterPositions(blobs, keep);
  }

  lemma FilterKeepsExclusive(items: seq<Item>, keep: Item -> bool)
    requires Exclusive(items)
    ensures Exclusive(Filter(items, keep))
  {
    var at := FilterPositions(items, keep);
  }

  /** What prune subtracts from each counter is exactly what leaves the sum: the `Math.max(0, ...)` never acts. */
  lemma PruneUsage(s: Store, now: int)
    requires StorageInv(s.users, s.items, s.blobs)
    ensures var s' := Prune(s, now); s'.users.Keys == s.users.Keys
    ensures forall u | u in s.users :: Subtracted(PlanOf(s, now).decrementUsage, u) <= s.users[u].used
    ensures var s' := Prune(s, now); forall u | u in s.users ::
              s'.users[u] == s.users[u].(used := s.users[u].used - Subtracted(PlanOf(s, now).decrementUsage, u))
    ensures Counted(Prune(s, now).users, Prune(s, now).blobs)
  {
    var live := LiveBlobIds(s.items, now);
    PrunedBlobs(s, now);
    forall u | u in s.users
      ensures Used(Prune(s, now).blobs, u) + Subtracted(PlanOf(s, now).decrementUsage, u) == s.users[u].used
    {
      KeptPlusSubtracted(s.blobs, live, now, u);
    }
    DecrementsNeverClamp(s.users, PlanOf(s, now).decrementUsage);
  }

  /** A committed blob goes exactly when no surviving item refers to it, a pending one exactly when it is an hour old. */
  lemma PruneDropsExactlyUnreferenced(s: Store, now: int, blob: Blob)
    requires StorageInv(s.users, s.items, s.blobs)
    requires blob in s.blobs
    ensures blob in Prune(s, now).blobs <==>
            if blob.state.Committed? then exists item | item in Prune(s, now).items :: item.blobId == Some(blob.id)
            else now - blob.createdAt < PENDING_BLOB_MAX_AGE_MS
  {
    PrunedBlobs(s, now);
    var live := LiveBlobIds(s.items, now);
    FilterMembers(s.blobs, b => !Drops(b, live, now));
    FilterMembers(s.items, (item: Item) => item.id !in PlanOf(s, now).deleteItemIds);
    if blob.id in live {
      var item :| item in s.items && item.id !in DeletedItemIds(s.items, now) && item.blobId.Some? && item.blobId.value == blob.id;
      assert item in Prune(s, now).items;
    }
  }

  /** An item goes exactly when some unpinned, lapsed item carries its id. */
  lemma PruneDropsByItemId(s: Store, now: int, item: Item)
    requires item in s.items
    ensures item in Prune(s, now).items <==> forall other | other in s.items && other.id == item.id :: !Lapsed(other, now)
  {
    FilterMembers(s.items, (item: Item) => item.id !in PlanOf(s, now).deleteItemIds);
    assert item.id in DeletedItemIds(s.items, now)
      <==> exists other | other in s.items && other.id == item.id :: Lapsed(other, now);
  }

  lemma PruneKeepsStorage(s: Store, now: int)
    requires StorageInv(s.users, s.items, s.blobs)
    ensures StorageInv(Prune(s, now).users, Prune(s, now).items, Prune(s, now).blobs)
  {
    var s' := Prune(s, now);
    PruneUsage(s, now);
    PrunedBlobs(s, now);
    FilterKeepsDistinctBlobs(s.blobs, b => !Drops(b, LiveBlobIds(s.items, now), now));
    FilterKeepsExclusive(s.items, (item: Item) => item.id !in PlanOf(s, now).deleteItemIds);
    FilterMembers(s.blobs, b => !Drops(b, LiveBlobIds(s.items, now), now));
    FilterMembers(s.items, (item: Item) => item.id !in PlanOf(s, now).deleteItemIds);
    forall item | item in s'.items ensures Backed(item, s'.blobs) {
      if !IsNote(item.kind) {
        var blob :| blob in s.blobs && Backs(blob, item);
        PruneDropsExactlyUnreferenced(s, now, blob);
        assert blob in s'.blobs;
      }
    }
  }

  lemma PrunedItemsAreLive(s: Store, now: int)
    ensures DeletedItemIds(Prune(s, now).items, now) == {}
  {
    FilterMembers(s.items, (item: Item) => item.id !in PlanOf(s, now).deleteItemIds);
    forall item | item in Prune(s, now).items ensures !Lapsed(item, now) {
      PruneDropsByItemId(s, now, item);
    }
  }

  lemma PrunedBlobsAreKept(s: Store, now: int)
    requires StorageInv(s.users, s.items, s.blobs)
    ensures forall b | b in Prune(s, now).blobs :: !Drops(b, LiveBlobIds(Prune(s, now).items, now), now)
  {
    var s' := Prune(s, now);
    PrunedItemsAreLive(s, now);
    FilterMembers(s.blobs, (blob: Blob) => blob.id !in PlanOf(s, now).deleteBlobIds);
    forall b | b in s'.blobs ensures !Drops(b, LiveBlobIds(s'.items, now), now) {
      PruneDropsExactlyUnreferenced(s, now, b);
      if b.state.Committed? {
        var item :| item in s'.items && item.blobId == Some(b.id);
        assert item.id !in DeletedItemIds(s'.items, now);
      }
    }
  }

  /** A second prune at the same instant finds nothing to delete and keeps the same objects. */
  lemma SecondPlanIsEmpty(s: Store, now: int)
    requires StorageInv(s.users, s.items, s.blobs)
    ensures PlanOf(Prune(s, now), now) == Plan({}, {}, {}, [], [], [], PlanOf(s, now).keepR2Keys)
  {
    var s' := Prune(s, now);
    var live' := LiveBlobIds(s'.items, now);
    PrunedItemsAreLive(s, now);
    PrunedBlobsAreKept(s, now);
    PrunedBlobs(s, now);
    FilterAll(s'.blobs, b => !Drops(b, live', now));
    FilterNone(s'.blobs, b => Drops(b, live', now));
    FilterNone(s'.blobs, b => Orphaned(b, live'));
  }

  /** So it changes nothing. */
  lemma PruneTwice(s: Store, now: int)
    requires StorageInv(s.users, s.items, s.blobs)
    ensures Prune(Prune(s, now), now) == Prune(s, now)
  {
    var s' := Prune(s, now);
    SecondPlanIsEmpty(s, now);
    FilterAll(s'.items, (item: Item) => item.id !in PlanOf(s', now).deleteItemIds);
    FilterAll(s'.blobs, (blob: Blob) => blob.id !in PlanOf(s', now).deleteBlobIds);
    assert s'.pairings - {} == s'.pairings && s'.sessions - {} == s'.sessions;
  }

  // ---- the other operations that touch users, items or blobs

  lemma PendingKeepsStorage(s: Store, id: Id, ownerId: Id, r2Key: string, byteSize: nat, chunkCount: nat, now: int)
    requires StorageInv(s.users, s.items, s.blobs) && ownerId in s.users
    requires forall b | b in s.blobs :: b.id != id && b.r2Key != r2Key
    ensures var s' := CreatePendingBlob(s, id, ownerId, r2Key, byteSize, chunkCount, now);
            StorageInv(s'.users, s'.items, s'.blobs)
  {
    var s' := CreatePendingBlob(s, id, ownerId, r2Key, byteSize, chunkCount, now);
    var added := s'.blobs[|s.blobs|];
    forall u | u in s.users ensures Used(s'.blobs, u) == s.users[u].used {
      UsedAppend(s.blobs, [added], u);
      assert Used([added], u) == 0;
    }
    forall item | item in s.items ensures Backed(item, s'.blobs) {
      if !IsNote(item.kind) {
        var blob :| blob in s.blobs && Backs(blob, item);
        assert blob in s'.blobs;
      }
    }
  }

  lemma CommitKeepsStorage(s: Store, ownerId: Id, actualBytes: nat, c: CommitRequest, pinned: bool, now: int)
    requires StorageInv(s.users, s.items, s.blobs) && !IsNote(c.kind)
    requires var at := BlobAt(s, c.blobId); at < |s.blobs| ==> s.blobs[at].ownerId == ownerId
    ensures var s' := CommitBlobAndItem(s, ownerId, actualBytes, c, pinned, now).0;
            StorageInv(s'.users, s'.items, s'.blobs)
  {
    var (s', verdict) := CommitBlobAndItem(s, ownerId, actualBytes, c, pinned, now);
    if verdict.Done? {
      var at := BlobAt(s, c.blobId);
      var blob := s'.blobs[at];
      forall u | u in s'.users ensures s'.users[u].used == Used(s'.blobs, u) {
        UsedReplace(s.blobs, at, blob, u);
      }
      forall item | item in s.items ensures Backed(item, s'.blobs) && item.blobId != Some(blob.id) {
        if !IsNote(item.kind) {
          var i :| 0 <= i < |s.blobs| && Backs(s.blobs[i], item);
          assert i != at;
          assert s'.blobs[i] == s.blobs[i];
        }
      }
      var added := s'.items[|s.items|];
      assert Backs(blob, added) && blob in s'.blobs;
      forall b | b in s'.blobs ensures b.ownerId in s'.users {
        assert b == blob || b in s.blobs;
      }
    }
  }

  lemma RemovalKeepsStorage(s: Store, id: Id)
    requires StorageInv(s.users, s.items, s.blobs)
    ensures var s' := RemoveUser(s, id).0; StorageInv(s'.users, s'.items, s'.blobs)
  {
    var (s', verdict) := RemoveUser(s, id);
    if verdict.Done? {
      forall u | u in s'.users ensures s'.users[u].used == Used(s'.blobs, u) {
        UsedWithoutOwner(s.blobs, id, u);
      }
      FilterKeepsDistinctBlobs(s.blobs, (b: Blob) => b.ownerId != id);
      FilterKeepsExclusive(s.items, (item: Item) => item.ownerId != id);
      FilterMembers(s.blobs, (b: Blob) => b.ownerId != id);
      FilterMembers(s.items, (item: Item) => item.ownerId != id);
      forall item | item in s'.items ensures Backed(item, s'.blobs) {
        if !IsNote(item.kind) {
          var blob :| blob in s.blobs && Backs(blob, item);
          assert blob in s'.blobs;
        }
      }
    }
  }

  lemma ArrivalKeepsStorage(s: Store, id: Id, user: User)
    requires StorageInv(s.users, s.items, s.blobs) && id !in s.users && user.used == 0
    ensures StorageInv(s.users[id := user], s.items, s.blobs)
  {
    UsedByNobody(s.blobs, id);
  }

  /** Any change of user rows that leaves the keys and the counters alone. */
  lemma UserEditKeepsStorage(s: Store, users: map<Id, User>)
    requires StorageInv(s.users, s.items, s.blobs)
    requires users.Keys == s.users.Keys && forall u | u in users :: users[u].used == s.users[u].used
    ensures StorageInv(users, s.items, s.blobs)
  {}

  predicate SameClaim(a: Item, b: Item) {
    && a.ownerId == b.ownerId && a.blobId == b.blobId
    && (if IsNote(a.kind) then IsNote(b.kind) else b.kind == a.kind && b.byteSize == a.byteSize)
  }

  /** Any rewrite of item rows that keeps owner, blob and, for files, size. */
  lemma ItemEditKeepsStorage(s: Store, items: seq<Item>)
    requires StorageInv(s.users, s.items, s.blobs)
    requires |items| == |s.items| && forall i | 0 <= i < |items| :: SameClaim(s.items[i], items[i])
    ensures StorageInv(s.users, items, s.blobs)
  {
    forall i | 0 <= i < |items| ensures Backed(items[i], s.blobs) && items[i].ownerId in s.users {
      assert s.items[i] in s.items && Backed(s.items[i], s.blobs);
      if !IsNote(items[i].kind) {
        var blob :| blob in s.blobs && Backs(blob, s.items[i]);
        assert Backs(blob, items[i]);
      }
    }
  }

  lemma NoteKeepsStorage(s: Store, item: Item)
    requires StorageInv(s.users, s.items, s.blobs) && item.ownerId in s.users && IsNote(item.kind) && item.blobId.None?
    ensures StorageInv(s.users, s.items + [item], s.blobs)
  {}

  lemma DeletionKeepsStorage(s: Store, keep: Item -> bool)
    requires StorageInv(s.users, s.items, s.blobs)
    ensures StorageInv(s.users, Filter(s.items, keep), s.blobs)
  {
    FilterKeepsExclusive(s.items, keep);
    FilterMembers(s.items, keep);
  }
}
