/** The nightly sweep of the object bucket, page by page, and what prune and sweep leave together. */
module Sweep {
  import opened Wrappers
  import opened ObjectKeys
  import opened Rows
  import opened PrunePlan
  import opened StoreOps
  import opened Storage
  import opened Server

  function Present(keys: seq<string>, objects: set<string>): seq<string> { Filter(keys, k => k in objects) }

  datatype Page = Page(objects: seq<string>, truncated: bool, cursor: Option<nat>)

  /**
   * A bucket whose listing walks its keys in one fixed order, in pages of any positive sizes.
   * `pageSize` gives the size of the page that starts at a position: every way to split the listing is some `pageSize`.
   */
  class SweepBucket {
    var objects: set<string>
    const keys: seq<string>
    const pageSize: nat -> nat

    predicate Valid()
      reads this
    {
      && (forall i, j | 0 <= i < j < |keys| :: keys[i] != keys[j])
      && (forall k | k in objects :: k in keys)
    }

    constructor (keys: seq<string>, pageSize: nat -> nat)
      requires forall i, j | 0 <= i < j < |keys| :: keys[i] != keys[j]
      ensures Valid() && objects == (set k | k in keys) && this.keys == keys && this.pageSize == pageSize
    {
      this.keys := keys;
      this.pageSize := pageSize;
      objects := set k | k in keys;
    }

    function PageEnd(from: nat): (to: nat)
      requires from <= |keys|
      ensures from <= to <= |keys| && (from < |keys| ==> from < to)
    {
      if from + pageSize(from) + 1 <= |keys| then from + pageSize(from) + 1 else |keys|
    }

    method List(cursor: Option<nat>) returns (page: Page)
      requires cursor.Some? ==> cursor.value <= |keys|
      ensures var from := if cursor.Some? then cursor.value else 0;
              page == Page(Present(keys[from..PageEnd(from)], objects), PageEnd(from) < |keys|,
                           if PageEnd(from) < |keys| then Some(PageEnd(from)) else None)
    {
      var from := if cursor.Some? then cursor.value else 0;
      var to := PageEnd(from);
      page := Page(Present(keys[from..to], objects), to < |keys|, if to < |keys| then Some(to) else None);
    }

    method Delete(key: string)
      modifies this`objects
      ensures objects == old(objects) - {key}
    {
      objects := objects - {key};
    }
  }

  function Survivors(objects: set<string>, keep: set<string>): set<string> {
    set k | k in objects && R2Prefix(k) in keep
  }

  /** The inner loop: one page, each object without a kept prefix deleted and counted. */
  method SweepPage(bucket: SweepBucket, page: seq<string>, keep: set<string>) returns (deleted: nat)
    requires forall i, j | 0 <= i < j < |page| :: page[i] != page[j]
    requires forall k | k in page :: k in bucket.objects
    modifies bucket`objects
    ensures bucket.objects == set k | k in old(bucket.objects) && (k in page ==> R2Prefix(k) in keep)
    ensures deleted + |bucket.objects| == |old(bucket.objects)|
  {
    deleted := 0;
    for i := 0 to |page|
      invariant bucket.objects == set k | k in old(bucket.objects) && (k in page[..i] ==> R2Prefix(k) in keep)
      invariant deleted + |bucket.objects| == |old(bucket.objects)|
    {
      assert page[i] in bucket.objects;
      assert page[..i + 1] == page[..i] + [page[i]];
      if R2Prefix(page[i]) !in keep {
        bucket.Delete(page[i]);
        deleted := deleted + 1;
      }
    }
    assert page[..|page|] == page;
  }

  /** However the listing is split into pages, exactly the objects with a kept prefix remain, and the rest are counted. */
  method SweepOrphans(bucket: SweepBucket, keep: set<string>) returns (deleted: nat)
    requires bucket.Valid()
    modifies bucket`objects
    ensures bucket.Valid()
    ensures bucket.objects == Survivors(old(bucket.objects), keep)
    ensures deleted + |bucket.objects| == |old(bucket.objects)|
  {
    deleted := 0;
    var cursor: Option<nat> := None;
    ghost var done := 0;
    while true
      invariant done <= |bucket.keys|
      invariant if cursor.Some? then cursor.value == done else done == 0
      invariant bucket.objects == set k | k in old(bucket.objects) && (k in bucket.keys[..done] ==> R2Prefix(k) in keep)
      invariant deleted + |bucket.objects| == |old(bucket.objects)|
      decreases |bucket.keys| - done
    {
      var listed := bucket.List(cursor);
      ghost var to := bucket.PageEnd(done);
      PageMembers(bucket.keys, done, to, bucket.objects);
      var swept := SweepPage(bucket, listed.objects, keep);
      deleted := deleted + swept;
      assert bucket.keys[..to] == bucket.keys[..done] + bucket.keys[done..to];
      done := to;
      cursor := if listed.truncated then listed.cursor else None;
      if cursor.None? {
        assert bucket.keys[..done] == bucket.keys;
        break;
      }
    }
  }

  lemma PageMembers(keys: seq<string>, from: nat, to: nat, objects: set<string>)
    requires from <= to <= |keys| && forall i, j | 0 <= i < j < |keys| :: keys[i] != keys[j]
    ensures var page := Present(keys[from..to], objects);
            && (forall i, j | 0 <= i < j < |page| :: page[i] != page[j])
            && (forall k :: k in page <==> k in keys[from..to] && k in objects)
  {
    var at := FilterPositions(keys[from..to], k => k in objects);
    FilterMembers(keys[from..to], k => k in objects);
  }

  // ---- prune, then sweep

  function KeySet(keys: seq<string>): set<string> { set k | k in keys }

  /** Kept and deleted keys split the keys of all blobs in two. */
  lemma PlanSplitsKeys(s: Store, now: int)
    requires DistinctBlobs(s.blobs)
    ensures KeySet(PlanOf(s, now).keepR2Keys) + KeySet(PlanOf(s, now).deleteR2Keys) == KeySet(R2Keys(s.blobs))
    ensures KeySet(PlanOf(s, now).keepR2Keys) !! KeySet(PlanOf(s, now).deleteR2Keys)
    ensures |PlanOf(s, now).keepR2Keys| + |PlanOf(s, now).deleteR2Keys| == |s.blobs|
  {
    var live := LiveBlobIds(s.items, now);
    FilterMembers(s.blobs, b => Drops(b, live, now));
    FilterMembers(s.blobs, b => !Drops(b, live, now));
    KeptAndDropped(s.blobs, live, now);
    KeyOfBlob(s.blobs);
    KeyOfBlob(Kept(s.blobs, live, now));
    KeyOfBlob(Dropped(s.blobs, live, now));
  }

  lemma KeyOfBlob(blobs: seq<Blob>)
    ensures forall k :: k in R2Keys(blobs) <==> exists b | b in blobs :: b.r2Key == k
  {
    forall b | b in blobs ensures b.r2Key in R2Keys(blobs) {
      var i :| 0 <= i < |blobs| && blobs[i] == b;
      assert R2Keys(blobs)[i] == b.r2Key;
    }
    forall k | k in R2Keys(blobs) ensures exists b | b in blobs :: b.r2Key == k {
      var i :| 0 <= i < |blobs| && R2Keys(blobs)[i] == k;
      assert blobs[i] in blobs;
    }
  }

  lemma {:induction false} KeptAndDropped(blobs: seq<Blob>, live: set<Id>, now: int)
    ensures |Kept(blobs, live, now)| + |Dropped(blobs, live, now)| == |blobs|
  {
    if blobs != [] {
      KeptAndDropped(blobs[1..], live, now);
    }
  }

  /** In a sound store, as every reachable one is, a stored object outlives prune and sweep exactly when its blob outlives the prune. */
  lemma SweepFollowsPrune(s: Store, issued: set<Id>, keys: set<string>, now: int, blob: Blob, chunk: string, objects: set<string>)
    requires Sound(s, issued) && KnownKeys(s, keys) && blob in s.blobs && ObjectKey(blob.r2Key, chunk) in objects
    ensures ObjectKey(blob.r2Key, chunk) in Survivors(objects, KeySet(PlanOf(s, now).keepR2Keys))
            <==> blob in Prune(s, now).blobs
  {
    hide Owned, Counted, AllBacked, Exclusive, CleanUsers;
    hide LiveSessions, CleanInvites, CodesAgree, CleanRequests;
    PrefixOfObject(blob.r2Key, chunk);
    PrunedBlobs(s, now);
    KeptKeys(s, now, blob);
  }

  lemma KeptKeys(s: Store, now: int, blob: Blob)
    requires DistinctBlobs(s.blobs) && blob in s.blobs
    ensures blob.r2Key in PlanOf(s, now).keepR2Keys <==> blob in Kept(s.blobs, LiveBlobIds(s.items, now), now)
  {
    var live := LiveBlobIds(s.items, now);
    KeyOfBlob(Kept(s.blobs, live, now));
    FilterMembers(s.blobs, b => !Drops(b, live, now));
    if b :| b in Kept(s.blobs, live, now) && b.r2Key == blob.r2Key {
      DistinctBlobMembers(s.blobs, b, blob);
    }
  }

  /** The plan knows only the blobs of its moment: an upload that starts between plan and sweep loses its objects. */
  lemma LateUploadIsSwept(s: Store, now: int, r2Key: string, chunk: string, objects: set<string>)
    requires '/' !in r2Key && r2Key !in R2Keys(s.blobs)
    ensures ObjectKey(r2Key, chunk) !in Survivors(objects, KeySet(PlanOf(s, now).keepR2Keys))
  {
    PrefixOfObject(r2Key, chunk);
    var live := LiveBlobIds(s.items, now);
    FilterMembers(s.blobs, b => !Drops(b, live, now));
    KeyOfBlob(s.blobs);
    KeyOfBlob(Kept(s.blobs, live, now));
  }
}
