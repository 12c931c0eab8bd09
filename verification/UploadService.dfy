/** An upload that passes the edge's checks, through the service's calls. */
module UploadService {
  import opened Wrappers
  import opened Rows
  import opened StoreOps
  import opened Services
  import opened Runs
  import opened Guards
  import opened Effects
  import Upload

  /**
   * The service takes such an upload from intent to commit: with permission and room for the cipher bytes, both calls
   * are served, the caller is charged exactly those bytes, and the item points at the blob.
   */
  lemma UploadIsServed(s: Store, token: Id, now: int, later: int, blobId: Id, r2Key: string, bytes: nat, chunkCount: nat, c: CommitRequest)
    requires Upload.IntentAccepts(bytes, chunkCount) && forall b | b in s.blobs :: b.id != blobId
    requires RequireCtx(s, token, now).Ok? && RequireCtx(s, token, later).Ok?
    requires var user := s.users[RequireCtx(s, token, now).value.userId]; user.canUpload && user.used + bytes <= user.quota
    requires c.blobId == blobId && later < c.expiresAt <= later + BLOB_TTL_MS + CLOCK_SLACK_MS
    ensures var me := RequireCtx(s, token, now).value.userId;
            var (pending, intent) := UploadIntent(s, token, now, true, bytes, chunkCount, blobId, r2Key);
            var (after, commit) := CommitUpload(pending, token, later, true, c, Some(bytes));
            && intent.Served? && commit.Served?
            && me in after.users && after.users[me].used == s.users[me].used + bytes
            && after.items == s.items + [Item(c.itemId, c.kind, me, c.body, Some(blobId), bytes, later, c.expiresAt,
                                              KeepStored(s.users[me]))]
  {
    var me := RequireCtx(s, token, now).value.userId;
    var blob := Blob(blobId, me, r2Key, bytes, chunkCount, 0, Pending, now, None);
    var pending := UploadIntent(s, token, now, true, bytes, chunkCount, blobId, r2Key).0;
    assert pending == s.(blobs := s.blobs + [blob]);
    FirstIndexAppend(s.blobs, blob, (b: Blob) => b.id == blobId);
    assert forall k | 0 <= k < |s.blobs| :: s.blobs[k] in s.blobs;
    assert BlobAt(pending, blobId) == |s.blobs|;
    assert RequireCtx(pending, token, later) == RequireCtx(s, token, later);
  }

  lemma {:induction false} BytesAppend(blobs: seq<Blob>, last: Blob, state: BlobState)
    ensures BytesIn(blobs + [last], state) == BytesIn(blobs, state) + (if last.state == state then last.byteSize else 0)
    ensures Chunks(blobs + [last]) == Chunks(blobs) + last.chunkCount
  {
    if blobs == [] {
      assert [] + [last] == [last] && [last][1..] == [];
    } else {
      BytesAppend(blobs[1..], last, state);
      assert (blobs + [last])[1..] == blobs[1..] + [last] && (blobs + [last])[0] == blobs[0];
    }
  }

  lemma {:induction false} BytesReplace(blobs: seq<Blob>, i: nat, row: Blob, state: BlobState)
    requires i < |blobs| && row.chunkCount == blobs[i].chunkCount
    ensures BytesIn(blobs[i := row], state) + (if blobs[i].state == state then blobs[i].byteSize else 0)
            == BytesIn(blobs, state) + (if row.state == state then row.byteSize else 0)
    ensures Chunks(blobs[i := row]) == Chunks(blobs)
  {
    if i == 0 {
      assert blobs[0 := row][1..] == blobs[1..];
    } else {
      BytesReplace(blobs[1..], i - 1, row, state);
      assert blobs[i := row][1..] == blobs[1..][i - 1 := row] && blobs[i := row][0] == blobs[0];
    }
  }

  /** On the usage page a served intent moves its announced bytes and chunks in as pending and nothing as committed. */
  lemma IntentMovesUsage(s: Store, call: Call)
    requires call.Intent? && Answer(s, call).1.Served?
    ensures var blobs := Answer(s, call).0.blobs;
            && BytesIn(blobs, Pending) == BytesIn(s.blobs, Pending) + call.byteSize && BytesIn(blobs, Committed) == BytesIn(s.blobs, Committed)
            && Chunks(blobs) == Chunks(s.blobs) + call.chunkCount
  {
    var blobs := Answer(s, call).0.blobs;
    ServedCallsTakeEffect(s, call);
    assert blobs == s.blobs + [blobs[|s.blobs|]];
    BytesAppend(s.blobs, blobs[|s.blobs|], Pending);
    BytesAppend(s.blobs, blobs[|s.blobs|], Committed);
    hide Answer, OnlyChanges, Self;
  }

  /** A served commit takes what was announced out of the pending bytes and puts what was measured, no more, into the committed. */
  lemma CommitMovesUsage(s: Store, call: Call)
    requires call.Commit? && Answer(s, call).1.Served?
    ensures var blobs := Answer(s, call).0.blobs;
            && call.stat.Some? && BytesIn(blobs, Committed) == BytesIn(s.blobs, Committed) + call.stat.value
            && BytesIn(blobs, Pending) + call.stat.value <= BytesIn(s.blobs, Pending) && Chunks(blobs) == Chunks(s.blobs)
  {
    ServedCallsTakeEffect(s, call);
    AnswersByTable(s, call);
    MineIsPending(s, call);
    hide Answer, OnlyChanges, Demands, AccountEffect, ItemEffect, UploadEffect, FirstBlob;
    CommittedUsage(s, Answer(s, call).0, call);
  }

  lemma CommittedUsage(s: Store, s': Store, call: Call)
    requires call.Commit? && UploadEffect(s, s', call) && call.stat.Some?
    requires forall i | FirstBlob(s.blobs, call.c.blobId, i) :: s.blobs[i].state.Pending? && call.stat.value <= s.blobs[i].byteSize
    ensures BytesIn(s'.blobs, Committed) == BytesIn(s.blobs, Committed) + call.stat.value
    ensures BytesIn(s'.blobs, Pending) + call.stat.value <= BytesIn(s.blobs, Pending) && Chunks(s'.blobs) == Chunks(s.blobs)
  {
    var blobs := s'.blobs;
    var i :| FirstBlob(s.blobs, call.c.blobId, i)
      && SetsAt(s.blobs, blobs, i, s.blobs[i].(state := Committed, byteSize := call.stat.value, sha256 := call.c.sha256, committedAt := Some(call.now)));
    assert blobs == s.blobs[i := blobs[i]];
    BytesReplace(s.blobs, i, blobs[i], Committed);
    BytesReplace(s.blobs, i, blobs[i], Pending);
  }

  lemma MineIsPending(s: Store, call: Call)
    requires call.Commit? && Demands(s, call).Served?
    ensures forall i | FirstBlob(s.blobs, call.c.blobId, i) ::
              s.blobs[i].state.Pending? && (if call.stat.Some? then call.stat.value else 0) <= s.blobs[i].byteSize
  {
    hide LiveSession, SelfIs, Self;
    assert forall i, j | FirstBlob(s.blobs, call.c.blobId, i) && FirstBlob(s.blobs, call.c.blobId, j) :: i == j;
  }
}
