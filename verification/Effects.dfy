/** What a served call does to the rows, call by call, and that everything else stays as it was. */
module Effects {
  import opened Wrappers
  import opened Rows
  import opened PrunePlan
  import opened StoreOps
  import opened Storage
  import opened Services
  import opened Runs
  import opened Guards

  // ---- what stays

  datatype Part = Users | Vaults | Devices | Sessions | Invites | Pairings | Items | Blobs | Requests

  predicate OnlyChanges(s: Store, s': Store, parts: set<Part>) {
    && (Users in parts || s'.users == s.users) && (Vaults in parts || s'.vaults == s.vaults)
    && (Devices in parts || s'.devices == s.devices) && (Sessions in parts || s'.sessions == s.sessions)
    && (Invites in parts || s'.invites == s.invites)
    && (Pairings in parts || (s'.pairings == s.pairings && s'.pairingCodes == s.pairingCodes))
    && (Items in parts || s'.items == s.items) && (Blobs in parts || s'.blobs == s.blobs)
    && (Requests in parts || s'.uploadRequests == s.uploadRequests)
  }

  /** The second map has the row at the key, and every other row as the first has it. */
  ghost predicate Sets<T>(before: map<Id, T>, after: map<Id, T>, key: Id, row: T) {
    && key in after && after[key] == row
    && forall k | k != key :: (k in after <==> k in before) && (k in before ==> after[k] == before[k])
  }

  /** The second list is the first with another row at one place. */
  ghost predicate SetsAt<T>(before: seq<T>, after: seq<T>, i: int, row: T) {
    && 0 <= i < |before| == |after| && after[i] == row
    && forall j | 0 <= j < |before| && j != i :: after[j] == before[j]
  }

  ghost predicate Adds<T>(before: seq<T>, after: seq<T>, row: T) {
    |after| == |before| + 1 && after[|before|] == row && forall j | 0 <= j < |before| :: after[j] == before[j]
  }

  /** The second map holds exactly the first's rows that stay. */
  ghost predicate KeepsOnly<T>(before: map<Id, T>, after: map<Id, T>, stays: (Id, T) -> bool) {
    forall k :: (k in after <==> k in before && stays(k, before[k])) && (k in after ==> after[k] == before[k])
  }

  /** What each call may change. */
  function Parts(call: Call): set<Part> {
    match call
    case IssueInvite(_, _, _, _) => {Invites}
    case WithdrawInvite(_, _, _) => {Invites}
    case LogIn(_, _, _, _, _) => {Devices, Sessions}
    case LogOut(_) => {Sessions}
    case Touch(_, _) => {Sessions}
    case Revoke(_, _, _) => {Devices, Sessions}
    case Remove(_, _, _) => {Users, Vaults, Devices, Sessions, Invites, Items, Blobs, Requests}
    case Leave(_, _, _) => {Users, Vaults, Devices, Sessions, Invites, Items, Blobs, Requests}
    case PutVault(_, _) => {Users, Vaults}
    case StartPairing(_, _, _, _) => {Pairings}
    case PostWrap(_, _, _, _) => {Pairings}
    case Preserve(_, _, _) => {Users, Items}
    case Request(_, _, _, _) => {Requests}
    case Decide(_, _, _, _, _) => {Users, Requests}
    case Intent(_, _, _, _, _, _, _) => {Blobs}
    case Commit(_, _, _, _, _) => {Users, Items, Blobs}
    case Sweep(_) => {Users, Sessions, Pairings, Items, Blobs}
    case _ => {Items}
  }

  // ---- accounts

  /** A new session of a device: thirty days from now. */
  function NewSession(deviceId: Id, now: int): Session { Session(deviceId, now + 30 * DAY, now, now) }

  ghost predicate AccountEffect(s: Store, s': Store, call: Call) {
    match call
    case IssueInvite(token, now, id, hash) =>
      && Sets(s.invites, s'.invites, id, Invite(hash, Self(s, token), now, now + 3 * DAY, None, None, None))
    case WithdrawInvite(_, now, id) =>
      && id in s.invites && Sets(s.invites, s'.invites, id, s.invites[id].(revokedAt := Some(now)))
    case LogIn(d, _, count, now, hash) =>
      && d in s.devices && Sets(s.devices, s'.devices, d, s.devices[d].(signCount := count, lastSeenAt := Some(now)))
      && Sets(s.sessions, s'.sessions, hash, NewSession(d, now))
    case LogOut(token) =>
      && KeepsOnly(s.sessions, s'.sessions, (h: Id, _) => h != token)
    case Touch(token, now) =>
      && token in s.sessions
      && var expiry := Min(now + 30 * DAY, s.sessions[token].createdAt + 90 * DAY);
         Sets(s.sessions, s'.sessions, token, s.sessions[token].(expiresAt := expiry, lastUsed := now))
    case Revoke(_, now, d) =>
      && d in s.devices && Sets(s.devices, s'.devices, d, s.devices[d].(revokedAt := Some(now)))
      && KeepsOnly(s.sessions, s'.sessions, (_, row: Session) => row.deviceId != d)
    case PutVault(token, _) =>
      && var me := Self(s, token);
      && me in s.users && Sets(s.users, s'.users, me, s.users[me].(hasVault := true))
      && forall u :: u in s'.vaults <==> u in s.vaults || u == me
    case Remove(_, _, id) => UserIsGone(s, s', id)
    case Leave(token, _, _) => UserIsGone(s, s', Self(s, token))
    case _ => true
  }

  /** The user goes with everything owned; only who redeemed an invite or decided a request is forgotten besides. */
  ghost predicate UserIsGone(s: Store, s': Store, id: Id) {
    && KeepsOnly(s.users, s'.users, (u: Id, _) => u != id)
    && (forall u :: u in s'.vaults <==> u in s.vaults && u != id)
    && KeepsOnly(s.devices, s'.devices, (_, row: Device) => row.userId != id)
    && (forall h :: h in s'.sessions <==>
          h in s.sessions && !(s.sessions[h].deviceId in s.devices && s.devices[s.sessions[h].deviceId].userId == id))
    && (forall h | h in s'.sessions :: s'.sessions[h] == s.sessions[h])
    && (forall i :: i in s'.invites <==> i in s.invites && s.invites[i].createdBy != id)
    && (forall i | i in s'.invites :: s'.invites[i] == s.invites[i].(redeemedBy := s'.invites[i].redeemedBy)
          && s'.invites[i].redeemedBy == if s.invites[i].redeemedBy == Some(id) then None else s.invites[i].redeemedBy)
    && s'.items == Filter(s.items, (item: Item) => item.ownerId != id)
    && s'.blobs == Filter(s.blobs, (blob: Blob) => blob.ownerId != id)
    && (var kept := Filter(s.uploadRequests, (r: UploadRequest) => r.userId != id);
        |s'.uploadRequests| == |kept|
        && forall k | 0 <= k < |kept| :: s'.uploadRequests[k] == kept[k].(decidedBy := s'.uploadRequests[k].decidedBy)
             && s'.uploadRequests[k].decidedBy == if kept[k].decidedBy == Some(id) then None else kept[k].decidedBy)
  }

  // ---- pairings and items

  ghost predicate ItemEffect(s: Store, s': Store, call: Call) {
    match call
    case StartPairing(now, id, jwk, codes) =>
      && Sets(s.pairings, s'.pairings, id, Pairing(None, jwk, None, now, now + 5 * MINUTE))
      && exists i | 0 <= i < |codes| :: i < 8 && LeadsNowhere(s, codes[i]) && (forall j | 0 <= j < i :: !LeadsNowhere(s, codes[j]))
                                        && Sets(s.pairingCodes, s'.pairingCodes, codes[i], id)
    case PostWrap(token, _, id, wrap) =>
      && s'.pairingCodes == s.pairingCodes
      && id in s.pairings
      && Sets(s.pairings, s'.pairings, id, s.pairings[id].(userId := Some(Self(s, token)), wrap := Some(wrap)))
    case Create(token, now, _, n) =>
      && var me := Self(s, token);
      && me in s.users
      && if exists item | item in s.items :: item.id == n.id then s'.items == s.items
         else Adds(s.items, s'.items,
                   Item(n.id, n.kind, me, n.body, None, n.byteSize, now, n.expiresAt, s.users[me].role.Admin? && s.users[me].preserveNotes))
    case Update(token, now, _, id, p) =>
      && exists i | FirstOwn(s.items, Self(s, token), id, i) ::
           SetsAt(s.items, s'.items, i, s.items[i].(kind := p.kind, body := p.body, byteSize := p.byteSize, createdAt := now))
    case Delete(token, _, id) =>
      && forall item :: item in s'.items <==> item in s.items && !(item.id == id && item.ownerId == Self(s, token))
    case Preserve(token, _, enabled) =>
      && var me := Self(s, token);
      && me in s.users && Sets(s.users, s'.users, me, s.users[me].(preserveNotes := enabled))
      && |s'.items| == |s.items|
      && forall i | 0 <= i < |s.items| ::
           s'.items[i] == s.items[i].(pinned := if s.items[i].ownerId == me then enabled else s.items[i].pinned)
    case ResetExpiry(token, now) =>
      && |s'.items| == |s.items|
      && forall i | 0 <= i < |s.items| ::
           s'.items[i] == s.items[i].(expiresAt := if s.items[i].ownerId == Self(s, token) then now + 30 * DAY else s.items[i].expiresAt)
    case _ => true
  }

  // ---- uploads

  ghost predicate UploadEffect(s: Store, s': Store, call: Call) {
    match call
    case Request(token, _, id, _) =>
      && Adds(s.uploadRequests, s'.uploadRequests, UploadRequest(id, Self(s, token), Waiting, None, None))
    case Decide(token, _, id, approved, mb) =>
      && exists i | FirstRequest(s.uploadRequests, id, i) ::
           var row := s.uploadRequests[i];
           && SetsAt(s.uploadRequests, s'.uploadRequests, i,
                     row.(status := if approved then Approved else Denied, decidedBy := Some(Self(s, token)),
                          grantedBytes := if approved then Some(mb * 1_048_576) else None))
           && if approved && row.userId in s.users
              then Sets(s.users, s'.users, row.userId, s.users[row.userId].(canUpload := true, quota := mb * 1_048_576))
              else s'.users == s.users
    case Intent(token, now, _, bytes, chunks, blobId, r2Key) =>
      && Adds(s.blobs, s'.blobs, Blob(blobId, Self(s, token), r2Key, bytes, chunks, 0, Pending, now, None))
    case Commit(token, now, _, c, stat) =>
      && var me := Self(s, token);
      && me in s.users && stat.Some?
      && Sets(s.users, s'.users, me, s.users[me].(used := s.users[me].used + stat.value))
      && (exists i | FirstBlob(s.blobs, c.blobId, i) ::
            SetsAt(s.blobs, s'.blobs, i,
                   s.blobs[i].(state := Committed, byteSize := stat.value, sha256 := c.sha256, committedAt := Some(now))))
      && Adds(s.items, s'.items, Item(c.itemId, c.kind, me, c.body, Some(c.blobId), stat.value, now, c.expiresAt,
                                      s.users[me].role.Admin? && s.users[me].preserveNotes))
    case _ => true
  }

  // ---- prune

  lemma {:induction false} OnlyUsageDrops(users: map<Id, User>, rows: seq<Decrement>)
    ensures ApplyDecrements(users, rows).Keys == users.Keys
    ensures forall u | u in users :: ApplyDecrements(users, rows)[u] == users[u].(used := ApplyDecrements(users, rows)[u].used)
  {
    if rows != [] {
      var d := rows[0];
      var next := if d.ownerId in users
                  then users[d.ownerId := users[d.ownerId].(used := Max(0, users[d.ownerId].used - d.bytes))]
                  else users;
      assert next.Keys == users.Keys;
      OnlyUsageDrops(next, rows[1..]);
    }
  }

  /**
   * What prune leaves: the sessions and pairings whose time has not come, the items no lapsed item shares its id with, in
   * order; of users only the counters, of codes nothing.
   */
  lemma PruneLeaves(s: Store, now: int)
    ensures var s' := Prune(s, now);
            && OnlyChanges(s, s', Parts(Sweep(now))) && s'.pairingCodes == s.pairingCodes
            && KeepsOnly(s.sessions, s'.sessions, (_, row: Session) => now < row.expiresAt)
            && KeepsOnly(s.pairings, s'.pairings, (_, row: Pairing) => now < row.expiresAt)
            && s'.users.Keys == s.users.Keys && (forall u | u in s.users :: s'.users[u] == s.users[u].(used := s'.users[u].used))
            && s'.items == Filter(s.items, Spared(s.items, now))
  {
    var s' := Prune(s, now);
    OnlyUsageDrops(s.users, PlanOf(s, now).decrementUsage);
    forall item | item in s.items ensures (item.id !in PlanOf(s, now).deleteItemIds) == Spared(s.items, now)(item) {
      assert item.id in DeletedItemIds(s.items, now)
        <==> exists other | other in s.items && other.id == item.id :: Lapsed(other, now);
    }
    FilterAgrees(s.items, (item: Item) => item.id !in PlanOf(s, now).deleteItemIds, Spared(s.items, now));
  }

  ghost function Spared(items: seq<Item>, now: int): Item -> bool {
    (item: Item) => forall other | other in items && other.id == item.id :: other.pinned || now < other.expiresAt
  }

  /** No caller notices a prune: from its moment on every token gets the same answer as without it, and so does every pairing. */
  lemma PruneIsUnnoticed(s: Store, now: int, later: int, token: Id, p: Id)
    requires now <= later
    ensures RequireCtx(Prune(s, now), token, later) == RequireCtx(s, token, later)
    ensures RequireAdmin(Prune(s, now), token, later) == RequireAdmin(s, token, later)
    ensures RequireLivePairing(Prune(s, now), p, later).Ok? <==> RequireLivePairing(s, p, later).Ok?
    ensures RequireLivePairing(s, p, later).Ok? ==> RequireLivePairing(Prune(s, now), p, later) == RequireLivePairing(s, p, later)
  {
    PruneLeaves(s, now);
    hide Prune, Filter, Spared;
  }

  // ---- that it is so

  lemma AdminCallsTakeEffect(s: Store, call: Call)
    requires Answer(s, call).1.Served? && (call.IssueInvite? || call.WithdrawInvite? || call.Revoke?)
    ensures OnlyChanges(s, Answer(s, call).0, Parts(call)) && AccountEffect(s, Answer(s, call).0, call)
  {
    SessionByRows(s, call.token, call.now);
    hide LiveSession, LiveAdmin, Recognised, FindSession, RequireCtx, RequireAdmin, UserIsGone;
  }

  lemma SessionCallsTakeEffect(s: Store, call: Call)
    requires Answer(s, call).1.Served? && (call.LogIn? || call.LogOut? || call.Touch? || call.PutVault?)
    ensures OnlyChanges(s, Answer(s, call).0, Parts(call)) && AccountEffect(s, Answer(s, call).0, call)
  {
    if call.Touch? || call.PutVault? {
      SessionByRows(s, call.token, call.now);
    }
    hide LiveSession, LiveAdmin, Recognised, FindSession, RequireCtx, RequireAdmin, UserIsGone;
  }

  lemma RemovalTakesEffect(s: Store, id: Id)
    requires RemoveUser(s, id).1.Done?
    ensures UserIsGone(s, RemoveUser(s, id).0, id)
  {
    hide Filter;
  }

  lemma RemovalsTakeEffect(s: Store, call: Call)
    requires Answer(s, call).1.Served? && (call.Remove? || call.Leave?)
    ensures OnlyChanges(s, Answer(s, call).0, Parts(call)) && AccountEffect(s, Answer(s, call).0, call)
  {
    SessionByRows(s, call.token, call.now);
    hide LiveSession, LiveAdmin, Recognised, FindSession, UserIsGone, WithoutUser;
    RemovalTakesEffect(s, if call.Remove? then call.userId else Self(s, call.token));
  }

  lemma PairingStarts(s: Store, call: Call)
    requires Answer(s, call).1.Served? && call.StartPairing?
    ensures OnlyChanges(s, Answer(s, call).0, Parts(call)) && ItemEffect(s, Answer(s, call).0, call)
  {
    assert Answer(s, call) == Services.StartPairing(s, call.now, call.id, call.publicJwk, call.codes);
    hide Answer, LeadsNowhere, UnusedCode, UserIsGone;
    var i := FirstDrawn(s, call.codes);
  }

  lemma FirstDrawn(s: Store, codes: seq<Id>) returns (i: nat)
    requires UnusedCode(s, if |codes| <= 8 then codes else codes[..8]).Some?
    ensures i < |codes| && i < 8 && LeadsNowhere(s, codes[i]) && forall j | 0 <= j < i :: !LeadsNowhere(s, codes[j])
    ensures UnusedCode(s, if |codes| <= 8 then codes else codes[..8]) == Some(codes[i])
  {
    var drawn := if |codes| <= 8 then codes else codes[..8];
    i := FirstUnused(s, drawn);
    assert codes[i] == drawn[i] && forall j | 0 <= j < i :: codes[j] == drawn[j];
  }

  lemma {:induction false} FirstUnused(s: Store, codes: seq<Id>) returns (i: nat)
    requires UnusedCode(s, codes).Some?
    ensures i < |codes| && UnusedCode(s, codes) == Some(codes[i]) && LeadsNowhere(s, codes[i])
    ensures forall j | 0 <= j < i :: !LeadsNowhere(s, codes[j])
  {
    i := 0;
    if !LeadsNowhere(s, codes[0]) {
      var k := FirstUnused(s, codes[1..]);
      i := k + 1;
    }
  }

  lemma WrapsTakeEffect(s: Store, call: Call)
    requires Answer(s, call).1.Served? && call.PostWrap?
    ensures OnlyChanges(s, Answer(s, call).0, Parts(call)) && ItemEffect(s, Answer(s, call).0, call)
  {
    SessionByRows(s, call.token, call.now);
    assert Answer(s, call) == Services.PostWrap(s, call.token, call.now, call.id, call.wrap);
    hide Answer, LiveSession, Recognised, FindSession, RequireCtx;
  }

  lemma CreatesTakeEffect(s: Store, call: Call)
    requires Answer(s, call).1.Served? && call.Create?
    ensures OnlyChanges(s, Answer(s, call).0, Parts(call)) && ItemEffect(s, Answer(s, call).0, call)
  {
    SessionByRows(s, call.token, call.now);
    var at := ItemAt(s, call.n.id);
    assert at < |s.items| ==> s.items[at] in s.items;
    assert Answer(s, call) == CreateItemCall(s, call.token, call.now, call.allowed, call.n);
    hide Answer, LiveSession, Recognised, FindSession, RequireCtx;
  }

  lemma UpdatesTakeEffect(s: Store, call: Call)
    requires Answer(s, call).1.Served? && call.Update?
    ensures OnlyChanges(s, Answer(s, call).0, Parts(call)) && ItemEffect(s, Answer(s, call).0, call)
  {
    SessionByRows(s, call.token, call.now);
    OwnRow(s, Self(s, call.token), call.id);
    var at := OwnItemAt(s, Self(s, call.token), call.id);
    assert Answer(s, call) == UpdateItemCall(s, call.token, call.now, call.allowed, call.id, call.p);
    hide Answer, LiveSession, Recognised, FindSession, RequireCtx, OwnItemAt;
    assert FirstOwn(s.items, Self(s, call.token), call.id, at);
  }

  lemma ItemsTakeEffect(s: Store, call: Call)
    requires Answer(s, call).1.Served? && (call.Delete? || call.Preserve? || call.ResetExpiry?)
    ensures OnlyChanges(s, Answer(s, call).0, Parts(call)) && ItemEffect(s, Answer(s, call).0, call)
  {
    SessionByRows(s, call.token, call.now);
    hide LiveSession, LiveAdmin, Recognised, FindSession, RequireCtx, RequireAdmin, Filter;
    if call.Delete? {
      FilterMembers(s.items, (item: Item) => !(item.ownerId == Self(s, call.token) && item.id == call.id));
    }
  }

  lemma RequestsTakeEffect(s: Store, call: Call)
    requires Answer(s, call).1.Served? && call.Request?
    ensures OnlyChanges(s, Answer(s, call).0, Parts(call)) && UploadEffect(s, Answer(s, call).0, call)
  {
    SessionByRows(s, call.token, call.now);
    assert Answer(s, call) == RequestUpload(s, call.token, call.now, call.id, call.requestedMb);
    hide Answer, LiveSession, Recognised, FindSession, RequireCtx;
  }

  lemma DecisionsTakeEffect(s: Store, call: Call)
    requires Answer(s, call).1.Served? && call.Decide?
    ensures OnlyChanges(s, Answer(s, call).0, Parts(call)) && UploadEffect(s, Answer(s, call).0, call)
  {
    SessionByRows(s, call.token, call.now);
    RequestRow(s, call.id);
    var at := FirstIndex(s.uploadRequests, (r: UploadRequest) => r.id == call.id);
    assert Answer(s, call) == DecideUpload(s, call.token, call.now, call.id, call.approved, call.grantedMb);
    hide Answer, LiveAdmin, Recognised, FindSession, RequireAdmin, FirstIndex;
    assert FirstRequest(s.uploadRequests, call.id, at);
  }

  lemma IntentsTakeEffect(s: Store, call: Call)
    requires Answer(s, call).1.Served? && call.Intent?
    ensures OnlyChanges(s, Answer(s, call).0, Parts(call)) && UploadEffect(s, Answer(s, call).0, call)
  {
    SessionByRows(s, call.token, call.now);
    assert Answer(s, call)
           == UploadIntent(s, call.token, call.now, call.configured, call.byteSize, call.chunkCount, call.blobId, call.r2Key);
    hide Answer, LiveSession, Recognised, FindSession, RequireCtx;
  }

  lemma CommitChangesOnly(s: Store, ownerId: Id, actualBytes: nat, c: CommitRequest, pinned: bool, now: int)
    requires CommitBlobAndItem(s, ownerId, actualBytes, c, pinned, now).1.Done?
    ensures var s' := CommitBlobAndItem(s, ownerId, actualBytes, c, pinned, now).0;
            && s' == s.(users := s'.users, items := s'.items, blobs := s'.blobs)
            && ownerId in s.users && Sets(s.users, s'.users, ownerId, s.users[ownerId].(used := s.users[ownerId].used + actualBytes))
            && (exists i | FirstBlob(s.blobs, c.blobId, i) ::
                  && SetsAt(s.blobs, s'.blobs, i,
                            s.blobs[i].(state := Committed, byteSize := actualBytes, sha256 := c.sha256, committedAt := Some(now)))
                  && Adds(s.items, s'.items, Item(c.itemId, c.kind, s.blobs[i].ownerId, c.body, Some(c.blobId), actualBytes, now,
                                                  c.expiresAt, pinned)))
  {
    BlobRow(s, c.blobId);
    assert FirstBlob(s.blobs, c.blobId, BlobAt(s, c.blobId));
    hide BlobAt;
  }

  lemma CommitsTakeEffect(s: Store, call: Call)
    requires Answer(s, call).1.Served? && call.Commit?
    ensures OnlyChanges(s, Answer(s, call).0, Parts(call)) && UploadEffect(s, Answer(s, call).0, call)
  {
    SessionByRows(s, call.token, call.now);
    BlobRow(s, call.c.blobId);
    assert Answer(s, call) == CommitUpload(s, call.token, call.now, call.configured, call.c, call.stat);
    hide Answer, LiveSession, Recognised, FindSession, RequireCtx, BlobAt, UploadTicket, Self, CommitBlobAndItem;
    hide FirstBlob, Sets, SetsAt, Adds;
    var me := Self(s, call.token);
    CommitChangesOnly(s, me, call.stat.value, call.c, KeepStored(s.users[me]), call.now);
  }

  /** What a served call does to the store, all of it. */
  ghost predicate Effect(s: Store, s': Store, call: Call) {
    OnlyChanges(s, s', Parts(call)) && AccountEffect(s, s', call) && ItemEffect(s, s', call) && UploadEffect(s, s', call)
  }

  /** Whatever a served call does, it does exactly this. */
  lemma ServedCallsTakeEffect(s: Store, call: Call)
    requires Answer(s, call).1.Served?
    ensures Effect(s, Answer(s, call).0, call)
  {
    hide Answer, UserIsGone, OnlyChanges, FirstOwn, FirstRequest, FirstBlob, LeadsNowhere, Prune;
    if call.IssueInvite? || call.WithdrawInvite? || call.Revoke? {
      AdminCallsTakeEffect(s, call);
    } else if call.LogIn? || call.LogOut? || call.Touch? || call.PutVault? {
      SessionCallsTakeEffect(s, call);
    } else if call.Remove? || call.Leave? {
      RemovalsTakeEffect(s, call);
    } else if call.StartPairing? {
      PairingStarts(s, call);
    } else if call.PostWrap? {
      WrapsTakeEffect(s, call);
    } else if call.Create? {
      CreatesTakeEffect(s, call);
    } else if call.Update? {
      UpdatesTakeEffect(s, call);
    } else if call.Delete? || call.Preserve? || call.ResetExpiry? {
      ItemsTakeEffect(s, call);
    } else if call.Request? {
      RequestsTakeEffect(s, call);
    } else if call.Decide? {
      DecisionsTakeEffect(s, call);
    } else if call.Intent? {
      IntentsTakeEffect(s, call);
    } else if call.Commit? {
      CommitsTakeEffect(s, call);
    } else {
      SweepsTakeEffect(s, call);
    }
  }

  lemma SweepsTakeEffect(s: Store, call: Call)
    requires call.Sweep?
    ensures Effect(s, Answer(s, call).0, call)
  {
    PruneLeaves(s, call.now);
    assert Answer(s, call).0 == Prune(s, call.now);
    hide Prune, KeepsOnly, Filter;
  }

  // ---- enrolment

  /** The sealed user's new device and its session come in; each kind of challenge does its own besides. */
  ghost predicate FinishEffect(s: Store, s': Store, step: Step)
    requires step.Finish?
  {
    && Sets(s.devices, s'.devices, step.deviceId, Device(step.c.userId, None, step.signCount, None))
    && Sets(s.sessions, s'.sessions, step.hash, NewSession(step.deviceId, step.now))
    && match step.c
       case Register(_, id, handle, hash) =>
         && OnlyChanges(s, s', {Users, Devices, Sessions, Invites})
         && Sets(s.users, s'.users, id, User(handle, Member, false, false, 0, 0, false, false))
         && exists i | i in s.invites && s.invites[i].tokenHash == hash ::
              Sets(s.invites, s'.invites, i, s.invites[i].(redeemedBy := Some(id), redeemedAt := Some(step.now)))
       case PairingEnroll(_, _, p) =>
         && OnlyChanges(s, s', {Devices, Sessions, Pairings})
         && KeepsOnly(s.pairings, s'.pairings, (k: Id, _) => k != p)
         && KeepsOnly(s.pairingCodes, s'.pairingCodes, (_, k: Id) => k != p)
       case _ => OnlyChanges(s, s', {Devices, Sessions})
  }

  lemma RegistersTakeEffect(s: Store, step: Step)
    requires step.Finish? && step.c.Register? && Enrolled(s, step).1.Served?
    ensures FinishEffect(s, Enrolled(s, step).0, step)
  {
    var i := InviteByHash(s, step.c.inviteHash).value;
    assert i in s.invites && s.invites[i].tokenHash == step.c.inviteHash;
    hide HandleInUse;
    assert Enrolled(s, step) == RegisterVerify(s, step.c, step.now, step.verified, step.deviceId, step.signCount, step.hash);
    hide Enrolled, KeepsOnly;
  }

  lemma PairingsTakeEffect(s: Store, step: Step)
    requires step.Finish? && step.c.PairingEnroll? && Enrolled(s, step).1.Served?
    ensures FinishEffect(s, Enrolled(s, step).0, step)
  {
    assert Enrolled(s, step) == PairingVerify(s, step.c, step.now, step.verified, step.deviceId, step.signCount, step.hash);
    hide Enrolled;
  }

  lemma DevicesTakeEffect(s: Store, step: Step)
    requires step.Finish? && (step.c.AdminEnroll? || step.c.RecoveryEnroll?) && Enrolled(s, step).1.Served?
    ensures FinishEffect(s, Enrolled(s, step).0, step)
  {
    hide RegisterVerify, PairingVerify, KeepsOnly;
  }

  lemma RefusedFinish(s: Store, step: Step)
    requires step.Finish? && Enrolled(s, step).1.Refused?
    ensures Enrolled(s, step).0 == s
  {
    hide AddDeviceAndSession, DeletePairing, StateOfInvite, HandleInUse, DevicesOf;
  }

  /** A served enrolment does exactly this, and a refused one nothing. */
  lemma FinishesTakeEffect(s: Store, step: Step)
    requires step.Finish?
    ensures if Enrolled(s, step).1.Served? then FinishEffect(s, Enrolled(s, step).0, step) else Enrolled(s, step).0 == s
  {
    hide Enrolled, FinishEffect;
    if Enrolled(s, step).1.Refused? {
      RefusedFinish(s, step);
    } else if step.c.Register? {
      RegistersTakeEffect(s, step);
    } else if step.c.PairingEnroll? {
      PairingsTakeEffect(s, step);
    } else {
      DevicesTakeEffect(s, step);
    }
  }
}
