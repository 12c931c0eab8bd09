/** The in-memory store itself: maps and lists updated in place, each method against its function on store values. */
module MemoryStore {
  import opened Wrappers
  import opened Rows
  import opened PrunePlan
  import opened StoreOps

  class MemoryAuthStore {
    var users: map<Id, User>
    var vaults: set<Id>
    var devices: map<Id, Device>
    var sessions: map<Id, Session>
    var invites: map<Id, Invite>
    var pairings: map<Id, Pairing>
    var pairingCodes: map<Id, Id>
    var items: seq<Item>
    var blobs: seq<Blob>
    var uploadRequests: seq<UploadRequest>

    function View(): Store
      reads this
    {
      Store(users, vaults, devices, sessions, invites, pairings, pairingCodes, items, blobs, uploadRequests)
    }

    constructor ()
      ensures View() == EMPTY_STORE
    {
      users := map[ADMIN_ID := User(ADMIN_HANDLE, Admin, true, false, ADMIN_QUOTA, 0, false, false)];
      vaults, devices, sessions, invites := {}, map[], map[], map[];
      pairings, pairingCodes := map[], map[];
      items, blobs, uploadRequests := [], [], [];
    }

    // ---- lookups: loops over the maps

    /** Hashes identify invites, so whichever row the loop meets first is the one. */
    method GetInviteByTokenHash(hash: Id) returns (found: Option<Id>)
      requires forall i, j | i in invites && j in invites && i != j :: invites[i].tokenHash != invites[j].tokenHash
      ensures found == InviteByHash(View(), hash)
    {
      var todo := invites.Keys;
      while todo != {}
        invariant todo <= invites.Keys
        invariant forall i | i in invites && i !in todo :: invites[i].tokenHash != hash
        decreases |todo|
      {
        var i :| i in todo;
        if invites[i].tokenHash == hash {
          return Some(i);
        }
        todo := todo - {i};
      }
      return None;
    }

    method HandleTaken(handle: Id) returns (taken: bool)
      ensures taken == HandleInUse(View(), handle)
    {
      var todo := users.Keys;
      while todo != {}
        invariant todo <= users.Keys
        invariant forall u | u in users && u !in todo :: users[u].handle != handle
        decreases |todo|
      {
        var u :| u in todo;
        if users[u].handle == handle {
          return true;
        }
        todo := todo - {u};
      }
      return false;
    }

    method CountDevices(userId: Id) returns (count: nat)
      ensures count == |DevicesOf(View(), userId)|
    {
      count := 0;
      var todo := devices.Keys;
      ghost var mine: set<Id> := {};
      while todo != {}
        invariant todo <= devices.Keys
        invariant mine == set d | d in devices && d !in todo && devices[d].userId == userId
        invariant count == |mine|
        decreases |todo|
      {
        var d :| d in todo;
        todo := todo - {d};
        if devices[d].userId == userId {
          count := count + 1;
          mine := mine + {d};
        }
      }
      assert mine == DevicesOf(View(), userId);
    }

    /** The delete-while-iterating loop of `revokeDevice`, and the inner loop of `removeUser`. */
    method DropSessionsOf(deviceId: Id)
      modifies this`sessions
      ensures sessions == map h | h in old(sessions) && old(sessions)[h].deviceId != deviceId :: old(sessions)[h]
    {
      var todo := sessions.Keys;
      while todo != {}
        invariant todo <= old(sessions).Keys
        invariant sessions == map h | h in old(sessions) && (h in todo || old(sessions)[h].deviceId != deviceId) :: old(sessions)[h]
        decreases |todo|
      {
        var h :| h in todo;
        todo := todo - {h};
        if sessions[h].deviceId == deviceId {
          sessions := sessions - {h};
        }
      }
    }

    // ---- invites, enrolment, sessions, devices

    method CreateInvite(id: Id, createdBy: Id, hash: Id, expiresAt: int, now: int)
      modifies this
      ensures View() == StoreOps.CreateInvite(old(View()), id, createdBy, hash, expiresAt, now)
    {
      invites := invites[id := Invite(hash, createdBy, now, expiresAt, None, None, None)];
    }

    method RevokeInvite(id: Id, now: int) returns (ok: bool)
      modifies this
      ensures (View(), ok) == StoreOps.RevokeInvite(old(View()), id, now)
    {
      if id !in invites || invites[id].redeemedAt.Some? {
        return false;
      }
      invites := invites[id := invites[id].(revokedAt := Some(now))];
      return true;
    }

    method AddDevice(userId: Id, deviceId: Id, signCount: nat)
      modifies this
      ensures View() == StoreOps.AddDevice(old(View()), userId, deviceId, signCount)
    {
      devices := devices[deviceId := Device(userId, None, signCount, None)];
    }

    method AddSession(deviceId: Id, hash: Id, expiresAt: int, now: int)
      modifies this
      ensures View() == StoreOps.AddSession(old(View()), deviceId, hash, expiresAt, now)
    {
      sessions := sessions[hash := Session(deviceId, expiresAt, now, now)];
    }

    method CompleteRegistration(userId: Id, handle: Id, inviteHash: Id, deviceId: Id, signCount: nat,
                                sessionHash: Id, expiresAt: int, now: int) returns (verdict: Verdict)
      requires forall i, j | i in invites && j in invites && i != j :: invites[i].tokenHash != invites[j].tokenHash
      modifies this
      ensures (View(), verdict) == StoreOps.CompleteRegistration(
                old(View()), userId, handle, inviteHash, deviceId, signCount, sessionHash, expiresAt, now)
    {
      var found := GetInviteByTokenHash(inviteHash);
      if found.None? || StateOfInvite(Some(invites[found.value]), now) != InviteOk {
        return InviteInvalid;
      }
      var taken := HandleTaken(handle);
      if taken {
        return StoreOps.HandleTaken;
      }
      users := users[userId := User(handle, Member, false, false, 0, 0, false, false)];
      AddDevice(userId, deviceId, signCount);
      invites := invites[found.value := invites[found.value].(redeemedBy := Some(userId), redeemedAt := Some(now))];
      AddSession(deviceId, sessionHash, expiresAt, now);
      return Done;
    }

    method CompleteAdminEnroll(userId: Id, deviceId: Id, signCount: nat, sessionHash: Id, expiresAt: int, now: int)
      returns (verdict: Verdict)
      modifies this
      ensures (View(), verdict) == StoreOps.CompleteAdminEnroll(old(View()), userId, deviceId, signCount, sessionHash, expiresAt, now)
    {
      var count := CountDevices(userId);
      if count > 0 {
        return AdminEnrolled;
      }
      AddDevice(userId, deviceId, signCount);
      AddSession(deviceId, sessionHash, expiresAt, now);
      return Done;
    }

    method AddDeviceAndSession(userId: Id, deviceId: Id, signCount: nat, sessionHash: Id, expiresAt: int, now: int)
      modifies this
      ensures View() == StoreOps.AddDeviceAndSession(old(View()), userId, deviceId, signCount, sessionHash, expiresAt, now)
    {
      AddDevice(userId, deviceId, signCount);
      AddSession(deviceId, sessionHash, expiresAt, now);
    }

    method CompleteLogin(deviceId: Id, signCount: nat, sessionHash: Id, expiresAt: int, now: int)
      modifies this
      ensures View() == StoreOps.CompleteLogin(old(View()), deviceId, signCount, sessionHash, expiresAt, now)
    {
      if deviceId !in devices {
        return;
      }
      devices := devices[deviceId := devices[deviceId].(signCount := signCount)];
      devices := devices[deviceId := devices[deviceId].(lastSeenAt := Some(now))];
      AddSession(deviceId, sessionHash, expiresAt, now);
    }

    method DeleteSession(hash: Id)
      modifies this
      ensures View() == StoreOps.DeleteSession(old(View()), hash)
    {
      sessions := sessions - {hash};
    }

    method TouchSession(hash: Id, expiresAt: int, now: int)
      modifies this
      ensures View() == StoreOps.TouchSession(old(View()), hash, expiresAt, now)
    {
      if hash !in sessions {
        return;
      }
      sessions := sessions[hash := sessions[hash].(expiresAt := expiresAt)];
      sessions := sessions[hash := sessions[hash].(lastUsed := now)];
    }

    method RevokeDevice(id: Id, now: int) returns (verdict: Verdict)
      modifies this
      ensures (View(), verdict) == StoreOps.RevokeDevice(old(View()), id, now)
    {
      if id !in devices {
        return Missing;
      }
      if devices[id].revokedAt.Some? {
        return Already;
      }
      devices := devices[id := devices[id].(revokedAt := Some(now))];
      DropSessionsOf(id);
      assert sessions == old(sessions) - SessionsOf(old(View()), {id});
      return Done;
    }

    /** The device loop of `removeUser`: each device of the user goes, and its sessions with it. */
    method DropDevicesOf(userId: Id)
      modifies this`devices, this`sessions
      ensures devices == old(devices) - DevicesOf(old(View()), userId)
      ensures sessions == old(sessions) - SessionsOf(old(View()), DevicesOf(old(View()), userId))
    {
      var todo := devices.Keys;
      ghost var gone: set<Id> := {};
      while todo != {}
        invariant todo <= old(devices).Keys
        invariant gone == set d | d in old(devices) && d !in todo && old(devices)[d].userId == userId
        invariant devices == old(devices) - gone
        invariant sessions == map h | h in old(sessions) && old(sessions)[h].deviceId !in gone :: old(sessions)[h]
        decreases |todo|
      {
        var d :| d in todo;
        todo := todo - {d};
        if devices[d].userId == userId {
          devices := devices - {d};
          DropSessionsOf(d);
          gone := gone + {d};
        }
      }
      assert gone == DevicesOf(old(View()), userId);
      assert sessions == old(sessions) - SessionsOf(old(View()), gone);
    }

    method OtherAdminExists(id: Id) returns (found: bool)
      ensures found == OtherAdmin(View(), id)
    {
      var todo := users.Keys;
      while todo != {}
        invariant todo <= users.Keys
        invariant forall u | u in users && u !in todo :: u == id || !users[u].role.Admin?
        decreases |todo|
      {
        var u :| u in todo;
        if u != id && users[u].role.Admin? {
          return true;
        }
        todo := todo - {u};
      }
      return false;
    }

    /** The invite loop of `removeUser`: rows the user issued go, rows the user redeemed forget who did. */
    method ForgetInvites(userId: Id)
      modifies this`invites
      ensures invites == map i | i in old(invites) && old(invites)[i].createdBy != userId :: ForgetRedeemer(old(invites)[i], userId)
    {
      var todo := invites.Keys;
      while todo != {}
        invariant todo <= invites.Keys && invites.Keys <= old(invites).Keys
        invariant forall i | i in todo :: invites[i] == old(invites)[i]
        invariant forall i | i in old(invites) && i !in todo :: i in invites <==> old(invites)[i].createdBy != userId
        invariant forall i | i in invites && i !in todo :: invites[i] == ForgetRedeemer(old(invites)[i], userId)
        decreases |todo|
      {
        var i :| i in todo;
        todo := todo - {i};
        if invites[i].createdBy == userId {
          invites := invites - {i};
          continue;
        }
        if invites[i].redeemedBy == Some(userId) {
          invites := invites[i := invites[i].(redeemedBy := None)];
        }
      }
    }

    method DropRowsOf(id: Id, ghost s: Store)
      requires s.items == items && s.blobs == blobs && s.uploadRequests == uploadRequests
      modifies this`items, this`blobs, this`uploadRequests
      ensures items == WithoutUser(s, id).items
      ensures blobs == WithoutUser(s, id).blobs
      ensures uploadRequests == WithoutUser(s, id).uploadRequests
    {
      items := Filter(items, (item: Item) => item.ownerId != id);
      blobs := Filter(blobs, (blob: Blob) => blob.ownerId != id);
      uploadRequests := Filter(uploadRequests, (r: UploadRequest) => r.userId != id);
      uploadRequests := Map(uploadRequests, (r: UploadRequest) => ForgetDecider(r, id));
    }

    /** Everything `removeUser` deletes once it has decided to. */
    method DropUser(id: Id)
      modifies this
      ensures View() == WithoutUser(old(View()), id)
    {
      hide Filter;
      ghost var s := View();
      users := users - {id};
      vaults := vaults - {id};
      assert DevicesOf(View(), id) == DevicesOf(s, id) && SessionsOf(View(), DevicesOf(s, id)) == SessionsOf(s, DevicesOf(s, id));
      DropDevicesOf(id);
      assert devices == WithoutUser(s, id).devices && sessions == WithoutUser(s, id).sessions;
      DropRowsOf(id, s);
      ForgetInvites(id);
      assert invites == WithoutUser(s, id).invites;
    }

    method RemoveUser(id: Id) returns (verdict: Verdict)
      modifies this
      ensures (View(), verdict) == StoreOps.RemoveUser(old(View()), id)
    {
      if id !in users {
        return Missing;
      }
      if users[id].role.Admin? {
        var others := OtherAdminExists(id);
        if !others {
          return LastAdmin;
        }
      }
      DropUser(id);
      return Done;
    }

    // ---- vault and pairing

    method SaveVault(userId: Id) returns (verdict: Verdict)
      modifies this
      ensures (View(), verdict) == StoreOps.SaveVault(old(View()), userId)
    {
      if userId in vaults {
        return VaultExists;
      }
      vaults := vaults + {userId};
      if userId in users {
        users := users[userId := users[userId].(hasVault := true)];
      }
      return Done;
    }

    method CreatePairing(id: Id, code: Id, publicJwk: Id, expiresAt: int, now: int)
      modifies this
      ensures View() == StoreOps.CreatePairing(old(View()), id, code, publicJwk, expiresAt, now)
    {
      pairings := pairings[id := Pairing(None, publicJwk, None, now, expiresAt)];
      pairingCodes := pairingCodes[code := id];
    }

    method GetPairingByCode(code: Id) returns (found: Option<Id>)
      ensures found == PairingByCode(View(), code)
    {
      if code in pairingCodes && pairingCodes[code] in pairings {
        return Some(pairingCodes[code]);
      }
      return None;
    }

    method SavePairingWrap(id: Id, userId: Id, wrap: Id) returns (verdict: Verdict)
      modifies this
      ensures (View(), verdict) == StoreOps.SavePairingWrap(old(View()), id, userId, wrap)
      ensures verdict.Done? ==> id in pairings && pairings[id].userId == Some(userId) && pairings[id].wrap == Some(wrap)
    {
      if id !in pairings {
        return Missing;
      }
      if pairings[id].wrap.Some? {
        return Complete;
      }
      pairings := pairings[id := pairings[id].(userId := Some(userId))];
      pairings := pairings[id := pairings[id].(wrap := Some(wrap))];
      assert pairings == old(pairings)[id := old(pairings)[id].(userId := Some(userId), wrap := Some(wrap))];
      return Done;
    }

    method DeletePairing(id: Id)
      modifies this
      ensures View() == StoreOps.DeletePairing(old(View()), id)
    {
      pairings := pairings - {id};
      DropCodesOf(id);
    }

    /** The index loop of `deletePairing`. */
    method DropCodesOf(id: Id)
      modifies this`pairingCodes
      ensures pairingCodes == map c | c in old(pairingCodes) && old(pairingCodes)[c] != id :: old(pairingCodes)[c]
    {
      var todo := pairingCodes.Keys;
      while todo != {}
        invariant todo <= old(pairingCodes).Keys
        invariant pairingCodes == map c | c in old(pairingCodes) && (c in todo || old(pairingCodes)[c] != id) :: old(pairingCodes)[c]
        decreases |todo|
      {
        var c :| c in todo;
        todo := todo - {c};
        if pairingCodes[c] == id {
          pairingCodes := pairingCodes - {c};
        }
      }
    }

    // ---- items

    method CreateItem(ownerId: Id, n: NewItem, now: int, pinned: bool) returns (verdict: Verdict)
      modifies this
      ensures (View(), verdict) == StoreOps.CreateItem(old(View()), ownerId, n, now, pinned)
    {
      var at := ItemAt(View(), n.id);
      if at < |items| {
        if items[at].ownerId != ownerId {
          return NotOwner;
        }
        return Already;
      }
      items := items + [Item(n.id, n.kind, ownerId, n.body, None, n.byteSize, now, n.expiresAt, pinned)];
      return Done;
    }

    method SetPreserveNotes(ownerId: Id, enabled: bool)
      modifies this
      ensures View() == StoreOps.SetPreserveNotes(old(View()), ownerId, enabled)
    {
      if ownerId in users {
        users := users[ownerId := users[ownerId].(preserveNotes := enabled)];
      }
      var i := 0;
      while i < |items|
        invariant i <= |items| == |old(items)|
        invariant forall j | 0 <= j < i :: items[j] == if old(items)[j].ownerId == ownerId then old(items)[j].(pinned := enabled) else old(items)[j]
        invariant forall j | i <= j < |items| :: items[j] == old(items)[j]
        invariant users == if ownerId in old(users) then old(users)[ownerId := old(users)[ownerId].(preserveNotes := enabled)] else old(users)
        invariant vaults == old(vaults) && devices == old(devices) && sessions == old(sessions) && invites == old(invites)
        invariant pairings == old(pairings) && pairingCodes == old(pairingCodes) && blobs == old(blobs) && uploadRequests == old(uploadRequests)
      {
        if items[i].ownerId == ownerId {
          items := items[i := items[i].(pinned := enabled)];
        }
        i := i + 1;
      }
    }

    method UpdateTextItem(ownerId: Id, id: Id, p: Patch, now: int) returns (verdict: Verdict)
      modifies this
      ensures (View(), verdict) == StoreOps.UpdateTextItem(old(View()), ownerId, id, p, now)
    {
      var at := OwnItemAt(View(), ownerId, id);
      if at == |items| {
        return Missing;
      }
      if items[at].kind != Text && items[at].kind != Link {
        return NotText;
      }
      if !items[at].pinned && items[at].expiresAt <= now {
        return Expired;
      }
      items := items[at := items[at].(kind := p.kind, body := p.body, byteSize := p.byteSize, createdAt := now)];
      return Done;
    }

    method ResetItemExpiry(ownerId: Id, expiresAt: int) returns (updated: nat)
      modifies this
      ensures View() == StoreOps.ResetItemExpiry(old(View()), ownerId, expiresAt)
      ensures updated == |Filter(old(items), (item: Item) => item.ownerId == ownerId)|
    {
      updated := 0;
      var i := 0;
      while i < |items|
        invariant i <= |items| == |old(items)|
        invariant forall j | 0 <= j < i :: items[j] == if old(items)[j].ownerId == ownerId then old(items)[j].(expiresAt := expiresAt) else old(items)[j]
        invariant forall j | i <= j < |items| :: items[j] == old(items)[j]
        invariant updated == |Filter(old(items)[..i], (item: Item) => item.ownerId == ownerId)|
        invariant users == old(users) && vaults == old(vaults) && devices == old(devices) && sessions == old(sessions) && invites == old(invites)
        invariant pairings == old(pairings) && pairingCodes == old(pairingCodes) && blobs == old(blobs) && uploadRequests == old(uploadRequests)
      {
        FilterAppend(old(items)[..i], [old(items)[i]], (item: Item) => item.ownerId == ownerId);
        assert old(items)[..i + 1] == old(items)[..i] + [old(items)[i]];
        if items[i].ownerId == ownerId {
          items := items[i := items[i].(expiresAt := expiresAt)];
          updated := updated + 1;
        }
        i := i + 1;
      }
      assert old(items)[..i] == old(items);
    }

    method DeleteItem(ownerId: Id, id: Id) returns (gone: bool)
      modifies this
      ensures View() == StoreOps.DeleteItem(old(View()), ownerId, id)
      ensures gone <==> OwnItemAt(old(View()), ownerId, id) < |old(items)|
    {
      var before := |items|;
      items := Filter(items, (item: Item) => !(item.ownerId == ownerId && item.id == id));
      ghost var at := OwnItemAt(old(View()), ownerId, id);
      assert at < |old(items)| ==> old(items)[at] in old(items);
      FilterShrinks(old(items), (item: Item) => !(item.ownerId == ownerId && item.id == id));
      return |items| < before;
    }

    // ---- uploads

    method CreateUploadRequest(id: Id, userId: Id) returns (verdict: Verdict)
      modifies this
      ensures (View(), verdict) == StoreOps.CreateUploadRequest(old(View()), id, userId)
    {
      if exists r | r in uploadRequests :: r.userId == userId && r.status.Waiting? {
        return RequestPending;
      }
      uploadRequests := uploadRequests + [UploadRequest(id, userId, Waiting, None, None)];
      return Done;
    }

    method DecideUploadRequest(id: Id, decidedBy: Id, approved: bool, granted: Option<nat>) returns (verdict: Verdict)
      modifies this
      ensures (View(), verdict) == StoreOps.DecideUploadRequest(old(View()), id, decidedBy, approved, granted)
    {
      var at := FirstIndex(uploadRequests, (r: UploadRequest) => r.id == id);
      if at == |uploadRequests| {
        return Missing;
      }
      var row := uploadRequests[at];
      if !row.status.Waiting? {
        return Decided;
      }
      var status := if approved then Approved else Denied;
      uploadRequests := uploadRequests[at := row.(status := status, decidedBy := Some(decidedBy), grantedBytes := granted)];
      if approved && granted.Some? && granted.value != 0 {
        if row.userId in users {
          users := users[row.userId := users[row.userId].(canUpload := true, quota := granted.value)];
        }
      }
      return Done;
    }

    method CreatePendingBlob(id: Id, ownerId: Id, r2Key: string, byteSize: nat, chunkCount: nat, now: int)
      modifies this
      ensures View() == StoreOps.CreatePendingBlob(old(View()), id, ownerId, r2Key, byteSize, chunkCount, now)
    {
      blobs := blobs + [Blob(id, ownerId, r2Key, byteSize, chunkCount, 0, Pending, now, None)];
    }

    method CommitBlobAndItem(ownerId: Id, actualBytes: nat, c: CommitRequest, pinned: bool, now: int) returns (verdict: Verdict)
      modifies this
      ensures (View(), verdict) == StoreOps.CommitBlobAndItem(old(View()), ownerId, actualBytes, c, pinned, now)
    {
      if ownerId !in users {
        return OverQuota;
      }
      if users[ownerId].used + actualBytes > users[ownerId].quota {
        return OverQuota;
      }
      var at := FirstIndex(blobs, (blob: Blob) => blob.id == c.blobId);
      if at == |blobs| || blobs[at].state != Pending {
        return OverQuota;
      }
      blobs := blobs[at := blobs[at].(state := Committed, byteSize := actualBytes, sha256 := c.sha256, committedAt := Some(now))];
      users := users[ownerId := users[ownerId].(used := users[ownerId].used + actualBytes)];
      items := items + [Item(c.itemId, c.kind, blobs[at].ownerId, c.body, Some(blobs[at].id), actualBytes, now, c.expiresAt, pinned)];
      return Done;
    }

    method UsageSnapshot() returns (committedBytes: nat, pendingBytes: nat, classAEstimate: nat)
      ensures committedBytes == BytesIn(blobs, Committed)
      ensures pendingBytes == BytesIn(blobs, Pending)
      ensures classAEstimate == Chunks(blobs)
    {
      committedBytes, pendingBytes, classAEstimate := 0, 0, 0;
      for i := 0 to |blobs|
        invariant committedBytes + BytesIn(blobs[i..], Committed) == BytesIn(blobs, Committed)
        invariant pendingBytes + BytesIn(blobs[i..], Pending) == BytesIn(blobs, Pending)
        invariant classAEstimate + Chunks(blobs[i..]) == Chunks(blobs)
      {
        classAEstimate := classAEstimate + blobs[i].chunkCount;
        if blobs[i].state == Committed {
          committedBytes := committedBytes + blobs[i].byteSize;
        } else {
          pendingBytes := pendingBytes + blobs[i].byteSize;
        }
      }
    }

    /** Runs the plan, then deletes row by row and lowers the counters. */
    method Prune(now: int) returns (keepR2Keys: seq<string>, deleteR2Keys: seq<string>)
      modifies this
      ensures View() == StoreOps.Prune(old(View()), now)
      ensures forall h :: h in sessions <==> h in old(sessions) && now < old(sessions)[h].expiresAt
      ensures forall p :: p in pairings <==> p in old(pairings) && now < old(pairings)[p].expiresAt
      ensures keepR2Keys == PlanOf(old(View()), now).keepR2Keys
      ensures deleteR2Keys == PlanOf(old(View()), now).deleteR2Keys
    {
      var plan := PlanPrune(View(), now);
      items := Filter(items, (item: Item) => item.id !in plan.deleteItemIds);
      pairings := pairings - plan.deletePairingIds;
      sessions := sessions - plan.deleteSessionKeys;
      blobs := Filter(blobs, (blob: Blob) => blob.id !in plan.deleteBlobIds);
      label beforeUsage:
      var i := 0;
      while i < |plan.decrementUsage|
        invariant i <= |plan.decrementUsage|
        invariant ApplyDecrements(users, plan.decrementUsage[i..]) == ApplyDecrements(old(users), plan.decrementUsage)
        invariant View() == old@beforeUsage(View()).(users := users)
      {
        var row := plan.decrementUsage[i];
        if row.ownerId in users {
          users := users[row.ownerId := users[row.ownerId].(used := Max(0, users[row.ownerId].used - row.bytes))];
        }
        i := i + 1;
      }
      return plan.keepR2Keys, plan.deleteR2Keys;
    }
  }

  lemma {:induction false} FilterShrinks<T>(xs: seq<T>, keep: T -> bool)
    ensures |Filter(xs, keep)| <= |xs|
    ensures |Filter(xs, keep)| < |xs| <==> exists x | x in xs :: !keep(x)
  {
    if xs != [] {
      FilterShrinks(xs[1..], keep);
      assert forall x | x in xs :: x == xs[0] || x in xs[1..];
    }
  }
}
