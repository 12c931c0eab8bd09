/** The memory store's operations as functions from one store value to the next. */
module StoreOps {
  import opened Wrappers
  import opened Rows
  import opened PrunePlan

  /** The strings the store's methods return. */
  datatype Verdict =
    | Done | Missing | Already | LastAdmin | Complete | NotText | Expired | NotOwner | InviteInvalid | HandleTaken
    | AdminEnrolled | RequestPending | Decided | OverQuota | VaultExists

  predicate HandleInUse(s: Store, handle: Id) { exists id | id in s.users :: s.users[id].handle == handle }

  ghost function InviteByHash(s: Store, hash: Id): (found: Option<Id>)
    ensures found.Some? ==> found.value in s.invites && s.invites[found.value].tokenHash == hash
    ensures found.None? ==> forall id | id in s.invites :: s.invites[id].tokenHash != hash
  {
    if id :| id in s.invites && s.invites[id].tokenHash == hash then Some(id) else None
  }

  ghost function InviteRow(s: Store, hash: Id): Option<Invite> {
    var found := InviteByHash(s, hash);
    if found.Some? then Some(s.invites[found.value]) else None
  }

  function DevicesOf(s: Store, userId: Id): set<Id> { set d | d in s.devices && s.devices[d].userId == userId }

  function SessionsOf(s: Store, devices: set<Id>): set<Id> {
    set h | h in s.sessions && s.sessions[h].deviceId in devices
  }

  function AddDevice(s: Store, userId: Id, deviceId: Id, signCount: nat): Store {
    s.(devices := s.devices[deviceId := Device(userId, None, signCount, None)])
  }

  function AddSession(s: Store, deviceId: Id, hash: Id, expiresAt: int, now: int): Store {
    s.(sessions := s.sessions[hash := Session(deviceId, expiresAt, now, now)])
  }

  function CreateInvite(s: Store, id: Id, createdBy: Id, hash: Id, expiresAt: int, now: int): Store {
    s.(invites := s.invites[id := Invite(hash, createdBy, now, expiresAt, None, None, None)])
  }

  function RevokeInvite(s: Store, id: Id, now: int): (Store, bool) {
    if id !in s.invites || s.invites[id].redeemedAt.Some? then (s, false)
    else (s.(invites := s.invites[id := s.invites[id].(revokedAt := Some(now))]), true)
  }

  ghost function CompleteRegistration(s: Store, userId: Id, handle: Id, inviteHash: Id, deviceId: Id,
                                      signCount: nat, sessionHash: Id, expiresAt: int, now: int): (Store, Verdict) {
    var found := InviteByHash(s, inviteHash);
    if StateOfInvite(InviteRow(s, inviteHash), now) != InviteOk then (s, InviteInvalid)
    else if HandleInUse(s, handle) then (s, HandleTaken)
    else
      var user := User(handle, Member, false, false, 0, 0, false, false);
      var redeemed := s.invites[found.value].(redeemedBy := Some(userId), redeemedAt := Some(now));
      var withUser := s.(users := s.users[userId := user], invites := s.invites[found.value := redeemed]);
      (AddSession(AddDevice(withUser, userId, deviceId, signCount), deviceId, sessionHash, expiresAt, now), Done)
  }

  function AddDeviceAndSession(s: Store, userId: Id, deviceId: Id, signCount: nat, sessionHash: Id,
                               expiresAt: int, now: int): Store {
    AddSession(AddDevice(s, userId, deviceId, signCount), deviceId, sessionHash, expiresAt, now)
  }

  function CompleteAdminEnroll(s: Store, userId: Id, deviceId: Id, signCount: nat, sessionHash: Id,
                               expiresAt: int, now: int): (Store, Verdict) {
    if DevicesOf(s, userId) != {} then (s, AdminEnrolled)
    else (AddDeviceAndSession(s, userId, deviceId, signCount, sessionHash, expiresAt, now), Done)
  }

  function CompleteLogin(s: Store, deviceId: Id, signCount: nat, sessionHash: Id, expiresAt: int, now: int): Store {
    if deviceId !in s.devices then s
    else
      var device := s.devices[deviceId].(signCount := signCount, lastSeenAt := Some(now));
      AddSession(s.(devices := s.devices[deviceId := device]), deviceId, sessionHash, expiresAt, now)
  }

  function DeleteSession(s: Store, hash: Id): Store { s.(sessions := s.sessions - {hash}) }

  function TouchSession(s: Store, hash: Id, expiresAt: int, now: int): Store {
    if hash !in s.sessions then s
    else s.(sessions := s.sessions[hash := s.sessions[hash].(expiresAt := expiresAt, lastUsed := now)])
  }

  function RevokeDevice(s: Store, id: Id, now: int): (Store, Verdict) {
    if id !in s.devices then (s, Missing)
    else if s.devices[id].revokedAt.Some? then (s, Already)
    else (s.(devices := s.devices[id := s.devices[id].(revokedAt := Some(now))],
             sessions := s.sessions - SessionsOf(s, {id})), Done)
  }

  predicate OtherAdmin(s: Store, id: Id) { exists u | u in s.users :: u != id && s.users[u].role.Admin? }

  function ForgetDecider(row: UploadRequest, id: Id): UploadRequest {
    if row.decidedBy == Some(id) then row.(decidedBy := None) else row
  }

  function ForgetRedeemer(row: Invite, id: Id): Invite {
    if row.redeemedBy == Some(id) then row.(redeemedBy := None) else row
  }

  function WithoutUser(s: Store, id: Id): Store {
    s.(users := s.users - {id},
       vaults := s.vaults - {id},
       devices := s.devices - DevicesOf(s, id),
       sessions := s.sessions - SessionsOf(s, DevicesOf(s, id)),
       invites := map i | i in s.invites && s.invites[i].createdBy != id :: ForgetRedeemer(s.invites[i], id),
       items := Filter(s.items, (item: Item) => item.ownerId != id),
       blobs := Filter(s.blobs, (blob: Blob) => blob.ownerId != id),
       uploadRequests := Map(Filter(s.uploadRequests, (r: UploadRequest) => r.userId != id),
                             (r: UploadRequest) => ForgetDecider(r, id)))
  }

  function RemoveUser(s: Store, id: Id): (Store, Verdict) {
    if id !in s.users then (s, Missing)
    else if s.users[id].role.Admin? && !OtherAdmin(s, id) then (s, LastAdmin)
    else (WithoutUser(s, id), Done)
  }

  function SaveVault(s: Store, userId: Id): (Store, Verdict) {
    if userId in s.vaults then (s, VaultExists)
    else
      (s.(vaults := s.vaults + {userId},
          users := if userId in s.users then s.users[userId := s.users[userId].(hasVault := true)] else s.users),
       Done)
  }

  function CreatePairing(s: Store, id: Id, code: Id, publicJwk: Id, expiresAt: int, now: int): Store {
    s.(pairings := s.pairings[id := Pairing(None, publicJwk, None, now, expiresAt)],
       pairingCodes := s.pairingCodes[code := id])
  }

  function PairingByCode(s: Store, code: Id): Option<Id> {
    if code in s.pairingCodes && s.pairingCodes[code] in s.pairings then Some(s.pairingCodes[code]) else None
  }

  function SavePairingWrap(s: Store, id: Id, userId: Id, wrap: Id): (Store, Verdict) {
    if id !in s.pairings then (s, Missing)
    else if s.pairings[id].wrap.Some? then (s, Complete)
    else (s.(pairings := s.pairings[id := s.pairings[id].(userId := Some(userId), wrap := Some(wrap))]), Done)
  }

  function DeletePairing(s: Store, id: Id): Store {
    s.(pairings := s.pairings - {id},
       pairingCodes := map c | c in s.pairingCodes && s.pairingCodes[c] != id :: s.pairingCodes[c])
  }

  function ItemAt(s: Store, id: Id): nat { FirstIndex(s.items, (item: Item) => item.id == id) }

  function OwnItemAt(s: Store, ownerId: Id, id: Id): nat {
    FirstIndex(s.items, (item: Item) => item.id == id && item.ownerId == ownerId)
  }

  function CreateItem(s: Store, ownerId: Id, n: NewItem, now: int, pinned: bool): (Store, Verdict) {
    var at := ItemAt(s, n.id);
    if at < |s.items| then (s, if s.items[at].ownerId != ownerId then NotOwner else Already)
    else (s.(items := s.items + [Item(n.id, n.kind, ownerId, n.body, None, n.byteSize, now, n.expiresAt, pinned)]), Done)
  }

  function SetPreserveNotes(s: Store, ownerId: Id, enabled: bool): Store {
    s.(users := if ownerId in s.users then s.users[ownerId := s.users[ownerId].(preserveNotes := enabled)] else s.users,
       items := Map(s.items, (item: Item) => if item.ownerId == ownerId then item.(pinned := enabled) else item))
  }

  function UpdateTextItem(s: Store, ownerId: Id, id: Id, p: Patch, now: int): (Store, Verdict) {
    var at := OwnItemAt(s, ownerId, id);
    if at == |s.items| then (s, Missing)
    else if !IsNote(s.items[at].kind) then (s, NotText)
    else if Lapsed(s.items[at], now) then (s, Expired)
    else
      (s.(items := s.items[at := s.items[at].(kind := p.kind, body := p.body, byteSize := p.byteSize, createdAt := now)]),
       Done)
  }

  function ResetItemExpiry(s: Store, ownerId: Id, expiresAt: int): Store {
    s.(items := Map(s.items, (item: Item) => if item.ownerId == ownerId then item.(expiresAt := expiresAt) else item))
  }

  function DeleteItem(s: Store, ownerId: Id, id: Id): Store {
    s.(items := Filter(s.items, (item: Item) => !(item.ownerId == ownerId && item.id == id)))
  }

  function CreateUploadRequest(s: Store, id: Id, userId: Id): (Store, Verdict) {
    if exists r | r in s.uploadRequests :: r.userId == userId && r.status.Waiting? then (s, RequestPending)
    else (s.(uploadRequests := s.uploadRequests + [UploadRequest(id, userId, Waiting, None, None)]), Done)
  }

  function DecideUploadRequest(s: Store, id: Id, decidedBy: Id, approved: bool, granted: Option<nat>): (Store, Verdict) {
    var at := FirstIndex(s.uploadRequests, (r: UploadRequest) => r.id == id);
    if at == |s.uploadRequests| then (s, Missing)
    else if !s.uploadRequests[at].status.Waiting? then (s, Decided)
    else
      var row := s.uploadRequests[at];
      var decided := row.(status := if approved then Approved else Denied, decidedBy := Some(decidedBy), grantedBytes := granted);
      var grants := approved && granted.Some? && granted.value != 0 && row.userId in s.users;
      (s.(uploadRequests := s.uploadRequests[at := decided],
          users := if grants
                   then s.users[row.userId := s.users[row.userId].(canUpload := true, quota := granted.value)]
                   else s.users),
       Done)
  }

  function CreatePendingBlob(s: Store, id: Id, ownerId: Id, r2Key: string, byteSize: nat, chunkCount: nat, now: int): Store {
    s.(blobs := s.blobs + [Blob(id, ownerId, r2Key, byteSize, chunkCount, 0, Pending, now, None)])
  }

  function BlobAt(s: Store, id: Id): nat { FirstIndex(s.blobs, (blob: Blob) => blob.id == id) }

  /** `blobId` and `ownerId` are those of the blob row the service hands in. */
  function CommitBlobAndItem(s: Store, ownerId: Id, actualBytes: nat, c: CommitRequest, pinned: bool, now: int): (Store, Verdict) {
    var at := BlobAt(s, c.blobId);
    if ownerId !in s.users then (s, OverQuota)
    else if s.users[ownerId].used + actualBytes > s.users[ownerId].quota then (s, OverQuota)
    else if at == |s.blobs| || !s.blobs[at].state.Pending? then (s, OverQuota)
    else
      var blob := s.blobs[at].(state := Committed, byteSize := actualBytes, sha256 := c.sha256, committedAt := Some(now));
      var user := s.users[ownerId].(used := s.users[ownerId].used + actualBytes);
      var item := Item(c.itemId, c.kind, blob.ownerId, c.body, Some(blob.id), actualBytes, now, c.expiresAt, pinned);
      (s.(blobs := s.blobs[at := blob], users := s.users[ownerId := user], items := s.items + [item]), Done)
  }

  /** The usage loop at the end of a prune: each row is subtracted in turn, clamped at zero. */
  function ApplyDecrements(users: map<Id, User>, rows: seq<Decrement>): map<Id, User> {
    if rows == [] then users
    else
      var d := rows[0];
      var next := if d.ownerId in users
                  then users[d.ownerId := users[d.ownerId].(used := Max(0, users[d.ownerId].used - d.bytes))]
                  else users;
      ApplyDecrements(next, rows[1..])
  }

  function Prune(s: Store, now: int): Store {
    var plan := PlanOf(s, now);
    s.(items := Filter(s.items, (item: Item) => item.id !in plan.deleteItemIds),
       pairings := s.pairings - plan.deletePairingIds,
       sessions := s.sessions - plan.deleteSessionKeys,
       blobs := Filter(s.blobs, (blob: Blob) => blob.id !in plan.deleteBlobIds),
       users := ApplyDecrements(s.users, plan.decrementUsage))
  }

  // ---- the usage page

  /** The bytes of all blobs in a state. */
  function BytesIn(blobs: seq<Blob>, state: BlobState): nat {
    if blobs == [] then 0 else (if blobs[0].state == state then blobs[0].byteSize else 0) + BytesIn(blobs[1..], state)
  }

  function Chunks(blobs: seq<Blob>): nat {
    if blobs == [] then 0 else blobs[0].chunkCount + Chunks(blobs[1..])
  }
}
