/**
 * The rows of the server's store and the constants its rules use.
 * Ids, handles, token hashes, pairing codes and sealed bodies are only ever compared for
 * equality, so they are numbers here. Times are milliseconds.
 */
module Rows {
  import opened Wrappers

  type Id = nat

  const ADMIN_ID: Id := 1
  const ADMIN_HANDLE: Id := 0
  const ADMIN_QUOTA := 524_288_000

  const INVITE_TTL_MS := 72 * 60 * 60 * 1000
  const SESSION_SLIDING_MS := 30 * 24 * 60 * 60 * 1000
  const SESSION_HARD_CAP_MS := 90 * 24 * 60 * 60 * 1000
  const CHALLENGE_TTL_MS := 5 * 60 * 1000
  const PAIRING_TTL_MS := 5 * 60 * 1000
  const TEXT_TTL_MS := 30 * 24 * 60 * 60 * 1000
  const BLOB_TTL_MS := 7 * 24 * 60 * 60 * 1000
  const PENDING_BLOB_MAX_AGE_MS := 60 * 60 * 1000
  const CLOCK_SLACK_MS := 60_000
  const MIB := 1024 * 1024
  const FILE_MAX_BYTES := 100 * 1024 * 1024
  const INTENT_SLACK_BYTES := 2_097_152
  const TEXT_CIPHERTEXT_MAX_BYTES := 64 * 1024 + 16
  const QUOTA_GRANT_MIN_MB := 25
  const QUOTA_GRANT_MAX_MB := 100
  const PAIRING_CODE_ATTEMPTS := 8

  datatype Role = Admin | Member

  datatype User = User(handle: Id, role: Role, canUpload: bool, hasVault: bool, quota: nat, used: nat,
                       preserveNotes: bool, suspended: bool)

  datatype Device = Device(userId: Id, revokedAt: Option<int>, signCount: nat, lastSeenAt: Option<int>)

  datatype Session = Session(deviceId: Id, expiresAt: int, createdAt: int, lastUsed: int)

  datatype Invite = Invite(tokenHash: Id, createdBy: Id, createdAt: int, expiresAt: int,
                           redeemedBy: Option<Id>, redeemedAt: Option<int>, revokedAt: Option<int>)

  datatype InviteState = InviteOk | InviteMissing | InviteExpired | InviteRevoked | InviteRedeemed

  /** A pairing row does not hold its own code; the code is only in the index beside it. */
  datatype Pairing = Pairing(userId: Option<Id>, publicJwk: Id, wrap: Option<Id>, createdAt: int, expiresAt: int)

  datatype Kind = Text | Link | Image | File

  predicate IsNote(kind: Kind) { kind.Text? || kind.Link? }

  /** `body` stands for the ciphertext, metadata, iv and wrapped key together. */
  datatype Item = Item(id: Id, kind: Kind, ownerId: Id, body: Id, blobId: Option<Id>, byteSize: nat,
                       createdAt: int, expiresAt: int, pinned: bool)

  datatype NewItem = NewItem(id: Id, kind: Kind, body: Id, cipherBytes: nat, byteSize: nat, expiresAt: int)

  datatype Patch = Patch(kind: Kind, body: Id, cipherBytes: nat, byteSize: nat)

  datatype BlobState = Pending | Committed

  datatype Blob = Blob(id: Id, ownerId: Id, r2Key: string, byteSize: nat, chunkCount: nat, sha256: Id,
                       state: BlobState, createdAt: int, committedAt: Option<int>)

  datatype CommitRequest = CommitRequest(blobId: Id, itemId: Id, kind: Kind, body: Id, sha256: Id, expiresAt: int)

  datatype RequestStatus = Waiting | Approved | Denied

  datatype UploadRequest = UploadRequest(id: Id, userId: Id, status: RequestStatus, decidedBy: Option<Id>,
                                         grantedBytes: Option<nat>)

  /** The store: the maps and lists of the memory store, as one value. */
  datatype Store = Store(
    users: map<Id, User>,
    vaults: set<Id>,
    devices: map<Id, Device>,
    sessions: map<Id, Session>,
    invites: map<Id, Invite>,
    pairings: map<Id, Pairing>,
    pairingCodes: map<Id, Id>,
    items: seq<Item>,
    blobs: seq<Blob>,
    uploadRequests: seq<UploadRequest>)

  /** The store right after construction: the seeded admin and nothing else. */
  const EMPTY_STORE := Store(
    map[ADMIN_ID := User(ADMIN_HANDLE, Admin, true, false, ADMIN_QUOTA, 0, false, false)],
    {}, map[], map[], map[], map[], map[], [], [], [])

  /** Sliding thirty days, never past ninety days after creation. */
  function NextSessionExpiry(createdAt: int, now: int): (expiry: Option<int>)
    ensures expiry.Some? <==> now < createdAt + SESSION_HARD_CAP_MS
    ensures expiry.Some? ==> now < expiry.value <= createdAt + SESSION_HARD_CAP_MS
    ensures expiry.Some? ==> expiry.value <= now + SESSION_SLIDING_MS
    ensures expiry.Some? ==> expiry.value == now + SESSION_SLIDING_MS || expiry.value == createdAt + SESSION_HARD_CAP_MS
  {
    var hard := createdAt + SESSION_HARD_CAP_MS;
    if now >= hard then None else Some(Min(now + SESSION_SLIDING_MS, hard))
  }

  function StateOfInvite(invite: Option<Invite>, now: int): InviteState {
    match invite
    case None => InviteMissing
    case Some(row) =>
      if row.revokedAt.Some? then InviteRevoked
      else if row.redeemedAt.Some? then InviteRedeemed
      else if row.expiresAt <= now then InviteExpired
      else InviteOk
  }
}
