/** The guarded service calls: each checks its session and arguments, then runs store operations. */
module Services {
  import opened Wrappers
  import opened Rows
  import opened PrunePlan
  import opened StoreOps

  datatype AuthError =
    | Unauthorized | RevokedDevice | Suspended | Forbidden | InvalidBody | NotFound | InviteRefused | VaultMissing
    | VaultTaken | PairingMissing | PairingExpired | PairingComplete | RateLimited | ItemExpired | ItemInvalid
    | AlreadyPending | QuotaExceeded | CapabilityUnconfigured | Unverified | TheLastAdmin | HandleClash
    | InvalidChallenge | AlreadyEnrolled | AlreadyRevoked

  datatype Outcome = Served | Refused(error: AuthError)

  type Reply = (Store, Outcome)

  datatype Ctx = Ctx(session: Session, deviceId: Id, userId: Id)

  /** The sealed tickets that carry an enrolment from its options call to its verify call. */
  datatype Challenge =
    | Register(exp: int, userId: Id, handle: Id, inviteHash: Id)
    | AdminEnroll(exp: int, userId: Id)
    | PairingEnroll(exp: int, userId: Id, pairingId: Id)
    | RecoveryEnroll(exp: int, userId: Id)

  function FindSession(s: Store, token: Id): Option<Ctx> {
    if token in s.sessions then
      var session := s.sessions[token];
      if session.deviceId in s.devices && s.devices[session.deviceId].userId in s.users
      then Some(Ctx(session, session.deviceId, s.devices[session.deviceId].userId))
      else None
    else None
  }

  function RequireCtx(s: Store, token: Id, now: int): (r: Result<Ctx, AuthError>)
    ensures r.Ok? ==> r.value.userId in s.users && r.value.deviceId in s.devices
                      && s.devices[r.value.deviceId].userId == r.value.userId
    ensures r.Ok? ==> token in s.sessions && r.value.session == s.sessions[token]
                      && r.value.deviceId == s.sessions[token].deviceId
    ensures r.Ok? ==> now < r.value.session.expiresAt && s.devices[r.value.deviceId].revokedAt.None?
                      && !s.users[r.value.userId].suspended
  {
    var found := FindSession(s, token);
    if found.None? || found.value.session.expiresAt <= now then Err(Unauthorized)
    else if s.devices[found.value.deviceId].revokedAt.Some? then Err(RevokedDevice)
    else if s.users[found.value.userId].suspended then Err(Suspended)
    else Ok(found.value)
  }

  function RequireAdmin(s: Store, token: Id, now: int): (r: Result<Ctx, AuthError>)
    ensures r.Ok? ==> RequireCtx(s, token, now) == r && s.users[r.value.userId].role.Admin?
  {
    var r := RequireCtx(s, token, now);
    if r.Ok? && !s.users[r.value.userId].role.Admin? then Err(Forbidden) else r
  }

  predicate KeepStored(user: User) { user.role.Admin? && user.preserveNotes }

  // ---- invites, sessions, devices, accounts

  function IssueInvite(s: Store, token: Id, now: int, id: Id, hash: Id): Reply {
    var admin := RequireAdmin(s, token, now);
    if admin.Err? then (s, Refused(admin.error))
    else (CreateInvite(s, id, admin.value.userId, hash, now + INVITE_TTL_MS, now), Served)
  }

  function WithdrawInvite(s: Store, token: Id, now: int, id: Id): Reply {
    var admin := RequireAdmin(s, token, now);
    if admin.Err? then (s, Refused(admin.error))
    else
      var (s', ok) := RevokeInvite(s, id, now);
      if ok then (s', Served) else (s, Refused(InviteRefused))
  }

  /** `deviceId` is the device the asserted credential belongs to; `verified` is the authenticator's answer. */
  function LoginVerify(s: Store, deviceId: Id, verified: bool, signCount: nat, now: int, hash: Id): Reply {
    if deviceId !in s.devices || s.devices[deviceId].userId !in s.users then (s, Refused(Unverified))
    else if s.devices[deviceId].revokedAt.Some? then (s, Refused(RevokedDevice))
    else if s.users[s.devices[deviceId].userId].suspended then (s, Refused(Suspended))
    else if !verified then (s, Refused(Unverified))
    else
      var expiry := NextSessionExpiry(now, now);
      if expiry.None? then (s, Refused(Unauthorized))
      else (CompleteLogin(s, deviceId, signCount, hash, expiry.value, now), Served)
  }

  function Logout(s: Store, token: Id): Reply { (DeleteSession(s, token), Served) }

  function Me(s: Store, token: Id, now: int): Reply {
    var ctx := RequireCtx(s, token, now);
    if ctx.Err? then (s, Refused(ctx.error))
    else
      var expiry := NextSessionExpiry(ctx.value.session.createdAt, now);
      if expiry.None? then (DeleteSession(s, token), Refused(Unauthorized))
      else (TouchSession(s, token, expiry.value, now), Served)
  }

  function RevokeDeviceCall(s: Store, token: Id, now: int, deviceId: Id): Reply {
    var admin := RequireAdmin(s, token, now);
    if admin.Err? then (s, Refused(admin.error))
    else
      var (s', verdict) := RevokeDevice(s, deviceId, now);
      match verdict
      case Missing => (s, Refused(NotFound))
      case Already => (s, Refused(AlreadyRevoked))
      case _ => (s', Served)
  }

  function Removal(s: Store, userId: Id): Reply {
    var (s', verdict) := RemoveUser(s, userId);
    match verdict
    case Missing => (s, Refused(NotFound))
    case LastAdmin => (s, Refused(TheLastAdmin))
    case _ => (s', Served)
  }

  function RemoveUserCall(s: Store, token: Id, now: int, userId: Id): Reply {
    var admin := RequireAdmin(s, token, now);
    if admin.Err? then (s, Refused(admin.error)) else Removal(s, userId)
  }

  function DeleteAccount(s: Store, token: Id, now: int, handle: Id): Reply {
    var ctx := RequireCtx(s, token, now);
    if ctx.Err? then (s, Refused(ctx.error))
    else if s.users[ctx.value.userId].handle != handle then (s, Refused(InvalidBody))
    else Removal(s, ctx.value.userId)
  }

  // ---- vault and pairing

  function PutVault(s: Store, token: Id, now: int): Reply {
    var ctx := RequireCtx(s, token, now);
    if ctx.Err? then (s, Refused(ctx.error))
    else
      var (s', verdict) := SaveVault(s, ctx.value.userId);
      if verdict.VaultExists? then (s, Refused(VaultTaken)) else (s', Served)
  }

  /** The first of the drawn codes that finds no pairing, among at most eight. */
  function UnusedCode(s: Store, codes: seq<Id>): (r: Option<Id>)
    ensures r.Some? ==> r.value in codes && PairingByCode(s, r.value).None?
    ensures r.None? ==> forall c | c in codes :: PairingByCode(s, c).Some?
  {
    if codes == [] then None
    else if PairingByCode(s, codes[0]).None? then Some(codes[0])
    else UnusedCode(s, codes[1..])
  }

  function StartPairing(s: Store, now: int, id: Id, publicJwk: Id, codes: seq<Id>): Reply {
    var drawn := if |codes| <= PAIRING_CODE_ATTEMPTS then codes else codes[..PAIRING_CODE_ATTEMPTS];
    var code := UnusedCode(s, drawn);
    if code.None? then (s, Refused(RateLimited))
    else (CreatePairing(s, id, code.value, publicJwk, now + PAIRING_TTL_MS, now), Served)
  }

  function RequireLivePairing(s: Store, id: Id, now: int): (r: Result<Pairing, AuthError>)
    ensures r.Ok? ==> id in s.pairings && r.value == s.pairings[id] && now < r.value.expiresAt
  {
    if id !in s.pairings then Err(PairingMissing)
    else if s.pairings[id].expiresAt <= now then Err(PairingExpired)
    else Ok(s.pairings[id])
  }

  function PostWrap(s: Store, token: Id, now: int, id: Id, wrap: Id): Reply {
    var ctx := RequireCtx(s, token, now);
    if ctx.Err? then (s, Refused(ctx.error))
    else
      var row := RequireLivePairing(s, id, now);
      if row.Err? then (s, Refused(row.error))
      else
        var (s', verdict) := SavePairingWrap(s, id, ctx.value.userId, wrap);
        match verdict
        case Missing => (s, Refused(PairingMissing))
        case Complete => (s, Refused(PairingComplete))
        case _ => (s', Served)
  }

  // ---- items

  /** `allowed` is the rate limiter's answer. */
  function CreateItemCall(s: Store, token: Id, now: int, allowed: bool, n: NewItem): Reply {
    var ctx := RequireCtx(s, token, now);
    if ctx.Err? then (s, Refused(ctx.error))
    else if !s.users[ctx.value.userId].hasVault then (s, Refused(VaultMissing))
    else if n.cipherBytes > TEXT_CIPHERTEXT_MAX_BYTES then (s, Refused(ItemInvalid))
    else if n.expiresAt <= now then (s, Refused(ItemExpired))
    else if n.expiresAt > now + TEXT_TTL_MS + CLOCK_SLACK_MS then (s, Refused(ItemInvalid))
    else if !allowed then (s, Refused(RateLimited))
    else
      var (s', verdict) := CreateItem(s, ctx.value.userId, n, now, KeepStored(s.users[ctx.value.userId]));
      if verdict.NotOwner? then (s, Refused(Forbidden)) else (s', Served)
  }

  function UpdateItemCall(s: Store, token: Id, now: int, allowed: bool, id: Id, p: Patch): Reply {
    var ctx := RequireCtx(s, token, now);
    if ctx.Err? then (s, Refused(ctx.error))
    else if !s.users[ctx.value.userId].hasVault then (s, Refused(VaultMissing))
    else if p.cipherBytes > TEXT_CIPHERTEXT_MAX_BYTES then (s, Refused(ItemInvalid))
    else if !allowed then (s, Refused(RateLimited))
    else
      var (s', verdict) := UpdateTextItem(s, ctx.value.userId, id, p, now);
      match verdict
      case Missing => (s, Refused(NotFound))
      case NotText => (s, Refused(ItemInvalid))
      case Expired => (s, Refused(ItemExpired))
      case _ => (s', Served)
  }

  function DeleteItemCall(s: Store, token: Id, now: int, id: Id): Reply {
    var ctx := RequireCtx(s, token, now);
    if ctx.Err? then (s, Refused(ctx.error)) else (DeleteItem(s, ctx.value.userId, id), Served)
  }

  function PreserveNotesCall(s: Store, token: Id, now: int, enabled: bool): Reply {
    var admin := RequireAdmin(s, token, now);
    if admin.Err? then (s, Refused(admin.error)) else (SetPreserveNotes(s, admin.value.userId, enabled), Served)
  }

  function ResetExpiryCall(s: Store, token: Id, now: int): Reply {
    var ctx := RequireCtx(s, token, now);
    if ctx.Err? then (s, Refused(ctx.error)) else (ResetItemExpiry(s, ctx.value.userId, now + TEXT_TTL_MS), Served)
  }

  // ---- uploads

  predicate GrantableMb(mb: nat) { QUOTA_GRANT_MIN_MB <= mb <= QUOTA_GRANT_MAX_MB }

  function RequestUpload(s: Store, token: Id, now: int, id: Id, requestedMb: nat): Reply {
    var ctx := RequireCtx(s, token, now);
    if ctx.Err? then (s, Refused(ctx.error))
    else if !GrantableMb(requestedMb) then (s, Refused(InvalidBody))
    else
      var (s', verdict) := CreateUploadRequest(s, id, ctx.value.userId);
      if verdict.RequestPending? then (s, Refused(AlreadyPending)) else (s', Served)
  }

  function DecideUpload(s: Store, token: Id, now: int, id: Id, approved: bool, grantedMb: nat): Reply {
    var admin := RequireAdmin(s, token, now);
    if admin.Err? then (s, Refused(admin.error))
    else if approved && !GrantableMb(grantedMb) then (s, Refused(InvalidBody))
    else
      var granted := if approved then Some(grantedMb * MIB) else None;
      var (s', verdict) := DecideUploadRequest(s, id, admin.value.userId, approved, granted);
      match verdict
      case Missing => (s, Refused(ItemInvalid))
      case Decided => (s, Refused(InvalidBody))
      case _ => (s', Served)
  }

  /** `configured` says that the capability key and the edge address are set. */
  function UploadIntent(s: Store, token: Id, now: int, configured: bool, byteSize: nat, chunkCount: nat,
                        blobId: Id, r2Key: string): Reply {
    var ctx := RequireCtx(s, token, now);
    if ctx.Err? then (s, Refused(ctx.error))
    else
      var user := s.users[ctx.value.userId];
      if !user.canUpload then (s, Refused(Forbidden))
      else if byteSize > FILE_MAX_BYTES + INTENT_SLACK_BYTES then (s, Refused(ItemInvalid))
      else if user.used + byteSize > user.quota then (s, Refused(QuotaExceeded))
      else if !configured then (s, Refused(CapabilityUnconfigured))
      else (CreatePendingBlob(s, blobId, ctx.value.userId, r2Key, byteSize, chunkCount, now), Served)
  }

  datatype TicketPurpose = ToUpload | ToStat | ToDownload

  /** On success, the object prefix the ticket opens and its byte cap. */
  function UploadTicket(s: Store, token: Id, now: int, configured: bool, blobId: Id, purpose: TicketPurpose):
      (r: Result<(string, nat), AuthError>)
  {
    if !configured then Err(CapabilityUnconfigured)
    else
      var ctx := RequireCtx(s, token, now);
      if ctx.Err? then Err(ctx.error)
      else if !s.users[ctx.value.userId].canUpload then Err(Forbidden)
      else
        var at := BlobAt(s, blobId);
        if at == |s.blobs| || s.blobs[at].ownerId != ctx.value.userId then Err(ItemInvalid)
        else if purpose.ToDownload? != s.blobs[at].state.Committed? then Err(ItemInvalid)
        else Ok((s.blobs[at].r2Key, s.blobs[at].byteSize))
  }

  /** `stat` is the bucket's byte total for the blob, or None when the edge gave no answer. */
  function CommitUpload(s: Store, token: Id, now: int, configured: bool, c: CommitRequest, stat: Option<nat>): Reply {
    var ctx := RequireCtx(s, token, now);
    if ctx.Err? then (s, Refused(ctx.error))
    else if !s.users[ctx.value.userId].canUpload then (s, Refused(Forbidden))
    else
      var at := BlobAt(s, c.blobId);
      if at == |s.blobs| || s.blobs[at].ownerId != ctx.value.userId || !s.blobs[at].state.Pending?
      then (s, Refused(ItemInvalid))
      else if c.expiresAt <= now then (s, Refused(ItemExpired))
      else if c.expiresAt > now + BLOB_TTL_MS + CLOCK_SLACK_MS then (s, Refused(ItemInvalid))
      else
        var ticket := UploadTicket(s, token, now, configured, c.blobId, ToStat);
        if ticket.Err? then (s, Refused(ticket.error))
        else if stat.None? || stat.value == 0 || stat.value > s.blobs[at].byteSize then (s, Refused(ItemInvalid))
        else
          var pinned := KeepStored(s.users[ctx.value.userId]);
          var (s', verdict) := CommitBlobAndItem(s, ctx.value.userId, stat.value, c, pinned, now);
          if verdict.OverQuota? then (s, Refused(QuotaExceeded)) else (s', Served)
  }

  // ---- enrolment: an options call seals a challenge, a verify call spends it

  ghost function RegisterOptions(s: Store, now: int, inviteHash: Id, handle: Id, userId: Id): Result<Challenge, AuthError> {
    if StateOfInvite(InviteRow(s, inviteHash), now) != InviteOk then Err(InviteRefused)
    else if HandleInUse(s, handle) then Err(HandleClash)
    else Ok(Register(now + CHALLENGE_TTL_MS, userId, handle, inviteHash))
  }

  ghost function RegisterVerify(s: Store, c: Challenge, now: int, verified: bool, deviceId: Id, signCount: nat, hash: Id): Reply {
    if !c.Register? || c.exp <= now then (s, Refused(InvalidChallenge))
    else if !verified then (s, Refused(Unverified))
    else
      var expiry := NextSessionExpiry(now, now);
      if expiry.None? then (s, Refused(Unauthorized))
      else
        var (s', verdict) := CompleteRegistration(s, c.userId, c.handle, c.inviteHash, deviceId, signCount, hash, expiry.value, now);
        match verdict
        case HandleTaken => (s, Refused(HandleClash))
        case InviteInvalid => (s, Refused(InviteRefused))
        case _ => (s', Served)
  }

  /** `userId` is the user the handle names. */
  function AdminEnrollOptions(s: Store, now: int, secretOk: bool, userId: Id): Result<Challenge, AuthError> {
    if !secretOk || userId !in s.users || !s.users[userId].role.Admin? then Err(Forbidden)
    else if DevicesOf(s, userId) != {} then Err(AlreadyEnrolled)
    else Ok(AdminEnroll(now + CHALLENGE_TTL_MS, userId))
  }

  function AdminEnrollVerify(s: Store, c: Challenge, now: int, verified: bool, deviceId: Id, signCount: nat, hash: Id): Reply {
    if !c.AdminEnroll? || c.exp <= now then (s, Refused(InvalidChallenge))
    else if !verified then (s, Refused(Unverified))
    else
      var expiry := NextSessionExpiry(now, now);
      if expiry.None? then (s, Refused(Unauthorized))
      else
        var (s', verdict) := CompleteAdminEnroll(s, c.userId, deviceId, signCount, hash, expiry.value, now);
        if verdict.AdminEnrolled? then (s, Refused(AlreadyEnrolled)) else (s', Served)
  }

  function PairingOptions(s: Store, now: int, pairingId: Id): Result<Challenge, AuthError> {
    var row := RequireLivePairing(s, pairingId, now);
    if row.Err? then Err(row.error)
    else if row.value.userId.None? || row.value.wrap.None? || row.value.userId.value !in s.users then Err(PairingMissing)
    else Ok(PairingEnroll(now + CHALLENGE_TTL_MS, row.value.userId.value, pairingId))
  }

  function RecoveryOptions(s: Store, now: int, verifierOk: bool, userId: Id): Result<Challenge, AuthError> {
    if userId !in s.vaults || userId !in s.users then Err(VaultMissing)
    else if !verifierOk then Err(Forbidden)
    else Ok(RecoveryEnroll(now + CHALLENGE_TTL_MS, userId))
  }

  function FinishEnroll(s: Store, userId: Id, pairing: Option<Id>, verified: bool, now: int, deviceId: Id, signCount: nat, hash: Id): Reply {
    if !verified then (s, Refused(Unverified))
    else
      var expiry := NextSessionExpiry(now, now);
      if expiry.None? then (s, Refused(Unauthorized))
      else
        var added := AddDeviceAndSession(s, userId, deviceId, signCount, hash, expiry.value, now);
        (if pairing.Some? then DeletePairing(added, pairing.value) else added, Served)
  }

  function PairingVerify(s: Store, c: Challenge, now: int, verified: bool, deviceId: Id, signCount: nat, hash: Id): Reply {
    if !c.PairingEnroll? || c.exp <= now then (s, Refused(InvalidChallenge))
    else
      var row := RequireLivePairing(s, c.pairingId, now);
      if row.Err? then (s, Refused(row.error))
      else FinishEnroll(s, c.userId, Some(c.pairingId), verified, now, deviceId, signCount, hash)
  }

  function RecoveryVerify(s: Store, c: Challenge, now: int, verified: bool, deviceId: Id, signCount: nat, hash: Id): Reply {
    if !c.RecoveryEnroll? || c.exp <= now then (s, Refused(InvalidChallenge))
    else FinishEnroll(s, c.userId, None, verified, now, deviceId, signCount, hash)
  }
}
