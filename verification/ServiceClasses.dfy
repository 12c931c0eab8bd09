/** The services over the in-memory store: each method checks, then updates the store step by step. */
module ServiceClasses {
  import opened Wrappers
  import opened Rows
  import opened PrunePlan
  import opened StoreOps
  import opened Services
  import opened MemoryStore

  class VaultService {
    const store: MemoryAuthStore

    constructor (store: MemoryAuthStore)
      ensures this.store == store
    {
      this.store := store;
    }

    /** Draws up to eight codes and keeps the first that finds no pairing. */
    method MintUnusedPairingCode(draws: seq<Id>) returns (code: Option<Id>)
      requires |draws| == PAIRING_CODE_ATTEMPTS
      ensures code == UnusedCode(store.View(), draws)
    {
      for attempt := 0 to PAIRING_CODE_ATTEMPTS
        invariant UnusedCode(store.View(), draws) == UnusedCode(store.View(), draws[attempt..])
      {
        var found := store.GetPairingByCode(draws[attempt]);
        if found.None? {
          return Some(draws[attempt]);
        }
      }
      return None;
    }

    method StartPairing(now: int, id: Id, publicJwk: Id, draws: seq<Id>) returns (o: Outcome)
      requires |draws| == PAIRING_CODE_ATTEMPTS
      modifies store
      ensures (store.View(), o) == Services.StartPairing(old(store.View()), now, id, publicJwk, draws)
    {
      var code := MintUnusedPairingCode(draws);
      if code.None? {
        return Refused(RateLimited);
      }
      store.CreatePairing(id, code.value, publicJwk, now + PAIRING_TTL_MS, now);
      return Served;
    }

    method PostWrap(token: Id, now: int, id: Id, wrap: Id) returns (o: Outcome)
      modifies store
      ensures (store.View(), o) == Services.PostWrap(old(store.View()), token, now, id, wrap)
      ensures o.Served? ==> RequireCtx(old(store.View()), token, now).Ok? && id in store.pairings
                            && store.pairings[id].userId == Some(RequireCtx(old(store.View()), token, now).value.userId)
    {
      var ctx := RequireCtx(store.View(), token, now);
      if ctx.Err? {
        return Refused(ctx.error);
      }
      var row := RequireLivePairing(store.View(), id, now);
      if row.Err? {
        return Refused(row.error);
      }
      if row.value.wrap.Some? {
        return Refused(PairingComplete);
      }
      var verdict := store.SavePairingWrap(id, ctx.value.userId, wrap);
      return Served;
    }

    method CreateItem(token: Id, now: int, allowed: bool, n: NewItem) returns (o: Outcome)
      modifies store
      ensures (store.View(), o) == CreateItemCall(old(store.View()), token, now, allowed, n)
    {
      var ctx := RequireCtx(store.View(), token, now);
      if ctx.Err? {
        return Refused(ctx.error);
      }
      var user := store.users[ctx.value.userId];
      if !user.hasVault {
        return Refused(VaultMissing);
      }
      if n.cipherBytes > TEXT_CIPHERTEXT_MAX_BYTES {
        return Refused(ItemInvalid);
      }
      if n.expiresAt <= now {
        return Refused(ItemExpired);
      }
      if n.expiresAt > now + TEXT_TTL_MS + CLOCK_SLACK_MS {
        return Refused(ItemInvalid);
      }
      if !allowed {
        return Refused(RateLimited);
      }
      var verdict := store.CreateItem(ctx.value.userId, n, now, user.role.Admin? && user.preserveNotes);
      return if verdict.NotOwner? then Refused(Forbidden) else Served;
    }

    method UpdateItem(token: Id, now: int, allowed: bool, id: Id, p: Patch) returns (o: Outcome)
      modifies store
      ensures (store.View(), o) == UpdateItemCall(old(store.View()), token, now, allowed, id, p)
    {
      var ctx := RequireCtx(store.View(), token, now);
      if ctx.Err? {
        return Refused(ctx.error);
      }
      if !store.users[ctx.value.userId].hasVault {
        return Refused(VaultMissing);
      }
      if p.cipherBytes > TEXT_CIPHERTEXT_MAX_BYTES {
        return Refused(ItemInvalid);
      }
      if !allowed {
        return Refused(RateLimited);
      }
      var verdict := store.UpdateTextItem(ctx.value.userId, id, p, now);
      if verdict.Missing? {
        return Refused(NotFound);
      }
      if verdict.NotText? || verdict.Expired? {
        return Refused(if verdict.Expired? then ItemExpired else ItemInvalid);
      }
      return Served;
    }

    method UploadIntent(token: Id, now: int, configured: bool, byteSize: nat, chunkCount: nat, blobId: Id, r2Key: string)
      returns (o: Outcome)
      modifies store
      ensures (store.View(), o) == Services.UploadIntent(old(store.View()), token, now, configured, byteSize, chunkCount, blobId, r2Key)
    {
      var ctx := RequireCtx(store.View(), token, now);
      if ctx.Err? {
        return Refused(ctx.error);
      }
      var user := store.users[ctx.value.userId];
      if !user.canUpload {
        return Refused(Forbidden);
      }
      if byteSize > FILE_MAX_BYTES + INTENT_SLACK_BYTES {
        return Refused(ItemInvalid);
      }
      if user.used + byteSize > user.quota {
        return Refused(QuotaExceeded);
      }
      if !configured {
        return Refused(CapabilityUnconfigured);
      }
      store.CreatePendingBlob(blobId, ctx.value.userId, r2Key, byteSize, chunkCount, now);
      return Served;
    }

    method CommitUpload(token: Id, now: int, configured: bool, c: CommitRequest, stat: Option<nat>) returns (o: Outcome)
      modifies store
      ensures (store.View(), o) == Services.CommitUpload(old(store.View()), token, now, configured, c, stat)
    {
      var ctx := RequireCtx(store.View(), token, now);
      if ctx.Err? {
        return Refused(ctx.error);
      }
      var user := store.users[ctx.value.userId];
      if !user.canUpload {
        return Refused(Forbidden);
      }
      var at := BlobAt(store.View(), c.blobId);
      if at == |store.blobs| || store.blobs[at].ownerId != ctx.value.userId || !store.blobs[at].state.Pending? {
        return Refused(ItemInvalid);
      }
      if c.expiresAt <= now {
        return Refused(ItemExpired);
      }
      if c.expiresAt > now + BLOB_TTL_MS + CLOCK_SLACK_MS {
        return Refused(ItemInvalid);
      }
      var ticket := UploadTicket(store.View(), token, now, configured, c.blobId, ToStat);
      if ticket.Err? {
        return Refused(ticket.error);
      }
      if stat.None? || stat.value <= 0 || stat.value > store.blobs[at].byteSize {
        return Refused(ItemInvalid);
      }
      var verdict := store.CommitBlobAndItem(ctx.value.userId, stat.value, c, user.role.Admin? && user.preserveNotes, now);
      return if verdict.OverQuota? then Refused(QuotaExceeded) else Served;
    }

    method FinishDeviceEnroll(userId: Id, pairing: Option<Id>, verified: bool, now: int, deviceId: Id, signCount: nat, hash: Id)
      returns (o: Outcome)
      modifies store
      ensures (store.View(), o) == FinishEnroll(old(store.View()), userId, pairing, verified, now, deviceId, signCount, hash)
    {
      if !verified {
        return Refused(Unverified);
      }
      var expiry := NextSessionExpiry(now, now);
      if expiry.None? {
        return Refused(Unauthorized);
      }
      store.AddDeviceAndSession(userId, deviceId, signCount, hash, expiry.value, now);
      if pairing.Some? {
        store.DeletePairing(pairing.value);
      }
      return Served;
    }

    method PairingRegisterVerify(c: Challenge, now: int, verified: bool, deviceId: Id, signCount: nat, hash: Id) returns (o: Outcome)
      requires c.PairingEnroll?
      modifies store
      ensures (store.View(), o) == PairingVerify(old(store.View()), c, now, verified, deviceId, signCount, hash)
    {
      if c.exp <= now {
        return Refused(InvalidChallenge);
      }
      var row := RequireLivePairing(store.View(), c.pairingId, now);
      if row.Err? {
        return Refused(row.error);
      }
      o := FinishDeviceEnroll(c.userId, Some(c.pairingId), verified, now, deviceId, signCount, hash);
    }

    method RecoveryRegisterVerify(c: Challenge, now: int, verified: bool, deviceId: Id, signCount: nat, hash: Id) returns (o: Outcome)
      requires c.RecoveryEnroll?
      modifies store
      ensures (store.View(), o) == RecoveryVerify(old(store.View()), c, now, verified, deviceId, signCount, hash)
    {
      if c.exp <= now {
        return Refused(InvalidChallenge);
      }
      o := FinishDeviceEnroll(c.userId, None, verified, now, deviceId, signCount, hash);
    }

    method PutVault(token: Id, now: int) returns (o: Outcome)
      modifies store
      ensures (store.View(), o) == Services.PutVault(old(store.View()), token, now)
    {
      var ctx := RequireCtx(store.View(), token, now);
      if ctx.Err? {
        return Refused(ctx.error);
      }
      var verdict := store.SaveVault(ctx.value.userId);
      return if verdict.VaultExists? then Refused(VaultTaken) else Served;
    }

    method DeleteItem(token: Id, now: int, id: Id) returns (o: Outcome)
      modifies store
      ensures (store.View(), o) == DeleteItemCall(old(store.View()), token, now, id)
    {
      var ctx := RequireCtx(store.View(), token, now);
      if ctx.Err? {
        return Refused(ctx.error);
      }
      var _ := store.DeleteItem(ctx.value.userId, id);
      return Served;
    }

    method SetPreserveNotes(token: Id, now: int, enabled: bool) returns (o: Outcome)
      modifies store
      ensures (store.View(), o) == PreserveNotesCall(old(store.View()), token, now, enabled)
    {
      var admin := RequireAdmin(store.View(), token, now);
      if admin.Err? {
        return Refused(admin.error);
      }
      store.SetPreserveNotes(admin.value.userId, enabled);
      return Served;
    }

    method ResetItemExpiry(token: Id, now: int) returns (o: Outcome)
      modifies store
      ensures (store.View(), o) == ResetExpiryCall(old(store.View()), token, now)
    {
      var ctx := RequireCtx(store.View(), token, now);
      if ctx.Err? {
        return Refused(ctx.error);
      }
      var _ := store.ResetItemExpiry(ctx.value.userId, now + TEXT_TTL_MS);
      return Served;
    }

    method RequestUpload(token: Id, now: int, id: Id, requestedMb: nat) returns (o: Outcome)
      modifies store
      ensures (store.View(), o) == Services.RequestUpload(old(store.View()), token, now, id, requestedMb)
    {
      var ctx := RequireCtx(store.View(), token, now);
      if ctx.Err? {
        return Refused(ctx.error);
      }
      if !GrantableMb(requestedMb) {
        return Refused(InvalidBody);
      }
      var verdict := store.CreateUploadRequest(id, ctx.value.userId);
      return if verdict.RequestPending? then Refused(AlreadyPending) else Served;
    }

    method DecideUpload(token: Id, now: int, id: Id, approved: bool, grantedMb: nat) returns (o: Outcome)
      modifies store
      ensures (store.View(), o) == Services.DecideUpload(old(store.View()), token, now, id, approved, grantedMb)
    {
      var admin := RequireAdmin(store.View(), token, now);
      if admin.Err? {
        return Refused(admin.error);
      }
      if approved && !GrantableMb(grantedMb) {
        return Refused(InvalidBody);
      }
      var granted := if approved then Some(grantedMb * MIB) else None;
      var verdict := store.DecideUploadRequest(id, admin.value.userId, approved, granted);
      match verdict
      case Missing => return Refused(ItemInvalid);
      case Decided => return Refused(InvalidBody);
      case _ => return Served;
    }

    method Prune(now: int) returns (keepR2Keys: seq<string>, deleteR2Keys: seq<string>)
      modifies store
      ensures store.View() == StoreOps.Prune(old(store.View()), now)
      ensures forall h :: h in store.sessions <==> h in old(store.sessions) && now < old(store.sessions)[h].expiresAt
      ensures keepR2Keys == PlanOf(old(store.View()), now).keepR2Keys && deleteR2Keys == PlanOf(old(store.View()), now).deleteR2Keys
    {
      keepR2Keys, deleteR2Keys := store.Prune(now);
    }
  }

  class AuthService {
    const store: MemoryAuthStore

    constructor (store: MemoryAuthStore)
      ensures this.store == store
    {
      this.store := store;
    }

    method LoginVerify(deviceId: Id, verified: bool, signCount: nat, now: int, hash: Id) returns (o: Outcome)
      modifies store
      ensures (store.View(), o) == Services.LoginVerify(old(store.View()), deviceId, verified, signCount, now, hash)
      ensures o.Served? ==> verified && deviceId in store.devices && store.devices[deviceId].revokedAt.None?
                            && hash in store.sessions && store.sessions[hash].deviceId == deviceId
    {
      if deviceId !in store.devices || store.devices[deviceId].userId !in store.users {
        return Refused(Unverified);
      }
      var device := store.devices[deviceId];
      if device.revokedAt.Some? {
        return Refused(RevokedDevice);
      }
      if store.users[device.userId].suspended {
        return Refused(Suspended);
      }
      if !verified {
        return Refused(Unverified);
      }
      var expiry := NextSessionExpiry(now, now);
      if expiry.None? {
        return Refused(Unauthorized);
      }
      store.CompleteLogin(deviceId, signCount, hash, expiry.value, now);
      return Served;
    }

    method RegisterVerify(c: Challenge, now: int, verified: bool, deviceId: Id, signCount: nat, hash: Id) returns (o: Outcome)
      requires forall i, j | i in store.invites && j in store.invites && i != j :: store.invites[i].tokenHash != store.invites[j].tokenHash
      modifies store
      ensures (store.View(), o) == Services.RegisterVerify(old(store.View()), c, now, verified, deviceId, signCount, hash)
    {
      if !c.Register? || c.exp <= now {
        return Refused(InvalidChallenge);
      }
      if !verified {
        return Refused(Unverified);
      }
      var expiry := NextSessionExpiry(now, now);
      if expiry.None? {
        return Refused(Unauthorized);
      }
      var verdict := store.CompleteRegistration(c.userId, c.handle, c.inviteHash, deviceId, signCount, hash, expiry.value, now);
      if verdict.HandleTaken? {
        return Refused(HandleClash);
      }
      if verdict.InviteInvalid? {
        return Refused(InviteRefused);
      }
      return Served;
    }

    method Me(token: Id, now: int) returns (o: Outcome)
      modifies store
      ensures (store.View(), o) == Services.Me(old(store.View()), token, now)
    {
      var ctx := RequireCtx(store.View(), token, now);
      if ctx.Err? {
        return Refused(ctx.error);
      }
      var expiry := NextSessionExpiry(ctx.value.session.createdAt, now);
      if expiry.None? {
        store.DeleteSession(token);
        return Refused(Unauthorized);
      }
      store.TouchSession(token, expiry.value, now);
      return Served;
    }

    method RevokeDevice(token: Id, now: int, deviceId: Id) returns (o: Outcome)
      modifies store
      ensures (store.View(), o) == RevokeDeviceCall(old(store.View()), token, now, deviceId)
    {
      var admin := RequireAdmin(store.View(), token, now);
      if admin.Err? {
        return Refused(admin.error);
      }
      var verdict := store.RevokeDevice(deviceId, now);
      match verdict
      case Missing => return Refused(NotFound);
      case Already => return Refused(AlreadyRevoked);
      case _ => return Served;
    }

    method RemoveUser(token: Id, now: int, userId: Id) returns (o: Outcome)
      modifies store
      ensures (store.View(), o) == RemoveUserCall(old(store.View()), token, now, userId)
    {
      var admin := RequireAdmin(store.View(), token, now);
      if admin.Err? {
        return Refused(admin.error);
      }
      var verdict := store.RemoveUser(userId);
      match verdict
      case Missing => return Refused(NotFound);
      case LastAdmin => return Refused(TheLastAdmin);
      case _ => return Served;
    }

    method AdminEnrollVerify(c: Challenge, now: int, verified: bool, deviceId: Id, signCount: nat, hash: Id) returns (o: Outcome)
      requires c.AdminEnroll?
      modifies store
      ensures (store.View(), o) == Services.AdminEnrollVerify(old(store.View()), c, now, verified, deviceId, signCount, hash)
    {
      if c.exp <= now {
        return Refused(InvalidChallenge);
      }
      if !verified {
        return Refused(Unverified);
      }
      var expiry := NextSessionExpiry(now, now);
      if expiry.None? {
        return Refused(Unauthorized);
      }
      var verdict := store.CompleteAdminEnroll(c.userId, deviceId, signCount, hash, expiry.value, now);
      return if verdict.AdminEnrolled? then Refused(AlreadyEnrolled) else Served;
    }

    method CreateInvite(token: Id, now: int, id: Id, hash: Id) returns (o: Outcome)
      modifies store
      ensures (store.View(), o) == IssueInvite(old(store.View()), token, now, id, hash)
    {
      var admin := RequireAdmin(store.View(), token, now);
      if admin.Err? {
        return Refused(admin.error);
      }
      store.CreateInvite(id, admin.value.userId, hash, now + INVITE_TTL_MS, now);
      return Served;
    }

    method RevokeInvite(token: Id, now: int, id: Id) returns (o: Outcome)
      modifies store
      ensures (store.View(), o) == WithdrawInvite(old(store.View()), token, now, id)
    {
      var admin := RequireAdmin(store.View(), token, now);
      if admin.Err? {
        return Refused(admin.error);
      }
      var ok := store.RevokeInvite(id, now);
      return if ok then Served else Refused(InviteRefused);
    }

    method Logout(token: Id) returns (o: Outcome)
      modifies store
      ensures (store.View(), o) == Services.Logout(old(store.View()), token)
    {
      store.DeleteSession(token);
      return Served;
    }

    method DeleteAccount(token: Id, now: int, handle: Id) returns (o: Outcome)
      modifies store
      ensures (store.View(), o) == Services.DeleteAccount(old(store.View()), token, now, handle)
    {
      var ctx := RequireCtx(store.View(), token, now);
      if ctx.Err? {
        return Refused(ctx.error);
      }
      if store.users[ctx.value.userId].handle != handle {
        return Refused(InvalidBody);
      }
      var verdict := store.RemoveUser(ctx.value.userId);
      match verdict
      case Missing => return Refused(NotFound);
      case LastAdmin => return Refused(TheLastAdmin);
      case _ => return Served;
    }
  }
}
