/** Who is served: the answer to every call and enrolment as the first demand on the rows that fails, one table for all. */
module Guards {
  import opened Wrappers
  import opened Rows
  import opened StoreOps
  import opened Services
  import opened Runs

  const MINUTE := 60_000
  const DAY := 86_400_000

  function Needs(ok: bool, error: AuthError): Outcome { if ok then Served else Refused(error) }

  function Then(first: Outcome, second: Outcome): Outcome { if first.Refused? then first else second }

  // ---- who the caller is, by the rows

  /** The token's session, its device and that device's user all exist. */
  predicate Recognised(s: Store, token: Id) {
    token in s.sessions && s.sessions[token].deviceId in s.devices && s.devices[s.sessions[token].deviceId].userId in s.users
  }

  function DeviceOf(s: Store, token: Id): Device
    requires Recognised(s, token)
  {
    s.devices[s.sessions[token].deviceId]
  }

  /** The user a token stands for. */
  function Self(s: Store, token: Id): (me: Id)
    ensures Recognised(s, token) ==> me in s.users
  {
    if Recognised(s, token) then DeviceOf(s, token).userId else 0
  }

  predicate SignedIn(s: Store, token: Id, now: int, me: Id) {
    && Recognised(s, token) && DeviceOf(s, token).userId == me
    && now < s.sessions[token].expiresAt && DeviceOf(s, token).revokedAt.None? && !s.users[me].suspended
  }

  predicate SelfIs(s: Store, token: Id, test: User -> bool) { Recognised(s, token) && test(s.users[Self(s, token)]) }

  function LiveSession(s: Store, token: Id, now: int): Outcome {
    Then(Needs(Recognised(s, token) && now < s.sessions[token].expiresAt, Unauthorized),
    Then(Needs(Recognised(s, token) && DeviceOf(s, token).revokedAt.None?, RevokedDevice),
         Needs(SelfIs(s, token, (user: User) => !user.suspended), Suspended)))
  }

  function LiveAdmin(s: Store, token: Id, now: int): Outcome {
    Then(LiveSession(s, token, now), Needs(SelfIs(s, token, (user: User) => user.role.Admin?), Forbidden))
  }

  // ---- first rows: lists may repeat an id, and the code takes the first match

  predicate FirstItem(items: seq<Item>, id: Id, i: int) {
    0 <= i < |items| && items[i].id == id && forall j | 0 <= j < i :: items[j].id != id
  }

  predicate FirstOwn(items: seq<Item>, me: Id, id: Id, i: int) {
    && 0 <= i < |items| && items[i].id == id && items[i].ownerId == me
    && forall j | 0 <= j < i :: items[j].id != id || items[j].ownerId != me
  }

  predicate FirstBlob(blobs: seq<Blob>, id: Id, i: int) {
    0 <= i < |blobs| && blobs[i].id == id && forall j | 0 <= j < i :: blobs[j].id != id
  }

  predicate FirstRequest(rows: seq<UploadRequest>, id: Id, i: int) {
    0 <= i < |rows| && rows[i].id == id && forall j | 0 <= j < i :: rows[j].id != id
  }

  predicate LeadsNowhere(s: Store, code: Id) { code !in s.pairingCodes || s.pairingCodes[code] !in s.pairings }

  ghost predicate InviteOpen(s: Store, hash: Id, now: int) {
    exists i | i in s.invites && s.invites[i].tokenHash == hash ::
      s.invites[i].revokedAt.None? && s.invites[i].redeemedAt.None? && now < s.invites[i].expiresAt
  }

  // ---- the table

  /** Anyone but the last admin. */
  ghost function Removable(s: Store, id: Id): Outcome {
    Then(Needs(id in s.users, NotFound),
         Needs(id in s.users ==> s.users[id].role.Member? || exists a | a in s.users :: a != id && s.users[a].role.Admin?, TheLastAdmin))
  }

  /** Demands of the account calls. */
  ghost function AccountDemands(s: Store, call: Call): Outcome {
    match call
    case IssueInvite(token, now, _, _) => LiveAdmin(s, token, now)
    case WithdrawInvite(token, now, id) =>
      Then(LiveAdmin(s, token, now), Needs(id in s.invites && s.invites[id].redeemedAt.None?, InviteRefused))
    case LogIn(d, verified, _, _, _) =>
      Then(Needs(d in s.devices && s.devices[d].userId in s.users, Unverified),
      Then(Needs(d in s.devices ==> s.devices[d].revokedAt.None?, RevokedDevice),
      Then(Needs(d in s.devices && s.devices[d].userId in s.users ==> !s.users[s.devices[d].userId].suspended, Suspended),
           Needs(verified, Unverified))))
    case Touch(token, now) =>
      Then(LiveSession(s, token, now), Needs(token in s.sessions ==> now < s.sessions[token].createdAt + 90 * DAY, Unauthorized))
    case Revoke(token, now, d) =>
      Then(LiveAdmin(s, token, now),
      Then(Needs(d in s.devices, NotFound), Needs(d in s.devices ==> s.devices[d].revokedAt.None?, AlreadyRevoked)))
    case Remove(token, now, id) => Then(LiveAdmin(s, token, now), Removable(s, id))
    case Leave(token, now, handle) =>
      Then(LiveSession(s, token, now),
      Then(Needs(SelfIs(s, token, (user: User) => user.handle == handle), InvalidBody), Removable(s, Self(s, token))))
    case PutVault(token, now) => Then(LiveSession(s, token, now), Needs(Self(s, token) !in s.vaults, VaultTaken))
    case StartPairing(_, _, _, codes) => Needs(exists i | 0 <= i < |codes| && i < 8 :: LeadsNowhere(s, codes[i]), RateLimited)
    case PostWrap(token, now, id, _) =>
      Then(LiveSession(s, token, now),
      Then(Needs(id in s.pairings, PairingMissing),
      Then(Needs(id in s.pairings ==> now < s.pairings[id].expiresAt, PairingExpired),
           Needs(id in s.pairings ==> s.pairings[id].wrap.None?, PairingComplete))))
    case _ => Served
  }

  /** The caller's item of an id, the first of them, is a note and has not lapsed. */
  ghost function LiveNote(s: Store, me: Id, id: Id, now: int): Outcome {
    Then(Needs(exists item | item in s.items :: item.id == id && item.ownerId == me, NotFound),
    Then(Needs(forall i | FirstOwn(s.items, me, id, i) :: s.items[i].kind.Text? || s.items[i].kind.Link?, ItemInvalid),
         Needs(forall i | FirstOwn(s.items, me, id, i) :: s.items[i].pinned || now < s.items[i].expiresAt, ItemExpired)))
  }

  /** Demands of the item calls. */
  ghost function ItemDemands(s: Store, call: Call): Outcome {
    match call
    case Create(token, now, allowed, n) =>
      Then(LiveSession(s, token, now),
      Then(Needs(SelfIs(s, token, (user: User) => user.hasVault), VaultMissing),
      Then(Needs(n.cipherBytes <= 65_552, ItemInvalid),
      Then(Needs(now < n.expiresAt, ItemExpired),
      Then(Needs(n.expiresAt <= now + 30 * DAY + MINUTE, ItemInvalid),
      Then(Needs(allowed, RateLimited),
           Needs(forall i | FirstItem(s.items, n.id, i) :: s.items[i].ownerId == Self(s, token), Forbidden)))))))
    case Update(token, now, allowed, id, p) =>
      Then(LiveSession(s, token, now),
      Then(Needs(SelfIs(s, token, (user: User) => user.hasVault), VaultMissing),
      Then(Needs(p.cipherBytes <= 65_552, ItemInvalid),
      Then(Needs(allowed, RateLimited), LiveNote(s, Self(s, token), id, now)))))
    case Delete(token, now, _) => LiveSession(s, token, now)
    case Preserve(token, now, _) => LiveAdmin(s, token, now)
    case ResetExpiry(token, now) => LiveSession(s, token, now)
    case _ => Served
  }

  ghost function UploadDemands(s: Store, call: Call): Outcome {
    match call
    case Request(token, now, _, mb) =>
      Then(LiveSession(s, token, now),
      Then(Needs(25 <= mb <= 100, InvalidBody),
           Needs(forall r | r in s.uploadRequests && r.userId == Self(s, token) :: !r.status.Waiting?, AlreadyPending)))
    case Decide(token, now, id, approved, mb) =>
      Then(LiveAdmin(s, token, now),
      Then(Needs(approved ==> 25 <= mb <= 100, InvalidBody),
      Then(Needs(exists r | r in s.uploadRequests :: r.id == id, ItemInvalid),
           Needs(forall i | FirstRequest(s.uploadRequests, id, i) :: s.uploadRequests[i].status.Waiting?, InvalidBody))))
    case Intent(token, now, configured, bytes, _, _, _) =>
      Then(LiveSession(s, token, now),
      Then(Needs(SelfIs(s, token, (user: User) => user.canUpload), Forbidden),
      Then(Needs(bytes <= 102 * 1024 * 1024, ItemInvalid),
      Then(Needs(SelfIs(s, token, (user: User) => user.used + bytes <= user.quota), QuotaExceeded),
           Needs(configured, CapabilityUnconfigured)))))
    case Commit(token, now, configured, c, stat) =>
      var bytes := if stat.Some? then stat.value else 0;
      var mine := exists i :: FirstBlob(s.blobs, c.blobId, i) && s.blobs[i].ownerId == Self(s, token) && s.blobs[i].state.Pending?;
      Then(LiveSession(s, token, now),
      Then(Needs(SelfIs(s, token, (user: User) => user.canUpload), Forbidden),
      Then(Needs(mine, ItemInvalid),
      Then(Needs(now < c.expiresAt, ItemExpired),
      Then(Needs(c.expiresAt <= now + 7 * DAY + MINUTE, ItemInvalid),
      Then(Needs(configured, CapabilityUnconfigured),
      Then(Needs(forall i | FirstBlob(s.blobs, c.blobId, i) :: 0 < bytes <= s.blobs[i].byteSize, ItemInvalid),
           Needs(SelfIs(s, token, (user: User) => user.used + bytes <= user.quota), QuotaExceeded))))))))
    case _ => Served
  }

  /** All demands a call has to meet, in the order in which it reports them; a call meets those of the other groups. */
  ghost function Demands(s: Store, call: Call): Outcome {
    Then(AccountDemands(s, call), Then(ItemDemands(s, call), UploadDemands(s, call)))
  }

  lemma SessionByRows(s: Store, token: Id, now: int)
    ensures RequireCtx(s, token, now).Ok? <==> LiveSession(s, token, now).Served?
    ensures RequireCtx(s, token, now).Err? ==> LiveSession(s, token, now) == Services.Refused(RequireCtx(s, token, now).error)
    ensures RequireCtx(s, token, now).Ok? <==> SignedIn(s, token, now, Self(s, token))
    ensures RequireCtx(s, token, now).Ok? ==> RequireCtx(s, token, now).value.userId == Self(s, token)
    ensures RequireAdmin(s, token, now).Ok? <==> LiveAdmin(s, token, now).Served?
    ensures RequireAdmin(s, token, now).Err? ==> LiveAdmin(s, token, now) == Services.Refused(RequireAdmin(s, token, now).error)
    ensures RequireAdmin(s, token, now).Ok? ==> RequireAdmin(s, token, now).value.userId == Self(s, token)
  {
  }

  lemma AccountsByTable(s: Store, call: Call)
    requires !call.Create? && !call.Update? && !call.Delete? && !call.Preserve? && !call.ResetExpiry?
    requires !call.Request? && !call.Decide? && !call.Intent? && !call.Commit?
    ensures Answer(s, call).1 == AccountDemands(s, call)
  {
    if call.StartPairing? {
      DrawsByTable(s, call.codes);
    } else if !call.LogIn? && !call.LogOut? && !call.Sweep? {
      SessionByRows(s, call.token, call.now);
    }
    hide RequireCtx, RequireAdmin, LiveSession, LiveAdmin, Recognised, FindSession;
  }

  lemma DrawsByTable(s: Store, codes: seq<Id>)
    ensures var drawn := if |codes| <= 8 then codes else codes[..8];
            UnusedCode(s, drawn).Some? <==> exists i | 0 <= i < |codes| && i < 8 :: LeadsNowhere(s, codes[i])
  {
    var drawn := if |codes| <= 8 then codes else codes[..8];
    assert forall i | 0 <= i < |drawn| :: drawn[i] == codes[i];
    if i :| 0 <= i < |codes| && i < 8 && LeadsNowhere(s, codes[i]) {
      assert drawn[i] in drawn;
    }
  }

  lemma CreateByTable(s: Store, call: Call)
    requires call.Create?
    ensures Answer(s, call).1 == ItemDemands(s, call)
  {
    SessionByRows(s, call.token, call.now);
    var at := ItemAt(s, call.n.id);
    assert forall i | FirstItem(s.items, call.n.id, i) :: i == at;
    assert at < |s.items| ==> FirstItem(s.items, call.n.id, at);
    hide RequireCtx, LiveSession, Recognised, FindSession, FirstItem, FirstIndex, Self;
  }

  lemma OwnRow(s: Store, me: Id, id: Id)
    ensures var at := OwnItemAt(s, me, id);
            && at <= |s.items| && (at < |s.items| <==> exists item | item in s.items :: item.id == id && item.ownerId == me)
            && (at < |s.items| ==> FirstOwn(s.items, me, id, at))
            && (forall i | FirstOwn(s.items, me, id, i) :: i == at)
  {
    var at := OwnItemAt(s, me, id);
    assert at < |s.items| ==> s.items[at] in s.items;
  }

  lemma UpdateVerdict(s: Store, me: Id, id: Id, p: Patch, now: int)
    ensures LiveNote(s, me, id, now) == match UpdateTextItem(s, me, id, p, now).1
                                        case Missing => Services.Refused(NotFound)
                                        case NotText => Services.Refused(ItemInvalid)
                                        case Expired => Services.Refused(ItemExpired)
                                        case _ => Served
  {
    OwnRow(s, me, id);
    hide OwnItemAt;
    var at := OwnItemAt(s, me, id);
  }

  lemma UpdateByTable(s: Store, call: Call)
    requires call.Update?
    ensures Answer(s, call).1 == ItemDemands(s, call)
  {
    SessionByRows(s, call.token, call.now);
    UpdateVerdict(s, Self(s, call.token), call.id, call.p, call.now);
    assert Answer(s, call) == UpdateItemCall(s, call.token, call.now, call.allowed, call.id, call.p);
    hide Answer, RequireCtx, LiveSession, LiveNote, Recognised, FindSession, Self, UpdateTextItem;
  }

  lemma ItemsByTable(s: Store, call: Call)
    requires call.Delete? || call.Preserve? || call.ResetExpiry?
    ensures Answer(s, call).1 == ItemDemands(s, call)
  {
    SessionByRows(s, call.token, call.now);
    hide RequireCtx, RequireAdmin, LiveSession, LiveAdmin, Recognised, FindSession;
  }

  lemma RequestRow(s: Store, id: Id)
    ensures var at := FirstIndex(s.uploadRequests, (r: UploadRequest) => r.id == id);
            && at <= |s.uploadRequests| && (at < |s.uploadRequests| <==> exists r | r in s.uploadRequests :: r.id == id)
            && (at < |s.uploadRequests| ==> FirstRequest(s.uploadRequests, id, at))
            && (forall i | FirstRequest(s.uploadRequests, id, i) :: i == at)
  {
    var at := FirstIndex(s.uploadRequests, (r: UploadRequest) => r.id == id);
    assert at < |s.uploadRequests| ==> s.uploadRequests[at] in s.uploadRequests;
  }

  lemma RequestsByTable(s: Store, call: Call)
    requires call.Request?
    ensures Answer(s, call).1 == UploadDemands(s, call)
  {
    SessionByRows(s, call.token, call.now);
    assert Answer(s, call) == RequestUpload(s, call.token, call.now, call.id, call.requestedMb);
    hide Answer, RequireCtx, RequireAdmin, LiveSession, LiveAdmin, Recognised, FindSession, Self;
  }

  lemma DecisionsByTable(s: Store, call: Call)
    requires call.Decide?
    ensures Answer(s, call).1 == UploadDemands(s, call)
  {
    SessionByRows(s, call.token, call.now);
    RequestRow(s, call.id);
    assert Answer(s, call) == DecideUpload(s, call.token, call.now, call.id, call.approved, call.grantedMb);
    hide Answer, RequireCtx, RequireAdmin, LiveSession, LiveAdmin, Recognised, FindSession, FirstRequest, FirstIndex, Self;
  }

  lemma BlobRow(s: Store, id: Id)
    ensures var at := BlobAt(s, id);
            && at <= |s.blobs| && (at < |s.blobs| ==> FirstBlob(s.blobs, id, at)) && (forall i | FirstBlob(s.blobs, id, i) :: i == at)
  {
  }

  lemma IntentsByTable(s: Store, call: Call)
    requires call.Intent?
    ensures Answer(s, call).1 == UploadDemands(s, call)
  {
    SessionByRows(s, call.token, call.now);
    assert Answer(s, call)
           == UploadIntent(s, call.token, call.now, call.configured, call.byteSize, call.chunkCount, call.blobId, call.r2Key);
    hide Answer, RequireCtx, LiveSession, Recognised, FindSession;
  }

  lemma CommitsByTable(s: Store, call: Call)
    requires call.Commit?
    ensures Answer(s, call).1 == UploadDemands(s, call)
  {
    SessionByRows(s, call.token, call.now);
    BlobRow(s, call.c.blobId);
    assert Answer(s, call) == CommitUpload(s, call.token, call.now, call.configured, call.c, call.stat);
    hide Answer, RequireCtx, LiveSession, Recognised, FindSession, FirstBlob, BlobAt;
  }

  /** Every call answers with its first unmet demand, and is served when it meets them all. */
  lemma AnswersByTable(s: Store, call: Call)
    ensures Answer(s, call).1 == Demands(s, call)
  {
    hide Answer, LiveSession, LiveAdmin, Self, SelfIs, Removable, FirstItem, FirstOwn, FirstBlob, FirstRequest, LeadsNowhere;
    if call.Create? {
      CreateByTable(s, call);
    } else if call.Update? {
      UpdateByTable(s, call);
    } else if call.Delete? || call.Preserve? || call.ResetExpiry? {
      ItemsByTable(s, call);
    } else if call.Request? {
      RequestsByTable(s, call);
    } else if call.Decide? {
      DecisionsByTable(s, call);
    } else if call.Intent? {
      IntentsByTable(s, call);
    } else if call.Commit? {
      CommitsByTable(s, call);
    } else {
      AccountsByTable(s, call);
    }
  }

  /** An upload ticket opens the caller's own blob: a committed one to download, a pending one for the rest. */
  ghost function TicketDemands(s: Store, token: Id, now: int, configured: bool, blobId: Id, purpose: TicketPurpose): Outcome {
    var mine := exists i :: FirstBlob(s.blobs, blobId, i) && s.blobs[i].ownerId == Self(s, token)
                            && (purpose.ToDownload? <==> s.blobs[i].state.Committed?);
    Then(Needs(configured, CapabilityUnconfigured),
    Then(LiveSession(s, token, now),
    Then(Needs(SelfIs(s, token, (user: User) => user.canUpload), Forbidden), Needs(mine, ItemInvalid))))
  }

  lemma TicketsByTable(s: Store, token: Id, now: int, configured: bool, blobId: Id, purpose: TicketPurpose)
    ensures var ticket := UploadTicket(s, token, now, configured, blobId, purpose);
            && TicketDemands(s, token, now, configured, blobId, purpose)
               == (if ticket.Ok? then Served else Services.Refused(ticket.error))
            && (ticket.Ok? ==> forall i | FirstBlob(s.blobs, blobId, i) :: ticket.value == (s.blobs[i].r2Key, s.blobs[i].byteSize))
  {
    SessionByRows(s, token, now);
    BlobRow(s, blobId);
    var at := BlobAt(s, blobId);
    assert at == |s.blobs| ==> forall i :: !FirstBlob(s.blobs, blobId, i);
    hide RequireCtx, LiveSession, Recognised, FindSession, BlobAt;
  }

  // ---- enrolment

  /** What an options call demands, in its order. */
  ghost function OpenDemands(s: Store, step: Step): Outcome
    requires !step.Serve? && !step.Finish?
  {
    match step
    case OpenRegister(now, hash, handle, _) =>
      Then(Needs(InviteOpen(s, hash, now), InviteRefused),
           Needs(forall u | u in s.users :: s.users[u].handle != handle, HandleClash))
    case OpenAdmin(_, secretOk, id) =>
      Then(Needs(secretOk && id in s.users && s.users[id].role.Admin?, Forbidden),
           Needs(forall d | d in s.devices :: s.devices[d].userId != id, AlreadyEnrolled))
    case OpenPairing(now, p) =>
      Then(Needs(p in s.pairings, PairingMissing),
      Then(Needs(p in s.pairings ==> now < s.pairings[p].expiresAt, PairingExpired),
           Needs(p in s.pairings && s.pairings[p].wrap.Some? && s.pairings[p].userId.Some? && s.pairings[p].userId.value in s.users,
                 PairingMissing)))
    case OpenRecovery(_, verifierOk, id) =>
      Then(Needs(id in s.vaults && id in s.users, VaultMissing), Needs(verifierOk, Forbidden))
  }

  /** What the challenge then says. */
  predicate SealedAs(s: Store, step: Step, c: Challenge)
    requires !step.Serve? && !step.Finish?
  {
    && c.exp == step.now + 5 * MINUTE
    && match step
       case OpenRegister(_, hash, handle, id) => c.Register? && c.userId == id && c.handle == handle && c.inviteHash == hash
       case OpenAdmin(_, _, id) => c.AdminEnroll? && c.userId == id
       case OpenPairing(_, p) => c.PairingEnroll? && c.pairingId == p && p in s.pairings && s.pairings[p].userId == Some(c.userId)
       case OpenRecovery(_, _, id) => c.RecoveryEnroll? && c.userId == id
  }

  ghost predicate DistinctHashes(s: Store) {
    forall i, j | i in s.invites && j in s.invites && i != j :: s.invites[i].tokenHash != s.invites[j].tokenHash
  }

  lemma InviteOpenIff(s: Store, hash: Id, now: int)
    requires DistinctHashes(s)
    ensures InviteOpen(s, hash, now) <==> StateOfInvite(InviteRow(s, hash), now) == InviteOk
  {
  }

  lemma OpensByTable(s: Store, step: Step)
    requires !step.Serve? && !step.Finish? && DistinctHashes(s)
    ensures Opened(s, step).Ok? <==> OpenDemands(s, step).Served?
    ensures Opened(s, step).Err? ==> OpenDemands(s, step) == Services.Refused(Opened(s, step).error)
    ensures Opened(s, step).Ok? ==> SealedAs(s, step, Opened(s, step).value)
  {
    match step
    case OpenRegister(now, hash, handle, _) =>
      InviteOpenIff(s, hash, now);
      hide InviteOpen, StateOfInvite, InviteRow;
    case OpenAdmin(_, _, id) =>
      assert DevicesOf(s, id) == {} <==> forall d | d in s.devices :: d !in DevicesOf(s, id);
    case _ =>
  }

  /** What a verify call demands, in its order: the challenge in time, the pairing live, the authenticator's yes, then the rest. */
  ghost function FinishDemands(s: Store, step: Step): Outcome
    requires step.Finish?
  {
    Then(Needs(step.now < step.c.exp, InvalidChallenge),
    Then(if !step.c.PairingEnroll? then Served
         else Then(Needs(step.c.pairingId in s.pairings, PairingMissing),
                   Needs(step.c.pairingId in s.pairings ==> step.now < s.pairings[step.c.pairingId].expiresAt, PairingExpired)),
    Then(Needs(step.verified, Unverified),
    match step.c
    case Register(_, _, handle, hash) =>
      Then(Needs(InviteOpen(s, hash, step.now), InviteRefused),
           Needs(forall u | u in s.users :: s.users[u].handle != handle, HandleClash))
    case AdminEnroll(_, id) => Needs(forall d | d in s.devices :: s.devices[d].userId != id, AlreadyEnrolled)
    case _ => Served)))
  }

  lemma FinishesByTable(s: Store, step: Step)
    requires step.Finish? && DistinctHashes(s)
    ensures Enrolled(s, step).1 == FinishDemands(s, step)
  {
    match step.c
    case Register(_, _, handle, hash) =>
      InviteOpenIff(s, hash, step.now);
      hide InviteOpen, StateOfInvite, InviteRow;
    case AdminEnroll(_, id) =>
      assert DevicesOf(s, id) == {} <==> forall d | d in s.devices :: d !in DevicesOf(s, id);
    case _ =>
  }
}
