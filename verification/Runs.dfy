/** Whole runs: any finite sequence of service calls, in any order, from the freshly built store. */
module Runs {
  import opened Wrappers
  import opened Rows
  import opened PrunePlan
  import opened StoreOps
  import opened Storage
  import opened Server
  import opened Services

  /** The calls that need no sealed challenge. Ids and hashes among the arguments are the ones the server draws. */
  datatype Call =
    | IssueInvite(token: Id, now: int, id: Id, hash: Id)
    | WithdrawInvite(token: Id, now: int, id: Id)
    | LogIn(deviceId: Id, verified: bool, signCount: nat, now: int, hash: Id)
    | LogOut(token: Id)
    | Touch(token: Id, now: int)
    | Revoke(token: Id, now: int, deviceId: Id)
    | Remove(token: Id, now: int, userId: Id)
    | Leave(token: Id, now: int, handle: Id)
    | PutVault(token: Id, now: int)
    | StartPairing(now: int, id: Id, publicJwk: Id, codes: seq<Id>)
    | PostWrap(token: Id, now: int, id: Id, wrap: Id)
    | Create(token: Id, now: int, allowed: bool, n: NewItem)
    | Update(token: Id, now: int, allowed: bool, id: Id, p: Patch)
    | Delete(token: Id, now: int, id: Id)
    | Preserve(token: Id, now: int, enabled: bool)
    | ResetExpiry(token: Id, now: int)
    | Request(token: Id, now: int, id: Id, requestedMb: nat)
    | Decide(token: Id, now: int, id: Id, approved: bool, grantedMb: nat)
    | Intent(token: Id, now: int, configured: bool, byteSize: nat, chunkCount: nat, blobId: Id, r2Key: string)
    | Commit(token: Id, now: int, configured: bool, c: CommitRequest, stat: Option<nat>)
    | Sweep(now: int)

  datatype Step =
    | Serve(call: Call)
    | OpenRegister(now: int, inviteHash: Id, handle: Id, userId: Id)
    | OpenAdmin(now: int, secretOk: bool, userId: Id)
    | OpenPairing(now: int, pairingId: Id)
    | OpenRecovery(now: int, verifierOk: bool, userId: Id)
    | Finish(c: Challenge, now: int, verified: bool, deviceId: Id, signCount: nat, hash: Id)

  /** `challenges` are all tickets ever sealed: none can be forged, any can be played again until it expires. */
  datatype World = World(store: Store, challenges: set<Challenge>, issued: set<Id>, keys: set<string>)

  const INITIAL := World(EMPTY_STORE, {}, {ADMIN_ID}, {})

  function Answer(s: Store, call: Call): Reply {
    match call
    case IssueInvite(token, now, id, hash) => Services.IssueInvite(s, token, now, id, hash)
    case WithdrawInvite(token, now, id) => Services.WithdrawInvite(s, token, now, id)
    case LogIn(deviceId, verified, signCount, now, hash) => LoginVerify(s, deviceId, verified, signCount, now, hash)
    case LogOut(token) => Logout(s, token)
    case Touch(token, now) => Me(s, token, now)
    case Revoke(token, now, deviceId) => RevokeDeviceCall(s, token, now, deviceId)
    case Remove(token, now, userId) => RemoveUserCall(s, token, now, userId)
    case Leave(token, now, handle) => DeleteAccount(s, token, now, handle)
    case PutVault(token, now) => Services.PutVault(s, token, now)
    case StartPairing(now, id, publicJwk, codes) => Services.StartPairing(s, now, id, publicJwk, codes)
    case PostWrap(token, now, id, wrap) => Services.PostWrap(s, token, now, id, wrap)
    case Create(token, now, allowed, n) => CreateItemCall(s, token, now, allowed, n)
    case Update(token, now, allowed, id, p) => UpdateItemCall(s, token, now, allowed, id, p)
    case Delete(token, now, id) => DeleteItemCall(s, token, now, id)
    case Preserve(token, now, enabled) => PreserveNotesCall(s, token, now, enabled)
    case ResetExpiry(token, now) => ResetExpiryCall(s, token, now)
    case Request(token, now, id, requestedMb) => RequestUpload(s, token, now, id, requestedMb)
    case Decide(token, now, id, approved, grantedMb) => DecideUpload(s, token, now, id, approved, grantedMb)
    case Intent(token, now, configured, byteSize, chunkCount, blobId, r2Key) =>
      UploadIntent(s, token, now, configured, byteSize, chunkCount, blobId, r2Key)
    case Commit(token, now, configured, c, stat) => CommitUpload(s, token, now, configured, c, stat)
    case Sweep(now) => (Prune(s, now), Served)
  }

  /** The random ids a call draws. */
  function Drawn(call: Call): set<Id> {
    match call
    case IssueInvite(_, _, id, hash) => {id, hash}
    case LogIn(_, _, _, _, hash) => {hash}
    case StartPairing(_, id, _, _) => {id}
    case Request(_, _, id, _) => {id}
    case Intent(_, _, _, _, _, blobId, _) => {blobId}
    case _ => {}
  }

  /** What the request schemas guarantee, and a fresh object key without a slash. */
  predicate WellFormed(call: Call, keys: set<string>) {
    match call
    case Create(_, _, _, n) => IsNote(n.kind)
    case Update(_, _, _, _, p) => IsNote(p.kind)
    case Commit(_, _, _, c, _) => !IsNote(c.kind)
    case Intent(_, _, _, _, _, _, r2Key) => r2Key !in keys && '/' !in r2Key
    case _ => true
  }

  ghost function Enrolled(s: Store, step: Step): Reply
    requires step.Finish?
  {
    match step.c
    case Register(_, _, _, _) => RegisterVerify(s, step.c, step.now, step.verified, step.deviceId, step.signCount, step.hash)
    case AdminEnroll(_, _) => AdminEnrollVerify(s, step.c, step.now, step.verified, step.deviceId, step.signCount, step.hash)
    case PairingEnroll(_, _, _) => PairingVerify(s, step.c, step.now, step.verified, step.deviceId, step.signCount, step.hash)
    case RecoveryEnroll(_, _) => RecoveryVerify(s, step.c, step.now, step.verified, step.deviceId, step.signCount, step.hash)
  }

  ghost function Opened(s: Store, step: Step): Result<Challenge, AuthError>
    requires !step.Serve? && !step.Finish?
  {
    match step
    case OpenRegister(now, inviteHash, handle, userId) => RegisterOptions(s, now, inviteHash, handle, userId)
    case OpenAdmin(now, secretOk, userId) => AdminEnrollOptions(s, now, secretOk, userId)
    case OpenPairing(now, pairingId) => PairingOptions(s, now, pairingId)
    case OpenRecovery(now, verifierOk, userId) => RecoveryOptions(s, now, verifierOk, userId)
  }

  function StepIds(step: Step): set<Id> {
    match step
    case Serve(call) => Drawn(call)
    case OpenRegister(_, _, _, userId) => {userId}
    case Finish(_, _, _, deviceId, _, hash) => {deviceId, hash}
    case _ => {}
  }

  function StepKeys(step: Step): set<string> {
    if step.Serve? && step.call.Intent? then {step.call.r2Key} else {}
  }

  predicate Admissible(w: World, step: Step) {
    && StepIds(step) !! w.issued
    && (step.Serve? ==> WellFormed(step.call, w.keys))
    && (step.Finish? ==> step.c in w.challenges)
  }

  ghost function Next(w: World, step: Step): World {
    var issued, keys := w.issued + StepIds(step), w.keys + StepKeys(step);
    match step
    case Serve(call) => World(Answer(w.store, call).0, w.challenges, issued, keys)
    case Finish(_, _, _, _, _, _) => World(Enrolled(w.store, step).0, w.challenges, issued, keys)
    case _ =>
      var sealed := Opened(w.store, step);
      World(w.store, if sealed.Ok? then w.challenges + {sealed.value} else w.challenges, issued, keys)
  }

  ghost function Run(w: World, steps: seq<Step>): World
    decreases |steps|
  {
    if steps == [] then w else Run(Next(w, steps[0]), steps[1..])
  }

  ghost predicate AdmissibleRun(w: World, steps: seq<Step>)
    decreases |steps|
  {
    steps == [] || (Admissible(w, steps[0]) && AdmissibleRun(Next(w, steps[0]), steps[1..]))
  }

  // ---- the invariant of worlds

  /** A user id is sealed for one invite; once it is a user, that invite is spent, so a replay cannot overwrite it. */
  ghost predicate TicketsSound(challenges: set<Challenge>, users: set<Id>, invites: map<Id, Invite>, issued: set<Id>) {
    && (forall c | c in challenges && c.Register? ::
          && c.userId in issued && c.inviteHash in issued
          && (c.userId in users ==> forall i | i in invites && invites[i].tokenHash == c.inviteHash :: invites[i].redeemedAt.Some?))
    && (forall c, d | c in challenges && d in challenges && c.Register? && d.Register? && c.userId == d.userId ::
          c.inviteHash == d.inviteHash)
  }

  ghost predicate Inv(w: World) {
    && Sound(w.store, w.issued)
    && KnownKeys(w.store, w.keys)
    && TicketsSound(w.challenges, w.store.users.Keys, w.store.invites, w.issued)
  }

  /** What a later world owes an earlier one. */
  ghost predicate Evolves(w: World, w': World) {
    w.issued <= w'.issued && w.challenges <= w'.challenges && StoreEvolves(w.store, w.issued, w'.store)
  }

  /** No call but a registration adds a user. */
  ghost predicate NoNewUser(s: Store, s': Store) { s'.users.Keys <= s.users.Keys }

  ghost predicate AnswerFine(s: Store, issued: set<Id>, keys: set<string>, call: Call) {
    && Keeps(s, issued, Answer(s, call).0, Drawn(call))
    && NoNewUser(s, Answer(s, call).0)
    && KnownKeys(Answer(s, call).0, keys + StepKeys(Serve(call)))
  }

  lemma Unchanged(s: Store, issued: set<Id>, keys: set<string>, call: Call)
    requires Sound(s, issued) && KnownKeys(s, keys) && Drawn(call) !! issued && Answer(s, call).0 == s
    ensures AnswerFine(s, issued, keys, call)
  {
    hide Sound, StoreEvolves;
    Idle(s, issued, Drawn(call));
  }

  lemma AccountCalls(s: Store, issued: set<Id>, keys: set<string>, call: Call)
    requires Sound(s, issued) && KnownKeys(s, keys) && Drawn(call) !! issued && WellFormed(call, keys)
    requires call.IssueInvite? || call.WithdrawInvite? || call.LogIn? || call.LogOut? || call.Touch? || call.Revoke?
    ensures AnswerFine(s, issued, keys, call)
  {
    hide Sound, StoreEvolves;
    if Answer(s, call).0 == s {
      Unchanged(s, issued, keys, call);
    } else {
      match call
      case IssueInvite(token, now, id, hash) =>
        var admin := RequireAdmin(s, token, now);
        CreateInviteKeeps(s, issued, id, admin.value.userId, hash, now + INVITE_TTL_MS, now);
      case WithdrawInvite(token, now, id) => RevokeInviteKeeps(s, issued, id, now);
      case LogIn(deviceId, verified, signCount, now, hash) =>
        LoginKeeps(s, issued, deviceId, signCount, hash, NextSessionExpiry(now, now).value, now);
      case LogOut(token) => DeleteSessionKeeps(s, issued, token);
      case Touch(token, now) =>
        var expiry := NextSessionExpiry(s.sessions[token].createdAt, now);
        DeleteSessionKeeps(s, issued, token);
        if expiry.Some? { TouchKeeps(s, issued, token, expiry.value, now); }
      case Revoke(token, now, deviceId) => RevokeDeviceKeeps(s, issued, deviceId, now);
    }
  }

  lemma RemovalKeeps(s: Store, issued: set<Id>, keys: set<string>, id: Id)
    requires Sound(s, issued) && KnownKeys(s, keys)
    ensures Keeps(s, issued, RemoveUser(s, id).0, {}) && NoNewUser(s, RemoveUser(s, id).0) && KnownKeys(RemoveUser(s, id).0, keys)
  {
    hide Sound, StoreEvolves;
    RemoveUserKeeps(s, issued, id);
    FilterMembers(s.blobs, (blob: Blob) => blob.ownerId != id);
  }

  lemma RemovalCalls(s: Store, issued: set<Id>, keys: set<string>, call: Call)
    requires Sound(s, issued) && KnownKeys(s, keys) && (call.Remove? || call.Leave?)
    ensures AnswerFine(s, issued, keys, call)
  {
    hide Sound, StoreEvolves, KnownKeys;
    assert keys + {} == keys;
    if Answer(s, call).0 == s {
      Unchanged(s, issued, keys, call);
    } else {
      match call
      case Remove(token, now, userId) => RemovalKeeps(s, issued, keys, userId);
      case Leave(token, now, handle) => RemovalKeeps(s, issued, keys, RequireCtx(s, token, now).value.userId);
    }
  }

  lemma PairingCalls(s: Store, issued: set<Id>, keys: set<string>, call: Call)
    requires Sound(s, issued) && KnownKeys(s, keys) && Drawn(call) !! issued
    requires call.PutVault? || call.StartPairing? || call.PostWrap?
    ensures AnswerFine(s, issued, keys, call)
  {
    hide Sound, StoreEvolves;
    if Answer(s, call).0 == s {
      Unchanged(s, issued, keys, call);
    } else {
      match call
      case PutVault(token, now) => SaveVaultKeeps(s, issued, RequireCtx(s, token, now).value.userId);
      case StartPairing(now, id, publicJwk, codes) =>
        var drawn := if |codes| <= PAIRING_CODE_ATTEMPTS then codes else codes[..PAIRING_CODE_ATTEMPTS];
        CreatePairingKeeps(s, issued, id, UnusedCode(s, drawn).value, publicJwk, now + PAIRING_TTL_MS, now);
      case PostWrap(token, now, id, wrap) => WrapKeeps(s, issued, id, RequireCtx(s, token, now).value.userId, wrap);
    }
  }

  lemma RequestCalls(s: Store, issued: set<Id>, keys: set<string>, call: Call)
    requires Sound(s, issued) && KnownKeys(s, keys) && Drawn(call) !! issued && (call.Request? || call.Decide?)
    ensures AnswerFine(s, issued, keys, call)
  {
    hide Sound, StoreEvolves;
    if Answer(s, call).0 == s {
      Unchanged(s, issued, keys, call);
    } else {
      match call
      case Request(token, now, id, requestedMb) => RequestKeeps(s, issued, id, RequireCtx(s, token, now).value.userId);
      case Decide(token, now, id, approved, grantedMb) =>
        var granted := if approved then Some(grantedMb * MIB) else None;
        DecideKeeps(s, issued, id, RequireAdmin(s, token, now).value.userId, approved, granted);
    }
  }

  lemma NoteCalls(s: Store, issued: set<Id>, keys: set<string>, call: Call)
    requires Sound(s, issued) && KnownKeys(s, keys) && Drawn(call) !! issued && WellFormed(call, keys)
    requires call.Create? || call.Update?
    ensures AnswerFine(s, issued, keys, call)
  {
    hide Sound, StoreEvolves;
    if Answer(s, call).0 == s {
      Unchanged(s, issued, keys, call);
    } else {
      match call
      case Create(token, now, allowed, n) =>
        var owner := RequireCtx(s, token, now).value.userId;
        CreateItemKeeps(s, issued, owner, n, now, KeepStored(s.users[owner]));
      case Update(token, now, allowed, id, p) => UpdateItemKeeps(s, issued, RequireCtx(s, token, now).value.userId, id, p, now);
    }
  }

  lemma ItemCalls(s: Store, issued: set<Id>, keys: set<string>, call: Call)
    requires Sound(s, issued) && KnownKeys(s, keys) && Drawn(call) !! issued && WellFormed(call, keys)
    requires call.Delete? || call.Preserve? || call.ResetExpiry?
    ensures AnswerFine(s, issued, keys, call)
  {
    hide Sound, StoreEvolves;
    if Answer(s, call).0 == s {
      Unchanged(s, issued, keys, call);
    } else {
      match call
      case Delete(token, now, id) => DeleteItemKeeps(s, issued, RequireCtx(s, token, now).value.userId, id);
      case Preserve(token, now, enabled) => PreserveKeeps(s, issued, RequireAdmin(s, token, now).value.userId, enabled);
      case ResetExpiry(token, now) => ResetExpiryKeeps(s, issued, RequireCtx(s, token, now).value.userId, now + TEXT_TTL_MS);
    }
  }

  lemma IntentCalls(s: Store, issued: set<Id>, keys: set<string>, call: Call)
    requires Sound(s, issued) && KnownKeys(s, keys) && Drawn(call) !! issued && WellFormed(call, keys) && call.Intent?
    ensures AnswerFine(s, issued, keys, call)
  {
    hide Sound, StoreEvolves;
    if Answer(s, call).0 == s {
      Unchanged(s, issued, keys, call);
    } else {
      PendingKeeps(s, issued, call.blobId, RequireCtx(s, call.token, call.now).value.userId, call.r2Key, call.byteSize,
                   call.chunkCount, call.now);
    }
  }

  lemma CommitCalls(s: Store, issued: set<Id>, keys: set<string>, call: Call)
    requires Sound(s, issued) && KnownKeys(s, keys) && WellFormed(call, keys) && call.Commit?
    ensures AnswerFine(s, issued, keys, call)
  {
    hide Sound, StoreEvolves;
    if Answer(s, call).0 == s {
      Unchanged(s, issued, keys, call);
    } else {
      var owner := RequireCtx(s, call.token, call.now).value.userId;
      assert s.blobs[BlobAt(s, call.c.blobId)] in s.blobs;
      CommitKeeps(s, issued, owner, call.stat.value, call.c, KeepStored(s.users[owner]), call.now);
    }
  }

  lemma SweepCalls(s: Store, issued: set<Id>, keys: set<string>, call: Call)
    requires Sound(s, issued) && KnownKeys(s, keys) && call.Sweep?
    ensures AnswerFine(s, issued, keys, call)
  {
    hide Sound, StoreEvolves, PlanOf;
    PruneKeeps(s, issued, call.now);
    FilterMembers(s.blobs, (blob: Blob) => blob.id !in PlanOf(s, call.now).deleteBlobIds);
    PruneKeepsUserKeys(s, issued, call.now);
  }

  lemma PruneKeepsUserKeys(s: Store, issued: set<Id>, now: int)
    requires Sound(s, issued)
    ensures Prune(s, now).users.Keys == s.users.Keys
  {
    PruneUsage(s, now);
  }

  lemma CallFine(s: Store, issued: set<Id>, keys: set<string>, call: Call)
    requires Sound(s, issued) && KnownKeys(s, keys) && Drawn(call) !! issued && WellFormed(call, keys)
    ensures AnswerFine(s, issued, keys, call)
  {
    hide Sound, AnswerFine, KnownKeys, WellFormed;
    if call.IssueInvite? || call.WithdrawInvite? || call.LogIn? || call.LogOut? || call.Touch? || call.Revoke? {
      AccountCalls(s, issued, keys, call);
    } else if call.Create? || call.Update? {
      NoteCalls(s, issued, keys, call);
    } else if call.Delete? || call.Preserve? || call.ResetExpiry? {
      ItemCalls(s, issued, keys, call);
    } else if call.Intent? {
      IntentCalls(s, issued, keys, call);
    } else if call.Commit? {
      CommitCalls(s, issued, keys, call);
    } else if call.Sweep? {
      SweepCalls(s, issued, keys, call);
    } else if call.Remove? || call.Leave? {
      RemovalCalls(s, issued, keys, call);
    } else if call.Request? || call.Decide? {
      RequestCalls(s, issued, keys, call);
    } else {
      PairingCalls(s, issued, keys, call);
    }
  }

  /** Enrolment steps: a registration adds exactly the sealed user id, and only while its invite is open. */
  lemma FinishFine(w: World, step: Step)
    requires Inv(w) && step.Finish? && Admissible(w, step)
    ensures Keeps(w.store, w.issued, Enrolled(w.store, step).0, {step.deviceId, step.hash})
    ensures KnownKeys(Enrolled(w.store, step).0, w.keys)
    ensures NoNewUser(w.store, Enrolled(w.store, step).0)
            || (step.c.Register? && Enrolled(w.store, step).0.users.Keys == w.store.users.Keys + {step.c.userId}
                && forall i | i in Enrolled(w.store, step).0.invites
                              && Enrolled(w.store, step).0.invites[i].tokenHash == step.c.inviteHash ::
                     Enrolled(w.store, step).0.invites[i].redeemedAt.Some?)
  {
    hide Sound, StoreEvolves;
    var s, drawn := w.store, {step.deviceId, step.hash};
    var s' := Enrolled(s, step).0;
    if s' == s {
      Idle(s, w.issued, drawn);
    } else {
      var expiry := NextSessionExpiry(step.now, step.now).value;
      match step.c
      case Register(_, userId, handle, inviteHash) =>
        RegistrationKeeps(s, w.issued, userId, handle, inviteHash, step.deviceId, step.signCount, step.hash, expiry, step.now);
        RegistrationSpends(s, w.issued, userId, handle, inviteHash, step.deviceId, step.signCount, step.hash, expiry, step.now);
      case AdminEnroll(_, userId) =>
        EnrollKeeps(s, w.issued, userId, step.deviceId, step.signCount, step.hash, expiry, step.now);
      case PairingEnroll(_, userId, pairingId) =>
        EnrollKeeps(s, w.issued, userId, step.deviceId, step.signCount, step.hash, expiry, step.now);
        var s1 := AddDeviceAndSession(s, userId, step.deviceId, step.signCount, step.hash, expiry, step.now);
        KeepsSound(s, w.issued, s1, drawn);
        DeletePairingKeeps(s1, w.issued + drawn, pairingId);
        KeepsThen(s, w.issued, s1, drawn, s', {});
        assert drawn + {} == drawn;
      case RecoveryEnroll(_, userId) =>
        EnrollKeeps(s, w.issued, userId, step.deviceId, step.signCount, step.hash, expiry, step.now);
    }
  }

  lemma KeepsSound(s: Store, issued: set<Id>, s': Store, drawn: set<Id>)
    requires Keeps(s, issued, s', drawn)
    ensures Sound(s', issued + drawn)
  {}

  lemma RegistrationSpends(s: Store, issued: set<Id>, userId: Id, handle: Id, inviteHash: Id, deviceId: Id,
                           signCount: nat, hash: Id, expiresAt: int, now: int)
    requires Sound(s, issued)
    requires CompleteRegistration(s, userId, handle, inviteHash, deviceId, signCount, hash, expiresAt, now).1.Done?
    ensures var s' := CompleteRegistration(s, userId, handle, inviteHash, deviceId, signCount, hash, expiresAt, now).0;
            && s'.users.Keys == s.users.Keys + {userId}
            && forall i | i in s'.invites && s'.invites[i].tokenHash == inviteHash :: s'.invites[i].redeemedAt.Some?
  {
    hide StorageInv, CleanUsers, LiveSessions, CodesAgree, CleanRequests, Known;
  }

  lemma TicketsStay(w: World, s': Store, drawn: set<Id>)
    requires Inv(w) && Keeps(w.store, w.issued, s', drawn) && NoNewUser(w.store, s')
    ensures TicketsSound(w.challenges, s'.users.Keys, s'.invites, w.issued + drawn)
  {
    hide StorageInv, CleanUsers, LiveSessions, CodesAgree, CleanRequests;
    hide KnownKeys, DevicesEvolve, SessionsEvolve, PairingsEvolve, BlobsEvolve;
    forall c, i | c in w.challenges && c.Register? && c.userId in s'.users && i in s'.invites && s'.invites[i].tokenHash == c.inviteHash
      ensures s'.invites[i].redeemedAt.Some?
    {
      assert i in w.store.invites && w.store.invites[i].tokenHash == c.inviteHash;
    }
  }

  lemma TicketsAfterRegistration(w: World, s': Store, drawn: set<Id>, c: Challenge)
    requires Inv(w) && Keeps(w.store, w.issued, s', drawn) && c in w.challenges && c.Register?
    requires s'.users.Keys == w.store.users.Keys + {c.userId}
    requires forall i | i in s'.invites && s'.invites[i].tokenHash == c.inviteHash :: s'.invites[i].redeemedAt.Some?
    ensures TicketsSound(w.challenges, s'.users.Keys, s'.invites, w.issued + drawn)
  {
    hide StorageInv, CleanUsers, LiveSessions, CodesAgree, CleanRequests;
    hide KnownKeys, DevicesEvolve, SessionsEvolve, PairingsEvolve, BlobsEvolve;
    forall d, i | d in w.challenges && d.Register? && d.userId in s'.users && i in s'.invites && s'.invites[i].tokenHash == d.inviteHash
      ensures s'.invites[i].redeemedAt.Some?
    {
      if d.userId != c.userId {
        assert i in w.store.invites && w.store.invites[i].tokenHash == d.inviteHash;
      }
    }
  }

  lemma SealedTickets(w: World, step: Step)
    requires Inv(w) && Admissible(w, step) && !step.Serve? && !step.Finish? && Opened(w.store, step).Ok?
    ensures TicketsSound(w.challenges + {Opened(w.store, step).value}, w.store.users.Keys, w.store.invites, w.issued + StepIds(step))
  {
    hide StorageInv, CleanUsers, LiveSessions, CodesAgree, CleanRequests, KnownKeys;
    var sealed := Opened(w.store, step).value;
    if step.OpenRegister? {
      assert InviteByHash(w.store, step.inviteHash).Some?;
    } else {
      assert !sealed.Register?;
    }
  }

  lemma SealingFine(w: World, step: Step)
    requires Inv(w) && Admissible(w, step) && !step.Serve? && !step.Finish?
    ensures Inv(Next(w, step)) && Evolves(w, Next(w, step))
  {
    if Opened(w.store, step).Ok? {
      SealedTickets(w, step);
    }
    hide StorageInv, CleanUsers, LiveSessions, CodesAgree, CleanRequests, KnownKeys, StoreEvolves, Opened;
    Stays(w.store, w.issued);
    assert w.keys + {} == w.keys;
  }

  /** Every step keeps the invariant, whatever it answers. */
  lemma StepFine(w: World, step: Step)
    requires Inv(w) && Admissible(w, step)
    ensures Inv(Next(w, step)) && Evolves(w, Next(w, step))
  {
    hide Sound, StoreEvolves, TicketsSound, KnownKeys, WellFormed;
    var w' := Next(w, step);
    match step
    case Serve(call) =>
      CallFine(w.store, w.issued, w.keys, call);
      TicketsStay(w, w'.store, Drawn(call));
    case Finish(c, _, _, _, _, _) =>
      FinishFine(w, step);
      if NoNewUser(w.store, w'.store) {
        TicketsStay(w, w'.store, StepIds(step));
      } else {
        TicketsAfterRegistration(w, w'.store, StepIds(step), c);
      }
      assert w.keys + {} == w.keys;
    case _ => SealingFine(w, step);
  }

  lemma EvolvesThen(w: World, w1: World, w2: World)
    requires Inv(w) && Inv(w1) && Evolves(w, w1) && Evolves(w1, w2)
    ensures Evolves(w, w2)
  {
    hide StorageInv, CleanUsers, LiveSessions, CleanInvites, CodesAgree, CleanRequests, KnownKeys, TicketsSound;
  }

  /** The main theorem: the invariant holds after any run, and the run only ever moves rows forward. */
  lemma {:induction false} RunFine(w: World, steps: seq<Step>)
    requires Inv(w) && AdmissibleRun(w, steps)
    ensures Inv(Run(w, steps)) && Evolves(w, Run(w, steps))
    decreases |steps|
  {
    hide Inv, Evolves, Admissible, Next;
    if steps == [] {
      EvolvesSelf(w);
    } else {
      var w1 := Next(w, steps[0]);
      StepFine(w, steps[0]);
      RunFine(w1, steps[1..]);
      EvolvesThen(w, w1, Run(w, steps));
    }
  }

  lemma EvolvesSelf(w: World)
    requires Inv(w)
    ensures Evolves(w, w)
  {
    hide Sound, StoreEvolves;
    Stays(w.store, w.issued);
  }

  lemma InitialIsFine()
    ensures Inv(INITIAL)
  {
    assert Used([], ADMIN_ID) == 0;
  }

  /** Reachable worlds: the storage counters, references, sessions, invites, codes and the admin are all in order. */
  lemma ReachableIsSound(steps: seq<Step>)
    requires AdmissibleRun(INITIAL, steps)
    ensures Inv(Run(INITIAL, steps))
  {
    InitialIsFine();
    RunFine(INITIAL, steps);
  }

  // ---- what code has to do to be one of these steps

  /** What a step makes of the store, from the store alone. */
  ghost function StoreAfter(s: Store, step: Step): Store {
    match step
    case Serve(call) => Answer(s, call).0
    case Finish(_, _, _, _, _, _) => Enrolled(s, step).0
    case _ => s
  }

  /** Going from s to s' is the step: in every world with store s that may take it, which stays in order. */
  ghost predicate LandsAs(s: Store, s': Store, step: Step) {
    forall w: World | w.store == s && Inv(w) && Admissible(w, step) ::
      Next(w, step).store == s' && Inv(Next(w, step)) && Evolves(w, Next(w, step))
  }

  lemma StepLands(s: Store, step: Step)
    ensures LandsAs(s, StoreAfter(s, step), step)
  {
    hide Inv, Evolves, Admissible;
    forall w: World | w.store == s && Inv(w) && Admissible(w, step)
      ensures Next(w, step).store == StoreAfter(s, step) && Inv(Next(w, step)) && Evolves(w, Next(w, step)) {
      StepFine(w, step);
    }
  }
}
