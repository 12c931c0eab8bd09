/** What every reachable store satisfies, and what no single store operation undoes. */
module Server {
  import opened Wrappers
  import opened Rows
  import opened PrunePlan
  import opened StoreOps
  import opened Storage

  /** There is an admin, and it is the seeded one. */
  ghost predicate OneAdmin(users: map<Id, User>) {
    ADMIN_ID in users && forall u | u in users :: users[u].role.Admin? <==> u == ADMIN_ID
  }

  ghost predicate DistinctHandles(users: map<Id, User>) {
    forall u, v | u in users && v in users && u != v :: users[u].handle != users[v].handle
  }

  ghost predicate VaultFlags(users: map<Id, User>, vaults: set<Id>) {
    vaults <= users.Keys && forall u | u in users :: users[u].hasVault <==> u in vaults
  }

  ghost predicate CleanUsers(users: map<Id, User>, vaults: set<Id>) {
    OneAdmin(users) && DistinctHandles(users) && VaultFlags(users, vaults)
  }

  /** Sessions belong to unrevoked devices and never run past ninety days after creation. */
  ghost predicate LiveSessions(devices: map<Id, Device>, sessions: map<Id, Session>) {
    forall h | h in sessions ::
      && sessions[h].deviceId in devices
      && devices[sessions[h].deviceId].revokedAt.None?
      && sessions[h].expiresAt <= sessions[h].createdAt + SESSION_HARD_CAP_MS
  }

  /** No invite is both redeemed and revoked, and hashes identify invites. */
  ghost predicate CleanInvites(users: set<Id>, invites: map<Id, Invite>) {
    && (forall i | i in invites ::
          && invites[i].createdBy in users
          && (invites[i].redeemedAt.Some? ==> invites[i].revokedAt.None?)
          && (invites[i].redeemedBy.Some? ==> invites[i].redeemedAt.Some? && invites[i].redeemedBy.value in users))
    && (forall i, j | i in invites && j in invites && i != j :: invites[i].tokenHash != invites[j].tokenHash)
  }

  /** Every pairing has a code, and no two codes lead to the same pairing. */
  ghost predicate CodesAgree(pairings: map<Id, Pairing>, codes: map<Id, Id>) {
    && (forall id | id in pairings :: exists c | c in codes :: codes[c] == id)
    && (forall c, d | c in codes && d in codes && c != d :: codes[c] != codes[d])
    && (forall id | id in pairings :: pairings[id].wrap.Some? ==> pairings[id].userId.Some?)
  }

  /** One undecided upload request per user, ids distinct, and neither asker nor decider is gone. */
  ghost predicate CleanRequests(users: set<Id>, requests: seq<UploadRequest>) {
    && (forall r | r in requests :: r.userId in users && (r.decidedBy.Some? ==> r.decidedBy.value in users))
    && (forall i, j | 0 <= i < j < |requests| ::
          && requests[i].id != requests[j].id
          && (requests[i].userId == requests[j].userId ==> !requests[i].status.Waiting? || !requests[j].status.Waiting?))
  }

  /** Every id the server drew is recorded as drawn. */
  ghost predicate Known(s: Store, issued: set<Id>) {
    && s.users.Keys <= issued && s.devices.Keys <= issued && s.sessions.Keys <= issued
    && s.invites.Keys <= issued && s.pairings.Keys <= issued
    && (forall i | i in s.invites :: s.invites[i].tokenHash in issued)
    && (forall c | c in s.pairingCodes :: s.pairingCodes[c] in issued)
    && (forall b | b in s.blobs :: b.id in issued)
    && (forall r | r in s.uploadRequests :: r.id in issued)
  }

  ghost predicate KnownKeys(s: Store, keys: set<string>) {
    forall b | b in s.blobs :: b.r2Key in keys && '/' !in b.r2Key
  }

  ghost predicate Sound(s: Store, issued: set<Id>) {
    && StorageInv(s.users, s.items, s.blobs)
    && CleanUsers(s.users, s.vaults)
    && LiveSessions(s.devices, s.sessions)
    && CleanInvites(s.users.Keys, s.invites)
    && CodesAgree(s.pairings, s.pairingCodes)
    && CleanRequests(s.users.Keys, s.uploadRequests)
    && Known(s, issued)
  }

  // ---- what later states owe earlier ones; ids already drawn never name something new

  ghost predicate DevicesEvolve(before: map<Id, Device>, issued: set<Id>, after: map<Id, Device>) {
    forall d | d in issued && d in after ::
      d in before && after[d].userId == before[d].userId && (before[d].revokedAt.Some? ==> after[d].revokedAt == before[d].revokedAt)
  }

  ghost predicate SessionsEvolve(before: map<Id, Session>, issued: set<Id>, after: map<Id, Session>) {
    forall h | h in issued && h in after ::
      h in before && after[h].deviceId == before[h].deviceId && after[h].createdAt == before[h].createdAt
  }

  /** A redeemed invite keeps its redemption and is never revoked; a revoked one is never redeemed. */
  ghost predicate InvitesEvolve(before: map<Id, Invite>, issued: set<Id>, after: map<Id, Invite>) {
    && (forall i | i in issued && i in after ::
          && i in before && after[i].tokenHash == before[i].tokenHash && after[i].expiresAt == before[i].expiresAt
          && (before[i].redeemedAt.Some? ==>
                && after[i].redeemedAt == before[i].redeemedAt && after[i].revokedAt.None?
                && (after[i].redeemedBy == before[i].redeemedBy || after[i].redeemedBy.None?))
          && (before[i].revokedAt.Some? ==> after[i].revokedAt.Some? && after[i].redeemedAt.None?))
    && forall i | i in after && i !in before :: after[i].tokenHash !in issued
  }

  /** Once wrapped, a pairing keeps its user and wrap; a deleted pairing does not come back. */
  ghost predicate PairingsEvolve(before: map<Id, Pairing>, issued: set<Id>, after: map<Id, Pairing>) {
    forall p | p in issued && p in after ::
      && p in before && after[p].publicJwk == before[p].publicJwk && after[p].expiresAt == before[p].expiresAt
      && (before[p].wrap.Some? ==> after[p] == before[p])
  }

  /** A committed blob never changes; no blob changes owner or key. */
  ghost predicate BlobsEvolve(before: seq<Blob>, issued: set<Id>, after: seq<Blob>) {
    && (forall b | b in after && b.id in issued :: b.id in BlobIds(before))
    && (forall a, b | a in before && b in after && a.id == b.id ::
          a.ownerId == b.ownerId && a.r2Key == b.r2Key && (a.state.Committed? ==> a == b))
  }

  ghost predicate StoreEvolves(s: Store, issued: set<Id>, s': Store) {
    && DevicesEvolve(s.devices, issued, s'.devices)
    && SessionsEvolve(s.sessions, issued, s'.sessions)
    && InvitesEvolve(s.invites, issued, s'.invites)
    && PairingsEvolve(s.pairings, issued, s'.pairings)
    && BlobsEvolve(s.blobs, issued, s'.blobs)
  }

  /** `s'` is as sound as `s`, with `drawn` newly drawn. */
  ghost predicate Keeps(s: Store, issued: set<Id>, s': Store, drawn: set<Id>) {
    Sound(s', issued + drawn) && StoreEvolves(s, issued, s')
  }

  lemma Idle(s: Store, issued: set<Id>, drawn: set<Id>)
    requires Sound(s, issued) && drawn !! issued
    ensures Keeps(s, issued, s, drawn)
  {}

  // ---- one lemma per store operation

  lemma UsersEdited(users: map<Id, User>, vaults: set<Id>, users': map<Id, User>, vaults': set<Id>)
    requires CleanUsers(users, vaults)
    requires users'.Keys == users.Keys && vaults' <= users.Keys
    requires forall u | u in users :: users'[u].role == users[u].role && users'[u].handle == users[u].handle
    requires forall u | u in users :: users'[u].hasVault <==> u in vaults'
    ensures CleanUsers(users', vaults')
  {}

  lemma VaultsMatch(users: map<Id, User>, vaults: set<Id>)
    requires CleanUsers(users, vaults)
    ensures vaults <= users.Keys && forall u | u in users :: users[u].hasVault <==> u in vaults
  {}

  lemma UserArrives(users: map<Id, User>, vaults: set<Id>, id: Id, user: User)
    requires CleanUsers(users, vaults) && id !in users && user.role.Member? && !user.hasVault
    requires forall u | u in users :: users[u].handle != user.handle
    ensures CleanUsers(users[id := user], vaults)
  {}

  lemma SeededAdminStays(users: map<Id, User>, vaults: set<Id>, id: Id)
    requires CleanUsers(users, vaults) && id in users
    requires !users[id].role.Admin? || exists u | u in users :: u != id && users[u].role.Admin?
    ensures id != ADMIN_ID
  {}

  lemma UserLeaves(users: map<Id, User>, vaults: set<Id>, id: Id)
    requires CleanUsers(users, vaults) && id != ADMIN_ID
    ensures CleanUsers(users - {id}, vaults - {id})
  {}

  lemma MoreUsers(users: set<Id>, id: Id, requests: seq<UploadRequest>)
    requires CleanRequests(users, requests)
    ensures CleanRequests(users + {id}, requests)
  {}

  lemma InviteSpent(s: Store, issued: set<Id>, hash: Id, userId: Id, now: int)
    requires Sound(s, issued) && StateOfInvite(InviteRow(s, hash), now) == InviteOk
    ensures var i := InviteByHash(s, hash).value;
            var invites := s.invites[i := s.invites[i].(redeemedBy := Some(userId), redeemedAt := Some(now))];
            CleanInvites(s.users.Keys + {userId}, invites) && InvitesEvolve(s.invites, issued, invites)
  {
    hide StorageInv, CleanUsers, LiveSessions, CodesAgree, CleanRequests;
  }

  lemma InvitesForget(s: Store, issued: set<Id>, id: Id)
    requires Sound(s, issued)
    ensures var invites := map i | i in s.invites && s.invites[i].createdBy != id :: ForgetRedeemer(s.invites[i], id);
            CleanInvites(s.users.Keys - {id}, invites) && InvitesEvolve(s.invites, issued, invites)
  {
    hide StorageInv, CleanUsers, LiveSessions, CodesAgree, CleanRequests;
  }

  lemma Stays(s: Store, issued: set<Id>)
    requires Sound(s, issued)
    ensures StoreEvolves(s, issued, s)
  {
    hide CleanUsers, LiveSessions, CodesAgree, CleanRequests;
  }

  lemma CreateInviteKeeps(s: Store, issued: set<Id>, id: Id, createdBy: Id, hash: Id, expiresAt: int, now: int)
    requires Sound(s, issued) && {id, hash} !! issued && createdBy in s.users
    ensures Keeps(s, issued, CreateInvite(s, id, createdBy, hash, expiresAt, now), {id, hash})
  {
    hide StorageInv, CleanUsers, LiveSessions, CodesAgree;
    hide CleanRequests, BlobsEvolve, DevicesEvolve, SessionsEvolve, PairingsEvolve;
    Stays(s, issued);
  }

  lemma RevokeInviteKeeps(s: Store, issued: set<Id>, id: Id, now: int)
    requires Sound(s, issued)
    ensures Keeps(s, issued, RevokeInvite(s, id, now).0, {})
  {
    hide StorageInv, CleanUsers, LiveSessions, CodesAgree;
    hide CleanRequests, BlobsEvolve, DevicesEvolve, SessionsEvolve, PairingsEvolve;
    Stays(s, issued);
  }

  lemma EnrollKeeps(s: Store, issued: set<Id>, userId: Id, deviceId: Id, signCount: nat, hash: Id, expiresAt: int, now: int)
    requires Sound(s, issued) && {deviceId, hash} !! issued && expiresAt <= now + SESSION_HARD_CAP_MS
    ensures Keeps(s, issued, AddDeviceAndSession(s, userId, deviceId, signCount, hash, expiresAt, now), {deviceId, hash})
  {
    hide StorageInv, CleanUsers, CleanInvites, CodesAgree, CleanRequests, BlobsEvolve, InvitesEvolve, PairingsEvolve;
    Stays(s, issued);
  }

  lemma KeepsThen(s: Store, issued: set<Id>, s1: Store, drawn1: set<Id>, s2: Store, drawn2: set<Id>)
    requires Sound(s, issued) && Keeps(s, issued, s1, drawn1) && Keeps(s1, issued + drawn1, s2, drawn2)
    ensures Keeps(s, issued, s2, drawn1 + drawn2)
  {
    hide StorageInv, CleanUsers, LiveSessions, CleanInvites, CodesAgree, CleanRequests;
    assert issued + drawn1 + drawn2 == issued + (drawn1 + drawn2);
  }

  lemma UserRegisters(s: Store, issued: set<Id>, userId: Id, user: User, inviteHash: Id, now: int)
    requires Sound(s, issued) && userId in issued && userId !in s.users
    requires user.role.Member? && !user.hasVault && user.used == 0 && !HandleInUse(s, user.handle)
    requires StateOfInvite(InviteRow(s, inviteHash), now) == InviteOk
    ensures var i := InviteByHash(s, inviteHash).value;
            var redeemed := s.invites[i].(redeemedBy := Some(userId), redeemedAt := Some(now));
            Keeps(s, issued, s.(users := s.users[userId := user], invites := s.invites[i := redeemed]), {})
  {
    hide StorageInv, CleanUsers, LiveSessions, CleanInvites, CodesAgree;
    hide CleanRequests, BlobsEvolve, DevicesEvolve, SessionsEvolve, InvitesEvolve, PairingsEvolve;
    var i := InviteByHash(s, inviteHash).value;
    var redeemed := s.invites[i].(redeemedBy := Some(userId), redeemedAt := Some(now));
    var s' := s.(users := s.users[userId := user], invites := s.invites[i := redeemed]);
    Stays(s, issued);
    ArrivalKeepsStorage(s, userId, user);
    UserArrives(s.users, s.vaults, userId, user);
    InviteSpent(s, issued, inviteHash, userId, now);
    MoreUsers(s.users.Keys, userId, s.uploadRequests);
    assert s'.users.Keys == s.users.Keys + {userId} && issued + {} == issued;
  }

  lemma RegistrationKeeps(s: Store, issued: set<Id>, userId: Id, handle: Id, inviteHash: Id, deviceId: Id,
                          signCount: nat, hash: Id, expiresAt: int, now: int)
    requires Sound(s, issued) && userId in issued && {deviceId, hash} !! issued
    requires expiresAt <= now + SESSION_HARD_CAP_MS
    requires StateOfInvite(InviteRow(s, inviteHash), now) == InviteOk ==> userId !in s.users
    ensures Keeps(s, issued, CompleteRegistration(s, userId, handle, inviteHash, deviceId, signCount, hash, expiresAt, now).0,
                  {deviceId, hash})
  {
    hide Sound, StoreEvolves;
    var (s', verdict) := CompleteRegistration(s, userId, handle, inviteHash, deviceId, signCount, hash, expiresAt, now);
    if verdict.Done? {
      var user := User(handle, Member, false, false, 0, 0, false, false);
      UserRegisters(s, issued, userId, user, inviteHash, now);
      var i := InviteByHash(s, inviteHash).value;
      var redeemed := s.invites[i].(redeemedBy := Some(userId), redeemedAt := Some(now));
      var s1 := s.(users := s.users[userId := user], invites := s.invites[i := redeemed]);
      assert issued + {} == issued && {} + {deviceId, hash} == {deviceId, hash};
      EnrollKeeps(s1, issued, userId, deviceId, signCount, hash, expiresAt, now);
      KeepsThen(s, issued, s1, {}, s', {deviceId, hash});
    } else {
      Idle(s, issued, {deviceId, hash});
    }
  }

  lemma LoginKeeps(s: Store, issued: set<Id>, deviceId: Id, signCount: nat, hash: Id, expiresAt: int, now: int)
    requires Sound(s, issued) && hash !in issued && expiresAt <= now + SESSION_HARD_CAP_MS
    requires deviceId in s.devices ==> s.devices[deviceId].revokedAt.None?
    ensures Keeps(s, issued, CompleteLogin(s, deviceId, signCount, hash, expiresAt, now), {hash})
  {
    hide StorageInv, CleanUsers, CleanInvites, CodesAgree, CleanRequests, BlobsEvolve, InvitesEvolve, PairingsEvolve;
    Stays(s, issued);
  }

  lemma DeleteSessionKeeps(s: Store, issued: set<Id>, hash: Id)
    requires Sound(s, issued)
    ensures Keeps(s, issued, DeleteSession(s, hash), {})
  {
    hide StorageInv, CleanUsers, CleanInvites, CodesAgree, CleanRequests, BlobsEvolve, InvitesEvolve, PairingsEvolve;
    Stays(s, issued);
  }

  lemma TouchKeeps(s: Store, issued: set<Id>, hash: Id, expiresAt: int, now: int)
    requires Sound(s, issued)
    requires hash in s.sessions ==> expiresAt <= s.sessions[hash].createdAt + SESSION_HARD_CAP_MS
    ensures Keeps(s, issued, TouchSession(s, hash, expiresAt, now), {})
  {
    hide StorageInv, CleanUsers, CleanInvites, CodesAgree, CleanRequests, BlobsEvolve, InvitesEvolve, PairingsEvolve;
    Stays(s, issued);
  }

  lemma RevokeDeviceKeeps(s: Store, issued: set<Id>, id: Id, now: int)
    requires Sound(s, issued)
    ensures Keeps(s, issued, RevokeDevice(s, id, now).0, {})
  {
    hide StorageInv, CleanUsers, CleanInvites, CodesAgree, CleanRequests, BlobsEvolve, InvitesEvolve, PairingsEvolve;
    Stays(s, issued);
    var (s', verdict) := RevokeDevice(s, id, now);
    if verdict.Done? {
      assert s' == s.(devices := s'.devices, sessions := s'.sessions) && s'.devices.Keys == s.devices.Keys;
    } else {
      assert s' == s && issued + {} == issued;
    }
  }

  lemma RemovedRequests(s: Store, id: Id)
    requires CleanRequests(s.users.Keys, s.uploadRequests)
    ensures var rows := Map(Filter(s.uploadRequests, (r: UploadRequest) => r.userId != id), (r: UploadRequest) => ForgetDecider(r, id));
            CleanRequests(s.users.Keys - {id}, rows)
            && forall r | r in rows :: exists q | q in s.uploadRequests :: q.id == r.id
  {
    var kept := Filter(s.uploadRequests, (r: UploadRequest) => r.userId != id);
    FilterMembers(s.uploadRequests, (r: UploadRequest) => r.userId != id);
    var at := FilterPositions(s.uploadRequests, (r: UploadRequest) => r.userId != id);
    var rows := Map(kept, (r: UploadRequest) => ForgetDecider(r, id));
    assert forall i | 0 <= i < |rows| :: kept[i] in kept && SameRequest(kept[i], rows[i]);
  }

  predicate SameRequest(a: UploadRequest, b: UploadRequest) { a.id == b.id && a.userId == b.userId && a.status == b.status }

  lemma FewerBlobsEvolve(s: Store, issued: set<Id>, keep: Blob -> bool)
    requires Sound(s, issued)
    ensures BlobsEvolve(s.blobs, issued, Filter(s.blobs, keep))
    ensures forall b | b in Filter(s.blobs, keep) :: b.id in issued
  {
    Stays(s, issued);
    FilterMembers(s.blobs, keep);
  }

  lemma DevicesLeave(s: Store, issued: set<Id>, devices: set<Id>)
    requires Sound(s, issued)
    ensures Keeps(s, issued, s.(devices := s.devices - devices, sessions := s.sessions - SessionsOf(s, devices)), {})
  {
    hide StorageInv, CleanUsers, CleanInvites, CodesAgree, CleanRequests, BlobsEvolve, InvitesEvolve, PairingsEvolve;
    Stays(s, issued);
    assert issued + {} == issued;
  }

  lemma UserRowsLeave(s: Store, issued: set<Id>, id: Id)
    requires Sound(s, issued) && RemoveUser(s, id).1.Done?
    ensures var p := RemoveUser(s, id).0;
            Keeps(s, issued, p.(devices := s.devices, sessions := s.sessions), {})
  {
    hide StorageInv, CleanUsers, LiveSessions, CleanInvites, CodesAgree;
    hide CleanRequests, BlobsEvolve, DevicesEvolve, SessionsEvolve, InvitesEvolve, PairingsEvolve;
    var p := RemoveUser(s, id).0;
    Stays(s, issued);
    RemovalKeepsStorage(s, id);
    FewerBlobsEvolve(s, issued, (blob: Blob) => blob.ownerId != id);
    RemovedRequests(s, id);
    SeededAdminStays(s.users, s.vaults, id);
    UserLeaves(s.users, s.vaults, id);
    InvitesForget(s, issued, id);
    assert p.users.Keys == s.users.Keys - {id} && issued + {} == issued;
  }

  lemma RemoveUserKeeps(s: Store, issued: set<Id>, id: Id)
    requires Sound(s, issued)
    ensures Keeps(s, issued, RemoveUser(s, id).0, {})
  {
    hide StorageInv, CleanUsers, LiveSessions, CleanInvites, CodesAgree, CleanRequests, Known, StoreEvolves;
    var (s', verdict) := RemoveUser(s, id);
    if verdict.Done? {
      var s1 := s'.(devices := s.devices, sessions := s.sessions);
      UserRowsLeave(s, issued, id);
      assert issued + {} == issued;
      DevicesLeave(s1, issued, DevicesOf(s, id));
      assert SessionsOf(s1, DevicesOf(s, id)) == SessionsOf(s, DevicesOf(s, id));
      KeepsThen(s, issued, s1, {}, s', {});
    } else {
      Idle(s, issued, {});
    }
  }

  lemma UsersAndItemsKeep(s: Store, issued: set<Id>, users: map<Id, User>, vaults: set<Id>, items: seq<Item>)
    requires Sound(s, issued)
    requires StorageInv(users, items, s.blobs) && CleanUsers(users, vaults) && users.Keys == s.users.Keys
    ensures Keeps(s, issued, s.(users := users, vaults := vaults, items := items), {})
  {
    hide StorageInv, CleanUsers, LiveSessions, CleanInvites, CodesAgree;
    hide CleanRequests, BlobsEvolve, DevicesEvolve, SessionsEvolve, InvitesEvolve, PairingsEvolve;
    Stays(s, issued);
    assert issued + {} == issued;
  }

  lemma ItemsKeep(s: Store, issued: set<Id>, items: seq<Item>)
    requires Sound(s, issued) && StorageInv(s.users, items, s.blobs)
    ensures Keeps(s, issued, s.(items := items), {})
  {
    hide StorageInv, CleanUsers, LiveSessions, CleanInvites, CodesAgree, CleanRequests, Known, StoreEvolves;
    UsersAndItemsKeep(s, issued, s.users, s.vaults, items);
    assert s.(users := s.users, vaults := s.vaults, items := items) == s.(items := items);
  }

  lemma SaveVaultKeeps(s: Store, issued: set<Id>, userId: Id)
    requires Sound(s, issued) && userId in s.users
    ensures Keeps(s, issued, SaveVault(s, userId).0, {})
  {
    hide StorageInv, CleanUsers, LiveSessions, CleanInvites, CodesAgree, CleanRequests, Known, StoreEvolves;
    var (s', verdict) := SaveVault(s, userId);
    if verdict.Done? {
      UserEditKeepsStorage(s, s'.users);
      VaultsMatch(s.users, s.vaults);
      UsersEdited(s.users, s.vaults, s'.users, s'.vaults);
      UsersAndItemsKeep(s, issued, s'.users, s'.vaults, s.items);
      assert s' == s.(users := s'.users, vaults := s'.vaults, items := s.items);
    } else {
      Idle(s, issued, {});
    }
  }

  lemma CreatePairingKeeps(s: Store, issued: set<Id>, id: Id, code: Id, publicJwk: Id, expiresAt: int, now: int)
    requires Sound(s, issued) && id !in issued && PairingByCode(s, code).None?
    ensures Keeps(s, issued, CreatePairing(s, id, code, publicJwk, expiresAt, now), {id})
  {
    hide StorageInv, CleanUsers, LiveSessions, CleanInvites;
    hide CleanRequests, BlobsEvolve, DevicesEvolve, SessionsEvolve, InvitesEvolve;
    Stays(s, issued);
    var s' := CreatePairing(s, id, code, publicJwk, expiresAt, now);
    forall p | p in s'.pairings ensures exists c | c in s'.pairingCodes :: s'.pairingCodes[c] == p {
      if p == id {
        assert s'.pairingCodes[code] == id;
      } else {
        var c :| c in s.pairingCodes && s.pairingCodes[c] == p;
        assert c != code;
        assert s'.pairingCodes[c] == p;
      }
    }
  }

  lemma WrapKeeps(s: Store, issued: set<Id>, id: Id, userId: Id, wrap: Id)
    requires Sound(s, issued)
    ensures Keeps(s, issued, SavePairingWrap(s, id, userId, wrap).0, {})
  {
    hide StorageInv, CleanUsers, LiveSessions, CleanInvites;
    hide CleanRequests, BlobsEvolve, DevicesEvolve, SessionsEvolve, InvitesEvolve;
    Stays(s, issued);
    var (s', verdict) := SavePairingWrap(s, id, userId, wrap);
    if verdict.Done? {
      assert s'.pairings.Keys == s.pairings.Keys && s' == s.(pairings := s'.pairings);
    } else {
      assert s' == s && issued + {} == issued;
    }
  }

  lemma DeletePairingKeeps(s: Store, issued: set<Id>, id: Id)
    requires Sound(s, issued)
    ensures Keeps(s, issued, DeletePairing(s, id), {})
  {
    hide StorageInv, CleanUsers, LiveSessions, CleanInvites;
    hide CleanRequests, BlobsEvolve, DevicesEvolve, SessionsEvolve, InvitesEvolve;
    Stays(s, issued);
    var s' := DeletePairing(s, id);
    forall p | p in s'.pairings ensures exists c | c in s'.pairingCodes :: s'.pairingCodes[c] == p {
      var c :| c in s.pairingCodes && s.pairingCodes[c] == p;
      assert s'.pairingCodes[c] == p;
    }
  }

  lemma CreateItemKeeps(s: Store, issued: set<Id>, ownerId: Id, n: NewItem, now: int, pinned: bool)
    requires Sound(s, issued) && ownerId in s.users && IsNote(n.kind)
    ensures Keeps(s, issued, CreateItem(s, ownerId, n, now, pinned).0, {})
  {
    hide StorageInv, CleanUsers, LiveSessions, CleanInvites, CodesAgree, CleanRequests, Known, StoreEvolves;
    var (s', verdict) := CreateItem(s, ownerId, n, now, pinned);
    if verdict.Done? {
      NoteKeepsStorage(s, Item(n.id, n.kind, ownerId, n.body, None, n.byteSize, now, n.expiresAt, pinned));
      ItemsKeep(s, issued, s'.items);
    } else {
      Idle(s, issued, {});
    }
  }

  lemma PreserveKeeps(s: Store, issued: set<Id>, ownerId: Id, enabled: bool)
    requires Sound(s, issued)
    ensures Keeps(s, issued, SetPreserveNotes(s, ownerId, enabled), {})
  {
    hide StorageInv, CleanUsers, LiveSessions, CleanInvites, CodesAgree, CleanRequests, Known, StoreEvolves;
    var s' := SetPreserveNotes(s, ownerId, enabled);
    UserEditKeepsStorage(s, s'.users);
    ItemEditKeepsStorage(s.(users := s'.users), s'.items);
    VaultsMatch(s.users, s.vaults);
    UsersEdited(s.users, s.vaults, s'.users, s.vaults);
    UsersAndItemsKeep(s, issued, s'.users, s.vaults, s'.items);
    assert s' == s.(users := s'.users, vaults := s.vaults, items := s'.items);
  }

  lemma UpdateItemKeeps(s: Store, issued: set<Id>, ownerId: Id, id: Id, p: Patch, now: int)
    requires Sound(s, issued) && IsNote(p.kind)
    ensures Keeps(s, issued, UpdateTextItem(s, ownerId, id, p, now).0, {})
  {
    hide StorageInv, CleanUsers, LiveSessions, CleanInvites, CodesAgree, CleanRequests, Known, StoreEvolves;
    var (s', verdict) := UpdateTextItem(s, ownerId, id, p, now);
    if verdict.Done? {
      ItemEditKeepsStorage(s, s'.items);
      ItemsKeep(s, issued, s'.items);
    } else {
      Idle(s, issued, {});
    }
  }

  lemma ResetExpiryKeeps(s: Store, issued: set<Id>, ownerId: Id, expiresAt: int)
    requires Sound(s, issued)
    ensures Keeps(s, issued, ResetItemExpiry(s, ownerId, expiresAt), {})
  {
    hide StorageInv, CleanUsers, LiveSessions, CleanInvites, CodesAgree, CleanRequests, Known, StoreEvolves;
    var s' := ResetItemExpiry(s, ownerId, expiresAt);
    ItemEditKeepsStorage(s, s'.items);
    ItemsKeep(s, issued, s'.items);
  }

  lemma DeleteItemKeeps(s: Store, issued: set<Id>, ownerId: Id, id: Id)
    requires Sound(s, issued)
    ensures Keeps(s, issued, DeleteItem(s, ownerId, id), {})
  {
    hide StorageInv, CleanUsers, LiveSessions, CleanInvites, CodesAgree, CleanRequests, Known, StoreEvolves;
    DeletionKeepsStorage(s, (item: Item) => !(item.ownerId == ownerId && item.id == id));
    ItemsKeep(s, issued, DeleteItem(s, ownerId, id).items);
  }

  lemma RequestKeeps(s: Store, issued: set<Id>, id: Id, userId: Id)
    requires Sound(s, issued) && id !in issued && userId in s.users
    ensures Keeps(s, issued, CreateUploadRequest(s, id, userId).0, {id})
  {
    hide StorageInv, CleanUsers, LiveSessions, CleanInvites, CodesAgree;
    hide BlobsEvolve, DevicesEvolve, SessionsEvolve, InvitesEvolve, PairingsEvolve;
    Stays(s, issued);
  }

  lemma DecisionStaysClean(users: set<Id>, rows: seq<UploadRequest>, at: nat, row: UploadRequest)
    requires CleanRequests(users, rows) && at < |rows| && !row.status.Waiting?
    requires row.id == rows[at].id && row.userId == rows[at].userId && (row.decidedBy.Some? ==> row.decidedBy.value in users)
    ensures CleanRequests(users, rows[at := row])
    ensures forall r | r in rows[at := row] :: r == row || r in rows
  {
    assert rows[at] in rows;
  }

  lemma UsersAndRequestsKeep(s: Store, issued: set<Id>, users: map<Id, User>, requests: seq<UploadRequest>)
    requires Sound(s, issued) && users.Keys == s.users.Keys
    requires StorageInv(users, s.items, s.blobs) && CleanUsers(users, s.vaults) && CleanRequests(users.Keys, requests)
    requires forall r | r in requests :: r.id in issued
    ensures Keeps(s, issued, s.(users := users, uploadRequests := requests), {})
  {
    hide StorageInv, CleanUsers, LiveSessions, CleanInvites, CodesAgree, CleanRequests;
    hide BlobsEvolve, DevicesEvolve, SessionsEvolve, InvitesEvolve, PairingsEvolve;
    Stays(s, issued);
    assert issued + {} == issued;
  }

  lemma DecidedRow(s: Store, id: Id, decidedBy: Id, approved: bool, granted: Option<nat>)
    requires DecideUploadRequest(s, id, decidedBy, approved, granted).1.Done?
    ensures var s' := DecideUploadRequest(s, id, decidedBy, approved, granted).0;
            var at := FirstIndex(s.uploadRequests, (r: UploadRequest) => r.id == id);
            && at < |s.uploadRequests| && s' == s.(users := s'.users, uploadRequests := s'.uploadRequests)
            && s'.users.Keys == s.users.Keys
            && (forall u | u in s.users :: s'.users[u] == s.users[u].(canUpload := s'.users[u].canUpload, quota := s'.users[u].quota))
            && exists row :: s'.uploadRequests == s.uploadRequests[at := row] && !row.status.Waiting?
                             && row.id == s.uploadRequests[at].id && row.userId == s.uploadRequests[at].userId
                             && row.decidedBy == Some(decidedBy)
  {
    var s' := DecideUploadRequest(s, id, decidedBy, approved, granted).0;
    var at := FirstIndex(s.uploadRequests, (r: UploadRequest) => r.id == id);
    assert s'.uploadRequests == s.uploadRequests[at := s'.uploadRequests[at]];
  }

  lemma DecideKeeps(s: Store, issued: set<Id>, id: Id, decidedBy: Id, approved: bool, granted: Option<nat>)
    requires Sound(s, issued) && decidedBy in s.users
    ensures Keeps(s, issued, DecideUploadRequest(s, id, decidedBy, approved, granted).0, {})
  {
    hide StorageInv, CleanUsers, LiveSessions, CleanInvites, CodesAgree, CleanRequests, Keeps;
    var (s', verdict) := DecideUploadRequest(s, id, decidedBy, approved, granted);
    if verdict.Done? {
      DecidedRow(s, id, decidedBy, approved, granted);
      hide DecideUploadRequest;
      VaultsMatch(s.users, s.vaults);
      UsersEdited(s.users, s.vaults, s'.users, s.vaults);
      UserEditKeepsStorage(s, s'.users);
      var at := FirstIndex(s.uploadRequests, (r: UploadRequest) => r.id == id);
      assert s.uploadRequests[at] in s.uploadRequests;
      DecisionStaysClean(s.users.Keys, s.uploadRequests, at, s'.uploadRequests[at]);
      UsersAndRequestsKeep(s, issued, s'.users, s'.uploadRequests);
    } else {
      UsersAndRequestsKeep(s, issued, s.users, s.uploadRequests);
      assert s' == s;
    }
  }

  lemma PendingKeeps(s: Store, issued: set<Id>, id: Id, ownerId: Id, r2Key: string, byteSize: nat, chunkCount: nat, now: int)
    requires Sound(s, issued) && id !in issued && ownerId in s.users && forall b | b in s.blobs :: b.r2Key != r2Key
    ensures Keeps(s, issued, CreatePendingBlob(s, id, ownerId, r2Key, byteSize, chunkCount, now), {id})
  {
    hide StorageInv, CleanUsers, LiveSessions, CleanInvites, CodesAgree;
    hide CleanRequests, DevicesEvolve, SessionsEvolve, InvitesEvolve, PairingsEvolve;
    Stays(s, issued);
    PendingKeepsStorage(s, id, ownerId, r2Key, byteSize, chunkCount, now);
  }

  lemma CommittedBlobsEvolve(s: Store, issued: set<Id>, at: nat, blob: Blob)
    requires Sound(s, issued) && at < |s.blobs| && s.blobs[at].state.Pending?
    requires blob.id == s.blobs[at].id && blob.ownerId == s.blobs[at].ownerId && blob.r2Key == s.blobs[at].r2Key
    ensures BlobsEvolve(s.blobs, issued, s.blobs[at := blob])
    ensures forall b | b in s.blobs[at := blob] :: b.id in issued
  {
    hide CleanUsers, LiveSessions, CleanInvites, CodesAgree;
    hide CleanRequests, DevicesEvolve, SessionsEvolve, InvitesEvolve, PairingsEvolve;
    Stays(s, issued);
    assert s.blobs[at] in s.blobs;
    forall b | b in s.blobs[at := blob] ensures b == blob || (b in s.blobs && b != s.blobs[at]) {
      var i :| 0 <= i < |s.blobs| && s.blobs[at := blob][i] == b;
    }
  }

  lemma CommitKeeps(s: Store, issued: set<Id>, ownerId: Id, actualBytes: nat, c: CommitRequest, pinned: bool, now: int)
    requires Sound(s, issued) && !IsNote(c.kind)
    requires var at := BlobAt(s, c.blobId); at < |s.blobs| ==> s.blobs[at].ownerId == ownerId
    ensures Keeps(s, issued, CommitBlobAndItem(s, ownerId, actualBytes, c, pinned, now).0, {})
  {
    hide StorageInv, CleanUsers, LiveSessions, CleanInvites, CodesAgree;
    hide CleanRequests, BlobsEvolve, DevicesEvolve, SessionsEvolve, InvitesEvolve, PairingsEvolve;
    Stays(s, issued);
    CommitKeepsStorage(s, ownerId, actualBytes, c, pinned, now);
    var (s', verdict) := CommitBlobAndItem(s, ownerId, actualBytes, c, pinned, now);
    if !verdict.Done? {
      assert s' == s && issued + {} == issued;
    } else {
      assert s'.users.Keys == s.users.Keys && s' == s.(users := s'.users, items := s'.items, blobs := s'.blobs);
      VaultsMatch(s.users, s.vaults);
      UsersEdited(s.users, s.vaults, s'.users, s'.vaults);
      var at := BlobAt(s, c.blobId);
      CommittedBlobsEvolve(s, issued, at, s'.blobs[at]);
    }
  }

  /** Pairings and sessions may leave at any time; their index entries stay behind and go stale. */
  lemma LapsedLeave(s: Store, issued: set<Id>, pairings: set<Id>, sessions: set<Id>)
    requires Sound(s, issued)
    ensures Keeps(s, issued, s.(pairings := s.pairings - pairings, sessions := s.sessions - sessions), {})
  {
    hide StorageInv, CleanUsers, CleanInvites, CleanRequests, BlobsEvolve, DevicesEvolve, InvitesEvolve;
    Stays(s, issued);
    var s' := s.(pairings := s.pairings - pairings, sessions := s.sessions - sessions);
    assert issued + {} == issued;
    forall p | p in s'.pairings ensures exists c | c in s'.pairingCodes :: s'.pairingCodes[c] == p {
      var c :| c in s.pairingCodes && s.pairingCodes[c] == p;
      assert s'.pairingCodes[c] == p;
    }
  }

  lemma PrunedRowsKeep(s: Store, issued: set<Id>, now: int)
    requires Sound(s, issued)
    ensures var p := Prune(s, now); Keeps(s, issued, s.(users := p.users, items := p.items, blobs := p.blobs), {})
  {
    hide StorageInv, CleanUsers, LiveSessions, CleanInvites, CodesAgree;
    hide CleanRequests, BlobsEvolve, DevicesEvolve, SessionsEvolve, InvitesEvolve, PairingsEvolve;
    Stays(s, issued);
    PruneKeepsStorage(s, now);
    PruneUsage(s, now);
    VaultsMatch(s.users, s.vaults);
    UsersEdited(s.users, s.vaults, Prune(s, now).users, s.vaults);
    FewerBlobsEvolve(s, issued, (blob: Blob) => blob.id !in PlanOf(s, now).deleteBlobIds);
    assert issued + {} == issued;
  }

  lemma PruneKeeps(s: Store, issued: set<Id>, now: int)
    requires Sound(s, issued)
    ensures Keeps(s, issued, Prune(s, now), {})
  {
    hide StorageInv, CleanUsers, LiveSessions, CleanInvites, CodesAgree, CleanRequests, Known, StoreEvolves;
    var p := Prune(s, now);
    var s1 := s.(users := p.users, items := p.items, blobs := p.blobs);
    PrunedRowsKeep(s, issued, now);
    assert issued + {} == issued;
    LapsedLeave(s1, issued, PlanOf(s, now).deletePairingIds, PlanOf(s, now).deleteSessionKeys);
    KeepsThen(s, issued, s1, {}, p, {});
  }

  // ---- conservation

  /** The per-user counters on the same page, added up. */
  function CountersListed(users: map<Id, User>, ids: seq<Id>): nat
    requires forall id | id in ids :: id in users
  {
    if ids == [] then 0 else users[ids[0]].used + CountersListed(users, ids[1..])
  }

  function UsedBy(blobs: seq<Blob>, ids: seq<Id>): nat {
    if ids == [] then 0 else Used(blobs, ids[0]) + UsedBy(blobs, ids[1..])
  }

  ghost predicate Listing(ids: seq<Id>, members: set<Id>) {
    (forall i, j | 0 <= i < j < |ids| :: ids[i] != ids[j]) && forall id :: id in ids <==> id in members
  }

  /** However the users are listed, their counters add up to the bytes the bucket holds for committed blobs. */
  lemma CountersAddUp(s: Store, issued: set<Id>, ids: seq<Id>)
    requires Sound(s, issued) && Listing(ids, s.users.Keys)
    ensures CountersListed(s.users, ids) == BytesIn(s.blobs, Committed)
  {
    CountersAreUsed(s.users, ids, s.blobs);
    UsedByAll(s.blobs, ids);
  }

  lemma {:induction false} CountersAreUsed(users: map<Id, User>, ids: seq<Id>, blobs: seq<Blob>)
    requires Counted(users, blobs) && forall id | id in ids :: id in users
    ensures CountersListed(users, ids) == UsedBy(blobs, ids)
  {
    if ids != [] {
      CountersAreUsed(users, ids[1..], blobs);
    }
  }

  lemma {:induction false} UsedByAll(blobs: seq<Blob>, ids: seq<Id>)
    requires forall i, j | 0 <= i < j < |ids| :: ids[i] != ids[j]
    requires forall b | b in blobs :: b.ownerId in ids
    ensures UsedBy(blobs, ids) == BytesIn(blobs, Committed)
  {
    if blobs == [] {
      UsedByNone(ids);
    } else {
      UsedByAll(blobs[1..], ids);
      UsedBySplit(blobs, ids);
    }
  }

  lemma {:induction false} UsedByNone(ids: seq<Id>)
    ensures UsedBy([], ids) == 0
  {
    if ids != [] {
      UsedByNone(ids[1..]);
    }
  }

  lemma {:induction false} UsedBySplit(blobs: seq<Blob>, ids: seq<Id>)
    requires blobs != [] && forall i, j | 0 <= i < j < |ids| :: ids[i] != ids[j]
    ensures UsedBy(blobs, ids)
         == UsedBy(blobs[1..], ids) + if blobs[0].ownerId in ids then Charge(blobs[0], blobs[0].ownerId) else 0
  {
    if ids != [] {
      UsedBySplit(blobs, ids[1..]);
      assert blobs[0].ownerId in ids <==> blobs[0].ownerId == ids[0] || blobs[0].ownerId in ids[1..];
    }
  }
}
