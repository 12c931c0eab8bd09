/** What callers may rely on, drawn from the run theorem and from the guards. */
module Promises {
  import opened Wrappers
  import opened Rows
  import opened PrunePlan
  import opened StoreOps
  import opened Storage
  import opened Server
  import opened Services
  import opened Runs
  import opened Guards
  import opened Effects

  // ---- over whole runs

  /** A device revoked at any point has no session at any later point. */
  lemma RevokedDeviceStaysOut(w: World, steps: seq<Step>, d: Id)
    requires Inv(w) && AdmissibleRun(w, steps) && d in w.store.devices && w.store.devices[d].revokedAt.Some?
    ensures forall h | h in Run(w, steps).store.sessions :: Run(w, steps).store.sessions[h].deviceId != d
  {
    RunFine(w, steps);
    RevokedHasNoSession(w, Run(w, steps), d);
  }

  lemma RevokedHasNoSession(w: World, w': World, d: Id)
    requires Inv(w) && Inv(w') && Evolves(w, w') && d in w.store.devices && w.store.devices[d].revokedAt.Some?
    ensures forall h | h in w'.store.sessions :: w'.store.sessions[h].deviceId != d
  {
    hide StorageInv, CleanUsers, CleanInvites, CodesAgree, CleanRequests, KnownKeys, TicketsSound;
  }

  /** However often it is touched, a session never outlives ninety days from its creation, nor moves to another device. */
  lemma SessionNeverOutlivesCap(w: World, steps: seq<Step>, h: Id)
    requires Inv(w) && AdmissibleRun(w, steps) && h in w.store.sessions && h in Run(w, steps).store.sessions
    ensures Run(w, steps).store.sessions[h].expiresAt <= w.store.sessions[h].createdAt + SESSION_HARD_CAP_MS
    ensures Run(w, steps).store.sessions[h].deviceId == w.store.sessions[h].deviceId
  {
    hide StorageInv, CleanUsers, CleanInvites, CodesAgree, CleanRequests, KnownKeys, TicketsSound;
    RunFine(w, steps);
  }

  /** A redeemed invite keeps its redemption time for as long as it is there, and is never revoked. */
  lemma InviteRedeemedOnce(w: World, steps: seq<Step>, i: Id)
    requires Inv(w) && AdmissibleRun(w, steps) && i in w.store.invites && w.store.invites[i].redeemedAt.Some?
    requires i in Run(w, steps).store.invites
    ensures Run(w, steps).store.invites[i].redeemedAt == w.store.invites[i].redeemedAt
    ensures Run(w, steps).store.invites[i].revokedAt.None?
  {
    hide StorageInv, CleanUsers, LiveSessions, CodesAgree, CleanRequests, KnownKeys, TicketsSound;
    RunFine(w, steps);
  }

  /** Once wrapped, a pairing is frozen until it is deleted, and a deleted pairing never returns. */
  lemma WrapIsFinal(w: World, steps: seq<Step>, p: Id)
    requires Inv(w) && AdmissibleRun(w, steps) && p in w.issued
    ensures p !in w.store.pairings ==> p !in Run(w, steps).store.pairings
    ensures p in w.store.pairings && p in Run(w, steps).store.pairings && w.store.pairings[p].wrap.Some?
            ==> Run(w, steps).store.pairings[p] == w.store.pairings[p]
  {
    hide Sound, KnownKeys, TicketsSound, DevicesEvolve, SessionsEvolve, InvitesEvolve, BlobsEvolve;
    RunFine(w, steps);
  }

  /** A pairing admits at most one device: finishing deletes it, and every later finish on it is refused. */
  lemma PairingEnrolsOnce(w: World, first: Step, steps: seq<Step>, again: Step)
    requires Inv(w) && Admissible(w, first) && first.Finish? && first.c.PairingEnroll?
    requires Enrolled(w.store, first).1.Served?
    requires AdmissibleRun(Next(w, first), steps)
    requires again.Finish? && again.c.PairingEnroll? && again.c.pairingId == first.c.pairingId
    ensures Enrolled(Run(Next(w, first), steps).store, again).1.Refused?
  {
    hide Sound, KnownKeys, TicketsSound, StoreEvolves;
    var w1 := Next(w, first);
    StepFine(w, first);
    KnownPairings(w, first.c.pairingId);
    WrapIsFinal(w1, steps, first.c.pairingId);
  }

  lemma KnownPairings(w: World, p: Id)
    requires Inv(w) && p in w.store.pairings
    ensures p in w.issued
  {}

  /** A committed blob never changes size, owner, key or hash for as long as it exists. */
  lemma CommittedBlobIsFinal(w: World, steps: seq<Step>, a: Blob, b: Blob)
    requires Inv(w) && AdmissibleRun(w, steps)
    requires a in w.store.blobs && a.state.Committed? && b in Run(w, steps).store.blobs && a.id == b.id
    ensures a == b
  {
    hide Sound, KnownKeys, TicketsSound, DevicesEvolve, SessionsEvolve, InvitesEvolve, PairingsEvolve;
    RunFine(w, steps);
  }

  // ---- in every reachable world

  /** The index finds each pairing by exactly one code, stale entries or not. */
  lemma PairingHasOneCode(w: World, p: Id)
    requires Inv(w) && p in w.store.pairings
    ensures exists c :: PairingByCode(w.store, c) == Some(p)
    ensures forall c, d :: PairingByCode(w.store, c) == Some(p) && PairingByCode(w.store, d) == Some(p) ==> c == d
  {
    hide StorageInv, CleanUsers, LiveSessions, CleanInvites, CleanRequests, KnownKeys, TicketsSound;
    var c :| c in w.store.pairingCodes && w.store.pairingCodes[c] == p;
    assert PairingByCode(w.store, c) == Some(p);
  }

  /** The seeded admin can never be removed, by itself or by anyone. */
  lemma AdminCannotBeRemoved(w: World)
    requires Inv(w)
    ensures RemoveUser(w.store, ADMIN_ID) == (w.store, LastAdmin)
  {
    hide StorageInv, LiveSessions, CleanInvites, CodesAgree, CleanRequests, KnownKeys, TicketsSound;
  }

  /** A refused call changes nothing, including the one that deletes a session before refusing: that branch is never reached. */
  lemma RefusedChangesNothing(w: World, call: Call)
    requires Inv(w) && Answer(w.store, call).1.Refused?
    ensures Answer(w.store, call).0 == w.store
  {
    hide Inv;
    if call.Touch? && RequireCtx(w.store, call.token, call.now).Ok? {
      LiveSessionCanBeTouched(w, call.token, call.now);
    }
  }

  lemma LiveSessionCanBeTouched(w: World, token: Id, now: int)
    requires Inv(w) && RequireCtx(w.store, token, now).Ok?
    ensures NextSessionExpiry(RequireCtx(w.store, token, now).value.session.createdAt, now).Some?
  {
    hide StorageInv, CleanUsers, CleanInvites, CodesAgree, CleanRequests, KnownKeys, TicketsSound;
  }

  // ---- who may change what

  predicate NeedsSession(call: Call) {
    !(call.LogIn? || call.LogOut? || call.StartPairing? || call.Sweep?)
  }

  function Caller(s: Store, call: Call): (r: Result<Ctx, AuthError>)
    requires NeedsSession(call)
  {
    RequireCtx(s, call.token, call.now)
  }

  /**
   * An enrolment needs no session. It is served exactly when its demands are met; then it brings in one device of the
   * sealed user with one session and does what its kind does besides, and otherwise it changes nothing. Registering never
   * lands on a user who is already there.
   */
  lemma EnrolmentChanges(w: World, step: Step)
    requires Inv(w) && Admissible(w, step) && step.Finish?
    ensures var s, s' := w.store, Next(w, step).store;
            && (if FinishDemands(s, step).Served? then FinishEffect(s, s', step) else s' == s)
            && (FinishDemands(s, step).Served? && step.c.Register? ==> step.c.userId !in s.users)
  {
    var s := w.store;
    HashesDiffer(w);
    FinishesByTable(s, step);
    FinishesTakeEffect(s, step);
    if step.c.Register? && Enrolled(s, step).1.Served? {
      OpenWhenServed(s, step);
      SpentByItsUser(w, step.c, step.now);
    }
    hide Inv, Enrolled, FinishDemands, FinishEffect, Answer, Opened;
  }

  lemma HashesDiffer(w: World)
    requires Inv(w)
    ensures DistinctHashes(w.store)
  {
    hide StorageInv, CleanUsers, LiveSessions, CodesAgree, CleanRequests, KnownKeys, TicketsSound;
  }

  lemma OpenWhenServed(s: Store, step: Step)
    requires step.Finish? && step.c.Register? && Enrolled(s, step).1.Served?
    ensures StateOfInvite(InviteRow(s, step.c.inviteHash), step.now) == InviteOk
  {
    hide StateOfInvite, HandleInUse, AddSession, AddDevice;
  }

  lemma SpentByItsUser(w: World, c: Challenge, now: int)
    requires Inv(w) && c in w.challenges && c.Register? && StateOfInvite(InviteRow(w.store, c.inviteHash), now) == InviteOk
    ensures c.userId !in w.store.users
  {
    hide StorageInv, CleanUsers, LiveSessions, CodesAgree, CleanRequests, KnownKeys;
  }

  /** Every call: served exactly when its demands are met, with exactly its effect, and otherwise without any. */
  lemma CallsDoAsDemanded(w: World, call: Call)
    requires Inv(w)
    ensures var (s', outcome) := Answer(w.store, call);
            && outcome == Demands(w.store, call)
            && if outcome.Served? then Effect(w.store, s', call) else s' == w.store
  {
    hide Inv, Answer, Demands, Effect;
    AnswersByTable(w.store, call);
    if Answer(w.store, call).1.Served? {
      ServedCallsTakeEffect(w.store, call);
    } else {
      RefusedChangesNothing(w, call);
    }
  }

  /** Whatever else the store does needs a live session: over all steps, and not only calls. */
  lemma NoSessionNoChange(w: World, step: Step)
    requires Inv(w) && Admissible(w, step) && Next(w, step).store != w.store
    ensures step.Finish? || (step.Serve? && (!NeedsSession(step.call) || Caller(w.store, step.call).Ok?))
    ensures step.Serve? && NeedsSession(step.call) ==> Answer(w.store, step.call).1.Served?
  {
    if step.Serve? && NeedsSession(step.call) && Answer(w.store, step.call).1.Refused? {
      RefusedChangesNothing(w, step.call);
    }
  }

  predicate AdminOnly(call: Call) {
    call.IssueInvite? || call.WithdrawInvite? || call.Revoke? || call.Remove? || call.Preserve? || call.Decide?
  }

  lemma MembersAreRefused(s: Store, call: Call)
    requires AdminOnly(call) && Caller(s, call).Ok? && s.users[Caller(s, call).value.userId].role.Member?
    ensures Answer(s, call) == (s, Refused(Forbidden))
  {}

  function OthersItems(s: Store, owner: Id): seq<Item> { Filter(s.items, (item: Item) => item.ownerId != owner) }

  function OthersBlobs(s: Store, owner: Id): seq<Blob> { Filter(s.blobs, (blob: Blob) => blob.ownerId != owner) }

  lemma {:induction false} EditedElsewhere(xs: seq<Item>, ys: seq<Item>, owner: Id)
    requires |xs| == |ys| && forall i | 0 <= i < |xs| :: ys[i].ownerId == xs[i].ownerId && (xs[i].ownerId != owner ==> ys[i] == xs[i])
    ensures Filter(ys, (item: Item) => item.ownerId != owner) == Filter(xs, (item: Item) => item.ownerId != owner)
  {
    if xs != [] {
      EditedElsewhere(xs[1..], ys[1..], owner);
    }
  }

  lemma {:induction false} BlobsElsewhere(xs: seq<Blob>, ys: seq<Blob>, owner: Id)
    requires |xs| == |ys| && forall i | 0 <= i < |xs| :: ys[i].ownerId == xs[i].ownerId && (xs[i].ownerId != owner ==> ys[i] == xs[i])
    ensures Filter(ys, (blob: Blob) => blob.ownerId != owner) == Filter(xs, (blob: Blob) => blob.ownerId != owner)
  {
    if xs != [] {
      BlobsElsewhere(xs[1..], ys[1..], owner);
    }
  }

  lemma {:induction false} DeletedElsewhere(xs: seq<Item>, owner: Id, id: Id)
    ensures Filter(Filter(xs, (item: Item) => !(item.ownerId == owner && item.id == id)), (item: Item) => item.ownerId != owner)
         == Filter(xs, (item: Item) => item.ownerId != owner)
  {
    if xs != [] {
      DeletedElsewhere(xs[1..], owner, id);
    }
  }

  predicate TouchesItems(call: Call) {
    call.Create? || call.Update? || call.Delete? || call.Preserve? || call.ResetExpiry?
  }

  lemma CreatedElsewhere(s: Store, call: Call)
    requires call.Create? && Caller(s, call).Ok?
    ensures OthersItems(Answer(s, call).0, Caller(s, call).value.userId) == OthersItems(s, Caller(s, call).value.userId)
    ensures Answer(s, call).0.blobs == s.blobs
  {
    var me, s' := Caller(s, call).value.userId, Answer(s, call).0;
    if s'.items != s.items {
      FilterAppend(s.items, [s'.items[|s.items|]], (item: Item) => item.ownerId != me);
    }
  }

  /** A caller's note calls leave every other user's items, and everybody's blobs, exactly as they were. */
  lemma OthersItemsUntouched(s: Store, call: Call)
    requires TouchesItems(call) && Caller(s, call).Ok?
    ensures OthersItems(Answer(s, call).0, Caller(s, call).value.userId) == OthersItems(s, Caller(s, call).value.userId)
    ensures Answer(s, call).0.blobs == s.blobs
  {
    var me, s' := Caller(s, call).value.userId, Answer(s, call).0;
    if call.Create? {
      CreatedElsewhere(s, call);
    } else if call.Delete? {
      DeletedElsewhere(s.items, me, call.id);
    } else {
      EditedElsewhere(s.items, s'.items, me);
    }
  }

  /** Nor do upload calls touch other users' blobs or items. */
  lemma OthersUploadsUntouched(s: Store, call: Call)
    requires (call.Intent? || call.Commit?) && Caller(s, call).Ok?
    ensures OthersItems(Answer(s, call).0, Caller(s, call).value.userId) == OthersItems(s, Caller(s, call).value.userId)
    ensures OthersBlobs(Answer(s, call).0, Caller(s, call).value.userId) == OthersBlobs(s, Caller(s, call).value.userId)
  {
    var me, s' := Caller(s, call).value.userId, Answer(s, call).0;
    if s' != s {
      if call.Intent? {
        FilterAppend(s.blobs, [s'.blobs[|s.blobs|]], (blob: Blob) => blob.ownerId != me);
      } else {
        FilterAppend(s.items, [s'.items[|s.items|]], (item: Item) => item.ownerId != me);
        BlobsElsewhere(s.blobs, s'.blobs, me);
      }
    }
  }

  /** A commit that is served stays within the quota of that moment, charges the measured bytes, and marks the blob. */
  lemma CommitStaysInQuota(s: Store, token: Id, now: int, configured: bool, c: CommitRequest, stat: Option<nat>)
    requires CommitUpload(s, token, now, configured, c, stat).1.Served?
    ensures var me, s' := RequireCtx(s, token, now).value.userId, CommitUpload(s, token, now, configured, c, stat).0;
            && stat.Some? && s'.users[me].used == s.users[me].used + stat.value <= s'.users[me].quota
            && (exists b | b in s.blobs && b.id == c.blobId && b.ownerId == me && b.state.Pending? :: 0 < stat.value <= b.byteSize)
            && (exists b | b in s'.blobs && b.id == c.blobId :: b.state.Committed? && b.byteSize == stat.value)
  {
    var at := BlobAt(s, c.blobId);
    var s' := CommitUpload(s, token, now, configured, c, stat).0;
    assert s.blobs[at] in s.blobs && s'.blobs[at] in s'.blobs;
  }

  // ---- what may name a user who is gone

  /** In every reachable world all references to users hold but two kinds: the user of a pairing, and the user of a device. */
  lemma ReferencesHold(w: World)
    requires Inv(w)
    ensures var s := w.store;
            && (forall item | item in s.items :: item.ownerId in s.users)
            && (forall blob | blob in s.blobs :: blob.ownerId in s.users)
            && (forall r | r in s.uploadRequests :: r.userId in s.users && (r.decidedBy.Some? ==> r.decidedBy.value in s.users))
            && (forall i | i in s.invites ::
                  s.invites[i].createdBy in s.users && (s.invites[i].redeemedBy.Some? ==> s.invites[i].redeemedBy.value in s.users))
            && s.vaults <= s.users.Keys
            && (forall h | h in s.sessions :: s.sessions[h].deviceId in s.devices)
  {
    hide Counted, DistinctBlobs, AllBacked, Exclusive, CodesAgree, KnownKeys, TicketsSound, OneAdmin, DistinctHandles, Known;
  }

  /**
   * Removing a user forgets the user everywhere but in pairings, which keep naming the user exactly where they did. Such
   * a pairing admits nobody any more.
   */
  lemma RemovalForgets(s: Store, id: Id)
    requires RemoveUser(s, id).1.Done?
    ensures var s' := RemoveUser(s, id).0;
            && id !in s'.users && id !in s'.vaults && DevicesOf(s', id) == {}
            && (forall item | item in s'.items :: item.ownerId != id) && (forall blob | blob in s'.blobs :: blob.ownerId != id)
            && (forall r | r in s'.uploadRequests :: r.userId != id && r.decidedBy != Some(id))
            && (forall i | i in s'.invites :: s'.invites[i].createdBy != id && s'.invites[i].redeemedBy != Some(id))
            && s'.pairings == s.pairings
    ensures forall p, now | p in s.pairings && s.pairings[p].userId == Some(id) :: PairingOptions(RemoveUser(s, id).0, now, p).Err?
  {
    FilterMembers(s.items, (item: Item) => item.ownerId != id);
    FilterMembers(s.blobs, (blob: Blob) => blob.ownerId != id);
    FilterMembers(s.uploadRequests, (r: UploadRequest) => r.userId != id);
    var kept, rows := Filter(s.uploadRequests, (r: UploadRequest) => r.userId != id), RemoveUser(s, id).0.uploadRequests;
    forall k | 0 <= k < |rows| ensures rows[k].userId != id && rows[k].decidedBy != Some(id) {
      assert kept[k] in kept && rows[k] == ForgetDecider(kept[k], id);
    }
  }

  // ---- where the code falls short

  /** A finish that lands after its user was removed still adds a device and session, but the session opens nothing. */
  lemma LateEnrolmentIsInert(s: Store, userId: Id, pairing: Option<Id>, now: int, deviceId: Id, signCount: nat, hash: Id, at: int)
    requires FinishEnroll(s, userId, pairing, true, now, deviceId, signCount, hash).1.Served?
    ensures var s' := FinishEnroll(s, userId, pairing, true, now, deviceId, signCount, hash).0;
            && hash in s'.sessions && deviceId in s'.devices
            && (FindSession(s', hash).Some? <==> userId in s.users)
            && (userId !in s.users ==> RequireCtx(s', hash, at) == Err(Unauthorized))
  {}

  /** The admin as it is once it has a vault and, later, ten bytes in the bucket. */
  function Keeper(used: nat): User { User(ADMIN_HANDLE, Admin, true, true, ADMIN_QUOTA, used, false, false) }

  const CLASH_NOTE := Item(7, Text, ADMIN_ID, 0, None, 1, 0, 50, false)
  const CLASH_FILE := Item(7, File, ADMIN_ID, 0, Some(5), 10, 10, 100, false)
  const CLASH_TICKET := AdminEnroll(CHALLENGE_TTL_MS, ADMIN_ID)

  /** The store of the one enrolled admin, with these items, blobs and bytes. */
  function AdminStore(items: seq<Item>, blobs: seq<Blob>, used: nat): Store {
    Store(map[ADMIN_ID := Keeper(used)], {ADMIN_ID}, map[2 := Device(ADMIN_ID, None, 0, None)],
          map[3 := Session(2, SESSION_SLIDING_MS, 0, 0)], map[], map[], map[], items, blobs, [])
  }

  function ClashBlob(state: BlobState): Blob {
    Blob(5, ADMIN_ID, "k", 10, 2, 0, state, 0, if state.Committed? then Some(10) else None)
  }

  lemma {:induction false} OneMore(start: World, steps: seq<Step>, step: Step)
    requires AdmissibleRun(start, steps) && Admissible(Run(start, steps), step)
    ensures AdmissibleRun(start, steps + [step]) && Run(start, steps + [step]) == Next(Run(start, steps), step)
    decreases |steps|
  {
    hide Next, Admissible;
    if steps == [] {
      assert [] + [step] == [step] && [step][1..] == [];
    } else {
      OneMore(Next(start, steps[0]), steps[1..], step);
      assert (steps + [step])[1..] == steps[1..] + [step] && (steps + [step])[0] == steps[0];
    }
  }

  lemma EnrolAdmin() returns (steps: seq<Step>)
    ensures AdmissibleRun(INITIAL, steps)
    ensures Run(INITIAL, steps) == World(AdminStore([], [], 0).(vaults := {}, users := EMPTY_STORE.users), {CLASH_TICKET}, {1, 2, 3}, {})
  {
    hide Run, AdmissibleRun, Answer;
    var open, finish := OpenAdmin(0, true, ADMIN_ID), Finish(CLASH_TICKET, 0, true, 2, 0, 3);
    steps := Nothing();
    assert DevicesOf(EMPTY_STORE, ADMIN_ID) == {};
    OneMore(INITIAL, steps, open);
    steps := steps + [open];
    var sealed := World(EMPTY_STORE, {CLASH_TICKET}, {1}, {});
    assert Run(INITIAL, steps) == sealed;
    OneMore(INITIAL, steps, finish);
    steps := steps + [finish];
    assert {1} + {2, 3} == {1, 2, 3};
  }

  lemma Nothing() returns (steps: seq<Step>)
    ensures steps == [] && AdmissibleRun(INITIAL, steps) && Run(INITIAL, steps) == INITIAL
  {
    steps := [];
  }

  lemma AdminCtx(s: Store, now: int)
    requires s.sessions == map[3 := Session(2, SESSION_SLIDING_MS, 0, 0)] && s.devices == map[2 := Device(ADMIN_ID, None, 0, None)]
    requires ADMIN_ID in s.users && !s.users[ADMIN_ID].suspended && now < SESSION_SLIDING_MS
    ensures RequireCtx(s, 3, now) == Ok(Ctx(Session(2, SESSION_SLIDING_MS, 0, 0), 2, ADMIN_ID))
  {
  }

  const CLASH_CREATE := NewItem(7, Text, 0, 1, 1, 50)
  const CLASH_COMMIT := CommitRequest(5, 7, File, 0, 0, 100)

  /** The four calls, each served: a vault, a note with item id 7, a pending blob, and its commit under item id 7. */
  lemma ClashCallsAreServed()
    ensures Services.PutVault(AdminStore([], [], 0).(vaults := {}, users := EMPTY_STORE.users), 3, 0) == (AdminStore([], [], 0), Served)
    ensures CreateItemCall(AdminStore([], [], 0), 3, 0, true, CLASH_CREATE) == (AdminStore([CLASH_NOTE], [], 0), Served)
    ensures UploadIntent(AdminStore([CLASH_NOTE], [], 0), 3, 0, true, 10, 2, 5, "k")
            == (AdminStore([CLASH_NOTE], [ClashBlob(Pending)], 0), Served)
    ensures CommitUpload(AdminStore([CLASH_NOTE], [ClashBlob(Pending)], 0), 3, 10, true, CLASH_COMMIT, Some(10))
            == (AdminStore([CLASH_NOTE, CLASH_FILE], [ClashBlob(Committed)], 10), Served)
  {
    var s0 := AdminStore([], [], 0).(vaults := {}, users := EMPTY_STORE.users);
    AdminCtx(s0, 0);
    assert {} + {ADMIN_ID} == {ADMIN_ID} && s0.users[ADMIN_ID := Keeper(0)] == map[ADMIN_ID := Keeper(0)];
    AdminCtx(AdminStore([], [], 0), 0);
    assert [] + [CLASH_NOTE] == [CLASH_NOTE];
    AdminCtx(AdminStore([CLASH_NOTE], [], 0), 0);
    assert [] + [ClashBlob(Pending)] == [ClashBlob(Pending)];
    ClashCommit();
  }

  lemma ClashCommit()
    ensures CommitUpload(AdminStore([CLASH_NOTE], [ClashBlob(Pending)], 0), 3, 10, true, CLASH_COMMIT, Some(10))
            == (AdminStore([CLASH_NOTE, CLASH_FILE], [ClashBlob(Committed)], 10), Served)
  {
    var s := AdminStore([CLASH_NOTE], [ClashBlob(Pending)], 0);
    AdminCtx(s, 10);
    assert s.blobs[0].id == 5 && BlobAt(s, 5) == 0;
    assert UploadTicket(s, 3, 10, true, 5, ToStat) == Ok(("k", 10));
    assert [CLASH_NOTE] + [CLASH_FILE] == [CLASH_NOTE, CLASH_FILE];
    assert s.blobs[0 := ClashBlob(Committed)] == [ClashBlob(Committed)];
    assert s.users[ADMIN_ID := Keeper(10)] == map[ADMIN_ID := Keeper(10)];
  }

  /**
   * `commitBlobAndItem` never looks at item ids: a run from the empty store ends with a note and a file of one item id,
   * the file good until 100. In that reachable, sound world the next prune, at 60, takes the file with the lapsed note.
   */
  lemma SharedIdDiesEarly() returns (steps: seq<Step>)
    ensures AdmissibleRun(INITIAL, steps) && Inv(Run(INITIAL, steps))
    ensures var s := Run(INITIAL, steps).store;
            && s.items == [CLASH_NOTE, CLASH_FILE] && !Lapsed(CLASH_FILE, 60)
            && CLASH_FILE !in Prune(s, 60).items
  {
    hide Run, AdmissibleRun, Inv, Prune, Services.PutVault, CreateItemCall, UploadIntent, CommitUpload;
    steps := EnrolAdmin();
    ClashCallsAreServed();
    steps := ThenCall(steps, Call.PutVault(3, 0));
    steps := ThenCall(steps, Create(3, 0, true, CLASH_CREATE));
    steps := ThenCall(steps, Intent(3, 0, true, 10, 2, 5, "k"));
    steps := ThenCall(steps, Commit(3, 10, true, CLASH_COMMIT, Some(10)));
    ReachableIsSound(steps);
    var s := Run(INITIAL, steps).store;
    assert s.items[0] in s.items && s.items[1] in s.items;
    PruneDropsByItemId(s, 60, CLASH_FILE);
  }

  lemma ThenCall(steps: seq<Step>, call: Call) returns (more: seq<Step>)
    requires AdmissibleRun(INITIAL, steps)
    requires var w := Run(INITIAL, steps); Drawn(call) !! w.issued && WellFormed(call, w.keys)
    ensures AdmissibleRun(INITIAL, more)
    ensures var w := Run(INITIAL, steps);
            Run(INITIAL, more) == World(Answer(w.store, call).0, w.challenges, w.issued + Drawn(call), w.keys + StepKeys(Serve(call)))
  {
    OneMore(INITIAL, steps, Serve(call));
    more := steps + [Serve(call)];
  }

  /** Prune takes an unlapsed item exactly when another item shares its id and has lapsed unpinned. */
  lemma PruneSparesLiveItemsIff(s: Store, now: int, item: Item)
    requires item in s.items && !Lapsed(item, now)
    ensures item !in Prune(s, now).items <==> exists other | other in s.items && other != item && other.id == item.id :: Lapsed(other, now)
  {
    PruneDropsByItemId(s, now, item);
  }
}
