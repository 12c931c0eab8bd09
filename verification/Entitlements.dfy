/** What the rows say about one another across calls: pins follow the admin's switch, quotas follow grants, notes need a vault. */
module Entitlements {
  import opened Wrappers
  import opened Rows
  import opened StoreOps
  import opened Storage
  import opened Server
  import opened Services
  import opened Runs
  import opened Guards
  import opened Effects
  import opened Promises

  /** An item is pinned exactly while its owner preserves notes, which only an admin can. */
  ghost predicate PinsFollow(users: map<Id, User>, items: seq<Item>) {
    && (forall u | u in users :: users[u].preserveNotes ==> users[u].role.Admin?)
    && forall item | item in items && item.ownerId in users :: item.pinned == users[item.ownerId].preserveNotes
  }

  /** An approved request of the user granted exactly this many bytes, between 25 and 100 MiB. */
  ghost predicate HasGrant(requests: seq<UploadRequest>, u: Id, bytes: nat) {
    && 25 * 1_048_576 <= bytes <= 100 * 1_048_576
    && exists r | r in requests :: r.userId == u && r.status.Approved? && r.grantedBytes == Some(bytes)
  }

  /** Nobody uploads or has a quota without a grant, save the admin's first quota. */
  ghost predicate QuotaEarned(u: Id, user: User, requests: seq<UploadRequest>) {
    if user.canUpload then (u == ADMIN_ID && user.quota == 500 * 1_048_576) || HasGrant(requests, u, user.quota) else user.quota == 0
  }

  ghost predicate QuotasFollow(users: map<Id, User>, requests: seq<UploadRequest>) {
    forall u | u in users :: QuotaEarned(u, users[u], requests)
  }

  ghost predicate NotesHaveVaults(users: map<Id, User>, items: seq<Item>) {
    forall item | item in items && (item.kind.Text? || item.kind.Link?) && item.ownerId in users :: users[item.ownerId].hasVault
  }

  ghost predicate Entitled(s: Store) {
    PinsFollow(s.users, s.items) && QuotasFollow(s.users, s.uploadRequests) && NotesHaveVaults(s.users, s.items)
  }

  // ---- each call keeps it

  /** A change of user rows that leaves these fields alone, beside fewer or equal items and all requests. */
  lemma UsersEdited(s: Store, s': Store)
    requires Entitled(s) && s'.uploadRequests == s.uploadRequests && s'.users.Keys == s.users.Keys
    requires forall u | u in s.users ::
               && s'.users[u] == s.users[u].(used := s'.users[u].used, hasVault := s'.users[u].hasVault)
               && (s.users[u].hasVault ==> s'.users[u].hasVault)
    requires forall item | item in s'.items :: item in s.items
    ensures Entitled(s')
  {
    hide HasGrant;
  }

  /** New or rewritten items whose pin and vault fit their owner. */
  lemma ItemsEdited(s: Store, s': Store)
    requires Entitled(s) && s'.uploadRequests == s.uploadRequests && s'.users == s.users
    requires forall item | item in s'.items && item.ownerId in s.users ::
               && item.pinned == s.users[item.ownerId].preserveNotes
               && (item.kind.Text? || item.kind.Link? ==> s.users[item.ownerId].hasVault)
    ensures Entitled(s')
  {
    hide HasGrant;
  }

  lemma GrantsStay(before: seq<UploadRequest>, after: seq<UploadRequest>, u: Id, bytes: nat)
    requires HasGrant(before, u, bytes)
    requires forall i | 0 <= i < |before| && before[i].userId == u && before[i].status.Approved? ::
               exists r | r in after :: r.userId == u && r.status.Approved? && r.grantedBytes == before[i].grantedBytes
    ensures HasGrant(after, u, bytes)
  {
    var r :| r in before && r.userId == u && r.status.Approved? && r.grantedBytes == Some(bytes);
    var i :| 0 <= i < |before| && before[i] == r;
  }

  lemma RemovalEntitled(s: Store, s': Store, id: Id)
    requires Entitled(s) && UserIsGone(s, s', id)
    ensures Entitled(s')
  {
    FilterMembers(s.items, (item: Item) => item.ownerId != id);
    var kept := Filter(s.uploadRequests, (r: UploadRequest) => r.userId != id);
    FilterMembers(s.uploadRequests, (r: UploadRequest) => r.userId != id);
    hide Filter;
    forall u | u in s'.users ensures QuotaEarned(u, s'.users[u], s'.uploadRequests) {
      assert QuotaEarned(u, s.users[u], s.uploadRequests);
      if HasGrant(s.uploadRequests, u, s.users[u].quota) {
        KeptGrant(s.uploadRequests, kept, s'.uploadRequests, u, s.users[u].quota);
      }
    }
  }

  lemma KeptGrant(before: seq<UploadRequest>, kept: seq<UploadRequest>, after: seq<UploadRequest>, u: Id, bytes: nat)
    requires HasGrant(before, u, bytes) && forall r | r in before && r.userId == u :: r in kept
    requires |after| == |kept| && forall k | 0 <= k < |kept| :: after[k] == kept[k].(decidedBy := after[k].decidedBy)
    ensures HasGrant(after, u, bytes)
  {
    var r :| r in before && r.userId == u && r.status.Approved? && r.grantedBytes == Some(bytes);
    var k :| 0 <= k < |kept| && kept[k] == r;
    assert after[k] in after;
  }

  lemma RequestEntitled(s: Store, s': Store, row: UploadRequest)
    requires Entitled(s) && Adds(s.uploadRequests, s'.uploadRequests, row) && s'.users == s.users && s'.items == s.items
    ensures Entitled(s')
  {
    forall u | u in s.users ensures QuotaEarned(u, s.users[u], s'.uploadRequests) {
      assert QuotaEarned(u, s.users[u], s.uploadRequests);
      if HasGrant(s.uploadRequests, u, s.users[u].quota) {
        GrantsStay(s.uploadRequests, s'.uploadRequests, u, s.users[u].quota);
      }
    }
  }

  lemma DecisionEntitled(s: Store, s': Store, i: int, row: UploadRequest, mb: nat)
    requires Entitled(s) && SetsAt(s.uploadRequests, s'.uploadRequests, i, row) && s'.items == s.items
    requires s.uploadRequests[i].status.Waiting? && row.userId == s.uploadRequests[i].userId
    requires if row.status.Approved? && row.userId in s.users
             then Sets(s.users, s'.users, row.userId, s.users[row.userId].(canUpload := true, quota := mb * 1_048_576))
                  && row.grantedBytes == Some(mb * 1_048_576) && 25 <= mb <= 100
             else s'.users == s.users
    ensures Entitled(s')
  {
    assert s'.uploadRequests[i] in s'.uploadRequests;
    forall u | u in s'.users ensures QuotaEarned(u, s'.users[u], s'.uploadRequests) {
      if u == row.userId && row.status.Approved? {
        assert HasGrant(s'.uploadRequests, u, s'.users[u].quota);
      } else {
        assert QuotaEarned(u, s.users[u], s.uploadRequests);
        if HasGrant(s.uploadRequests, u, s.users[u].quota) {
          GrantsStay(s.uploadRequests, s'.uploadRequests, u, s.users[u].quota);
        }
      }
    }
  }

  lemma PreserveEntitled(s: Store, s': Store, call: Call)
    requires Entitled(s) && call.Preserve? && ItemEffect(s, s', call) && s'.uploadRequests == s.uploadRequests
    requires s.users[Self(s, call.token)].role.Admin?
    ensures Entitled(s')
  {
    hide HasGrant;
    forall item | item in s'.items && item.ownerId in s'.users
      ensures item.pinned == s'.users[item.ownerId].preserveNotes
      ensures item.kind.Text? || item.kind.Link? ==> s'.users[item.ownerId].hasVault {
      var i :| 0 <= i < |s'.items| && s'.items[i] == item;
      assert s.items[i] in s.items;
    }
  }

  /** What the demands of these calls come to. */
  lemma DemandsMet(s: Store, call: Call)
    requires Demands(s, call).Served?
    ensures call.Create? || call.Update? ==> SelfIs(s, call.token, (user: User) => user.hasVault)
    ensures call.Preserve? ==> SelfIs(s, call.token, (user: User) => user.role.Admin?)
    ensures call.Decide? ==> (call.approved ==> 25 <= call.grantedMb <= 100)
                             && forall i | FirstRequest(s.uploadRequests, call.id, i) :: s.uploadRequests[i].status.Waiting?
  {
    hide LiveSession, Removable, LiveNote, FirstItem, FirstOwn, FirstBlob, FirstRequest, LeadsNowhere;
  }

  lemma NoteEntitled(s: Store, s': Store, call: Call)
    requires Entitled(s) && ItemEffect(s, s', call) && (call.Create? || call.Update?)
    requires s'.users == s.users && s'.uploadRequests == s.uploadRequests && SelfIs(s, call.token, (user: User) => user.hasVault)
    ensures Entitled(s')
  {
    hide HasGrant, QuotasFollow;
    forall item | item in s'.items && item.ownerId in s.users
      ensures item.pinned == s.users[item.ownerId].preserveNotes
      ensures item.kind.Text? || item.kind.Link? ==> s.users[item.ownerId].hasVault {
      var k :| 0 <= k < |s'.items| && s'.items[k] == item;
      if k < |s.items| {
        assert s.items[k] in s.items;
      }
    }
    hide ItemEffect;
    ItemsEdited(s, s');
  }

  lemma ItemEntitled(s: Store, s': Store, call: Call)
    requires Entitled(s) && ItemEffect(s, s', call) && (call.Delete? || call.ResetExpiry?)
    requires s'.users == s.users && s'.uploadRequests == s.uploadRequests
    ensures Entitled(s')
  {
    hide HasGrant, QuotasFollow;
    if call.ResetExpiry? {
      forall item | item in s'.items ensures exists was | was in s.items :: item == was.(expiresAt := item.expiresAt) {
        var k :| 0 <= k < |s'.items| && s'.items[k] == item;
        assert s.items[k] in s.items;
      }
    }
    hide ItemEffect;
    ItemsEdited(s, s');
  }

  lemma DecideEntitled(s: Store, s': Store, call: Call)
    requires Entitled(s) && call.Decide? && UploadEffect(s, s', call) && Demands(s, call).Served? && s'.items == s.items
    ensures Entitled(s')
  {
    DemandsMet(s, call);
    hide Demands, Entitled;
    var i :| FirstRequest(s.uploadRequests, call.id, i)
      && SetsAt(s.uploadRequests, s'.uploadRequests, i, Decided(s, call, i))
      && (if call.approved && s.uploadRequests[i].userId in s.users
          then Sets(s.users, s'.users, s.uploadRequests[i].userId,
                    s.users[s.uploadRequests[i].userId].(canUpload := true, quota := call.grantedMb * 1_048_576))
          else s'.users == s.users);
    hide UploadEffect, SetsAt, Sets, FirstRequest;
    DecisionEntitled(s, s', i, Decided(s, call, i), call.grantedMb);
  }

  /** The row a decision leaves. */
  function Decided(s: Store, call: Call, i: int): UploadRequest
    requires call.Decide? && 0 <= i < |s.uploadRequests|
  {
    s.uploadRequests[i].(status := if call.approved then Approved else Denied, decidedBy := Some(Self(s, call.token)),
                         grantedBytes := if call.approved then Some(call.grantedMb * 1_048_576) else None)
  }

  lemma CommitEntitled(s: Store, s': Store, call: Call)
    requires Entitled(s) && call.Commit? && !IsNote(call.c.kind) && UploadEffect(s, s', call) && s'.uploadRequests == s.uploadRequests
    ensures Entitled(s')
  {
    var s1 := s.(users := s'.users, items := s.items);
    hide HasGrant, FirstBlob;
    UsersEdited(s, s1);
    hide QuotasFollow;
    forall item | item in s'.items && item.ownerId in s1.users
      ensures item.pinned == s1.users[item.ownerId].preserveNotes
      ensures item.kind.Text? || item.kind.Link? ==> s1.users[item.ownerId].hasVault {
      var k :| 0 <= k < |s'.items| && s'.items[k] == item;
      if k < |s.items| {
        assert s.items[k] in s.items;
      }
    }
    hide UploadEffect, Entitled;
    ItemsEdited(s1, s');
  }

  lemma SweepEntitled(s: Store, now: int)
    requires Entitled(s)
    ensures Entitled(Prune(s, now))
  {
    PruneLeaves(s, now);
    FilterMembers(s.items, Spared(s.items, now));
    hide Prune, Filter, Spared, Entitled, KeepsOnly;
    UsersEdited(s, Prune(s, now));
  }

  lemma VaultEntitled(s: Store, s': Store, call: Call)
    requires Entitled(s) && call.PutVault? && Effect(s, s', call)
    ensures Entitled(s')
  {
    assert s'.items == s.items && s'.uploadRequests == s.uploadRequests;
    hide OnlyChanges, Entitled, Self;
    UsersEdited(s, s');
  }

  lemma UntouchedEntitled(s: Store, s': Store, call: Call)
    requires Entitled(s) && OnlyChanges(s, s', Parts(call)) && Users !in Parts(call) && Items !in Parts(call) && Requests !in Parts(call)
    ensures Entitled(s')
  {
    hide Parts, QuotasFollow, PinsFollow, NotesHaveVaults;
  }

  lemma EffectEntitled(s: Store, s': Store, call: Call)
    requires Entitled(s) && Effect(s, s', call) && Demands(s, call).Served? && (call.Commit? ==> !IsNote(call.c.kind))
    requires !call.Sweep? && !call.Remove? && !call.Leave? && !call.Request?
    ensures Entitled(s')
  {
    Untouched(s, s', call);
    DemandsMet(s, call);
    hide Demands, Entitled, AccountEffect, ItemEffect, UploadEffect, OnlyChanges;
    if call.Create? || call.Update? {
      NoteEntitled(s, s', call);
    } else if call.Delete? || call.ResetExpiry? {
      ItemEntitled(s, s', call);
    } else if call.Preserve? {
      PreserveEntitled(s, s', call);
    } else if call.Decide? {
      DecideEntitled(s, s', call);
    } else if call.Commit? {
      CommitEntitled(s, s', call);
    } else if call.PutVault? {
      VaultEntitled(s, s', call);
    } else {
      UntouchedEntitled(s, s', call);
    }
  }

  lemma CallEntitled(w: World, call: Call)
    requires Inv(w) && Entitled(w.store) && WellFormed(call, w.keys)
    ensures Entitled(Answer(w.store, call).0)
  {
    CallsDoAsDemanded(w, call);
    hide Inv, Answer, Demands, Entitled, Effect;
    if Answer(w.store, call).0 != w.store {
      if call.Sweep? || call.Remove? || call.Leave? || call.Request? {
        RestEntitled(w, call);
      } else {
        EffectEntitled(w.store, Answer(w.store, call).0, call);
      }
    }
  }

  lemma Untouched(s: Store, s': Store, call: Call)
    requires OnlyChanges(s, s', Parts(call))
    ensures Users !in Parts(call) ==> s'.users == s.users
    ensures Items !in Parts(call) ==> s'.items == s.items
    ensures Requests !in Parts(call) ==> s'.uploadRequests == s.uploadRequests
  {
    hide Parts;
  }

  lemma RestEntitled(w: World, call: Call)
    requires Inv(w) && Entitled(w.store) && Effect(w.store, Answer(w.store, call).0, call)
    requires call.Sweep? || call.Remove? || call.Leave? || call.Request?
    ensures Entitled(Answer(w.store, call).0)
  {
    var s, s' := w.store, Answer(w.store, call).0;
    if call.Sweep? {
      SweepEntitled(s, call.now);
    } else if call.Request? {
      assert s'.users == s.users && s'.items == s.items;
      hide Entitled, Answer, Inv, OnlyChanges, Adds;
      RequestEntitled(s, s', UploadRequest(call.id, Self(s, call.token), Waiting, None, None));
    } else {
      hide Entitled, Answer, Inv, OnlyChanges, UserIsGone;
      RemovalEntitled(s, s', if call.Remove? then call.userId else Self(s, call.token));
    }
  }

  lemma FinishEntitled(w: World, step: Step)
    requires Inv(w) && Entitled(w.store) && Admissible(w, step) && step.Finish?
    ensures Entitled(Next(w, step).store)
  {
    var s, s' := w.store, Next(w, step).store;
    EnrolmentChanges(w, step);
    OwnersExist(w);
    hide Inv, Next, Admissible, FinishDemands, Entitled, FinishEffect;
    if FinishDemands(s, step).Served? {
      FinishedEntitled(s, s', step);
    }
  }

  lemma FinishedEntitled(s: Store, s': Store, step: Step)
    requires Entitled(s) && step.Finish? && FinishEffect(s, s', step) && (step.c.Register? ==> step.c.userId !in s.users)
    requires forall item | item in s.items :: item.ownerId in s.users
    ensures Entitled(s')
  {
    assert s'.items == s.items && s'.uploadRequests == s.uploadRequests && (step.c.Register? || s'.users == s.users);
    hide HasGrant, OnlyChanges;
  }

  lemma OwnersExist(w: World)
    requires Inv(w)
    ensures forall item | item in w.store.items :: item.ownerId in w.store.users
  {
    hide Counted, DistinctBlobs, AllBacked, Exclusive, CleanUsers, LiveSessions, CleanInvites;
    hide CodesAgree, CleanRequests, KnownKeys, TicketsSound;
  }

  lemma StepEntitled(w: World, step: Step)
    requires Inv(w) && Entitled(w.store) && Admissible(w, step)
    ensures Entitled(Next(w, step).store)
  {
    hide Inv, Entitled, Answer, Enrolled, Opened;
    match step
    case Serve(call) => CallEntitled(w, call);
    case Finish(_, _, _, _, _, _) => FinishEntitled(w, step);
    case _ =>
  }

  lemma {:induction false} RunEntitled(w: World, steps: seq<Step>)
    requires Inv(w) && Entitled(w.store) && AdmissibleRun(w, steps)
    ensures Entitled(Run(w, steps).store)
    decreases |steps|
  {
    hide Inv, Entitled, Admissible, Next;
    if steps != [] {
      StepFine(w, steps[0]);
      StepEntitled(w, steps[0]);
      RunEntitled(Next(w, steps[0]), steps[1..]);
    }
  }

  /**
   * In every reachable store: an item is pinned exactly while its owner preserves notes; nobody uploads without a granted
   * request, whose bytes, 25 to 100 MiB, are the quota, save the admin's first quota; and notes belong to users with a vault.
   */
  lemma ReachableIsEntitled(steps: seq<Step>)
    requires AdmissibleRun(INITIAL, steps)
    ensures var s := Run(INITIAL, steps).store;
            PinsFollow(s.users, s.items) && QuotasFollow(s.users, s.uploadRequests) && NotesHaveVaults(s.users, s.items)
  {
    InitialIsFine();
    RunEntitled(INITIAL, steps);
  }

  /** So while the admin preserves notes no prune takes any of the admin's items, unless another user's lapsed item shares its id. */
  lemma PreservedItemsStay(steps: seq<Step>, now: int, item: Item)
    requires AdmissibleRun(INITIAL, steps)
    requires var s := Run(INITIAL, steps).store;
             item in s.items && ADMIN_ID in s.users && item.ownerId == ADMIN_ID && s.users[ADMIN_ID].preserveNotes
    ensures var s := Run(INITIAL, steps).store;
            item in Prune(s, now).items
            <==> forall other | other in s.items && other.id == item.id && other.ownerId != ADMIN_ID :: now < other.expiresAt
  {
    var w := Run(INITIAL, steps);
    ReachableIsEntitled(steps);
    ReachableIsSound(steps);
    OwnersExist(w);
    PruneDropsByItemId(w.store, now, item);
    OnlyAdmin(w);
    hide Inv, Run, AdmissibleRun, Prune, QuotasFollow, NotesHaveVaults;
  }

  lemma OnlyAdmin(w: World)
    requires Inv(w)
    ensures forall u | u in w.store.users && w.store.users[u].role.Admin? :: u == ADMIN_ID
  {
    hide StorageInv, LiveSessions, CleanInvites, CodesAgree, CleanRequests, KnownKeys, TicketsSound;
  }
}
