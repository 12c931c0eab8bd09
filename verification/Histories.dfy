/** Where every challenge, device and session of a reachable store comes from: each was earned at some earlier step of the run. */
module Histories {
  import opened Wrappers
  import opened Rows
  import opened StoreOps
  import opened Storage
  import opened Server
  import opened Services
  import opened Runs
  import opened Guards
  import opened Effects
  import opened Promises

  /** The store as it was before step k. */
  ghost function Before(steps: seq<Step>, k: int): Store
    requires 0 <= k <= |steps|
  {
    Run(INITIAL, steps[..k]).store
  }

  lemma {:induction false} LastStep(w: World, steps: seq<Step>)
    requires AdmissibleRun(w, steps) && steps != []
    ensures var n := |steps| - 1;
            && AdmissibleRun(w, steps[..n]) && Admissible(Run(w, steps[..n]), steps[n])
            && Run(w, steps) == Next(Run(w, steps[..n]), steps[n])
    decreases |steps|
  {
    hide Next, Admissible;
    var n := |steps| - 1;
    if n == 0 {
      assert steps[..0] == [] && steps[1..] == [];
    } else {
      LastStep(Next(w, steps[0]), steps[1..]);
      assert steps[..n][1..] == steps[1..][..n - 1] && steps[..n][0] == steps[0];
    }
  }

  // ---- what earns what

  /** Step k let this challenge be sealed, on demands that were met then. */
  ghost predicate SealedAt(steps: seq<Step>, k: int, c: Challenge) {
    && 0 <= k < |steps| && !steps[k].Serve? && !steps[k].Finish?
    && OpenDemands(Before(steps, k), steps[k]).Served? && SealedAs(Before(steps, k), steps[k], c)
  }

  /** At step k a signed-in user posted a wrap on a pairing that waited for one. */
  ghost predicate WrappedAt(steps: seq<Step>, k: int, p: Id, u: Id) {
    && 0 <= k < |steps| && steps[k].Serve? && steps[k].call.PostWrap? && steps[k].call.id == p
    && var s, call := Before(steps, k), steps[k].call;
    SignedIn(s, call.token, call.now, u) && p in s.pairings && s.pairings[p].wrap.None? && call.now < s.pairings[p].expiresAt
  }

  /** At step k the authenticator vouched for the new device of the user whose challenge was spent in time. */
  ghost predicate EnrolledAt(steps: seq<Step>, k: int, d: Id, u: Id) {
    && 0 <= k < |steps| && steps[k].Finish? && steps[k].deviceId == d && steps[k].c.userId == u
    && steps[k].verified && steps[k].now < steps[k].c.exp && steps[k].c in Run(INITIAL, steps[..k]).challenges
  }

  /** A device that may log in: known, unrevoked, its user there and not suspended. */
  predicate Welcome(s: Store, d: Id) {
    d in s.devices && s.devices[d].revokedAt.None? && s.devices[d].userId in s.users && !s.users[s.devices[d].userId].suspended
  }

  /** At step k the authenticator vouched for the device, at a login it was welcome at or when it was enrolled. */
  ghost predicate VouchedAt(steps: seq<Step>, k: int, h: Id, d: Id) {
    && 0 <= k < |steps|
    && ((steps[k].Finish? && steps[k].verified && steps[k].deviceId == d && steps[k].hash == h)
        || (steps[k].Serve? && steps[k].call.LogIn? && steps[k].call.verified && steps[k].call.deviceId == d && steps[k].call.hash == h
            && Welcome(Before(steps, k), d)))
  }

  // ---- one step more

  lemma Earlier(steps: seq<Step>, n: nat)
    requires n <= |steps|
    ensures forall k | 0 <= k <= n :: steps[..n][..k] == steps[..k]
  {
  }

  lemma SealsStay(steps: seq<Step>, n: nat, k: int, c: Challenge)
    requires n <= |steps| && SealedAt(steps[..n], k, c)
    ensures SealedAt(steps, k, c)
  {
    Earlier(steps, n);
  }

  lemma WrapsStay(steps: seq<Step>, n: nat, k: int, p: Id, u: Id)
    requires n <= |steps| && WrappedAt(steps[..n], k, p, u)
    ensures WrappedAt(steps, k, p, u)
  {
    Earlier(steps, n);
  }

  lemma EnrolmentsStay(steps: seq<Step>, n: nat, k: int, d: Id, u: Id)
    requires n <= |steps| && EnrolledAt(steps[..n], k, d, u)
    ensures EnrolledAt(steps, k, d, u)
  {
    Earlier(steps, n);
  }

  lemma VouchesStay(steps: seq<Step>, n: nat, k: int, h: Id, d: Id)
    requires n <= |steps| && VouchedAt(steps[..n], k, h, d)
    ensures VouchedAt(steps, k, h, d)
  {
    Earlier(steps, n);
  }

  lemma ReachableHashes(steps: seq<Step>)
    requires AdmissibleRun(INITIAL, steps)
    ensures DistinctHashes(Run(INITIAL, steps).store) && Inv(Run(INITIAL, steps))
  {
    ReachableIsSound(steps);
    hide StorageInv, CleanUsers, LiveSessions, CodesAgree, CleanRequests;
  }

  /** Every challenge was sealed at a step whose demands were met. */
  lemma {:induction false} ChallengesAreEarned(steps: seq<Step>, c: Challenge)
    requires AdmissibleRun(INITIAL, steps) && c in Run(INITIAL, steps).challenges
    ensures exists k :: SealedAt(steps, k, c)
    decreases |steps|
  {
    hide Inv, Answer, Enrolled, Admissible;
    if steps != [] {
      var n := |steps| - 1;
      LastStep(INITIAL, steps);
      if c in Run(INITIAL, steps[..n]).challenges {
        ChallengesAreEarned(steps[..n], c);
        var k :| SealedAt(steps[..n], k, c);
        SealsStay(steps, n, k, c);
      } else {
        ReachableHashes(steps[..n]);
        OpensByTable(Before(steps, n), steps[n]);
        assert SealedAt(steps, n, c);
      }
    }
  }

  // ---- what one step can bring in

  lemma StaysPut(w: World, call: Call)
    requires Inv(w)
    ensures OnlyChanges(w.store, Answer(w.store, call).0, Parts(call))
  {
    CallsDoAsDemanded(w, call);
    hide Inv, Answer, Demands, AccountEffect, ItemEffect, UploadEffect, Parts;
  }

  lemma AccountsDo(w: World, call: Call)
    requires Inv(w)
    ensures var s' := Answer(w.store, call).0; s' == w.store || (AccountEffect(w.store, s', call) && AccountDemands(w.store, call).Served?)
  {
    CallsDoAsDemanded(w, call);
    hide Inv, Answer, AccountDemands, ItemDemands, UploadDemands, AccountEffect, ItemEffect, UploadEffect, OnlyChanges;
  }

  /** No call brings in a device or changes whose it is. */
  lemma DevicesOfCall(w: World, call: Call, d: Id)
    requires Inv(w) && d in Answer(w.store, call).0.devices
    ensures d in w.store.devices && Answer(w.store, call).0.devices[d].userId == w.store.devices[d].userId
  {
    StaysPut(w, call);
    if Devices in Parts(call) {
      AccountsDo(w, call);
      if Answer(w.store, call).0 != w.store {
        SameDevices(w.store, Answer(w.store, call).0, call, d);
      }
    }
    hide Inv, Answer, AccountDemands, AccountEffect, Parts;
  }

  lemma SameDevices(s: Store, s': Store, call: Call, d: Id)
    requires AccountEffect(s, s', call) && Devices in Parts(call) && d in s'.devices
    ensures d in s.devices && s'.devices[d].userId == s.devices[d].userId
  {
    hide Filter, Self;
  }

  /** A login that was vouched for is the only call that brings in a session. */
  lemma SessionsOfCall(w: World, call: Call, h: Id)
    requires Inv(w) && h in Answer(w.store, call).0.sessions
    ensures var row := Answer(w.store, call).0.sessions[h];
            || (h in w.store.sessions && w.store.sessions[h].deviceId == row.deviceId)
            || (call.LogIn? && call.verified && call.deviceId == row.deviceId && call.hash == h && Welcome(w.store, row.deviceId))
  {
    StaysPut(w, call);
    if call.Sweep? {
      SweptStore(w.store, call);
    } else if Sessions in Parts(call) {
      AccountsDo(w, call);
      if Answer(w.store, call).0 != w.store {
        SameSessions(w.store, Answer(w.store, call).0, call, h);
      }
    }
    hide Inv, Answer, AccountDemands, AccountEffect, Welcome;
  }

  lemma SameSessions(s: Store, s': Store, call: Call, h: Id)
    requires AccountEffect(s, s', call) && AccountDemands(s, call).Served? && Sessions in Parts(call) && !call.Sweep? && h in s'.sessions
    ensures var row := s'.sessions[h];
            || (h in s.sessions && s.sessions[h].deviceId == row.deviceId)
            || (call.LogIn? && call.verified && call.deviceId == row.deviceId && call.hash == h && Welcome(s, row.deviceId))
  {
    hide Filter, Self, LiveSession, LiveAdmin, Removable;
    if !call.LogIn? {
      hide AccountDemands;
    }
  }

  /** Only posting a wrap gives a pairing a user, and it gives it the caller. */
  lemma PairingsOfCall(w: World, call: Call, p: Id)
    requires Inv(w) && p in Answer(w.store, call).0.pairings && Answer(w.store, call).0.pairings[p].userId.Some?
    ensures var u := Answer(w.store, call).0.pairings[p].userId.value;
            || (p in w.store.pairings && w.store.pairings[p].userId == Some(u))
            || (call.PostWrap? && call.id == p && SignedIn(w.store, call.token, call.now, u)
                && p in w.store.pairings && w.store.pairings[p].wrap.None? && call.now < w.store.pairings[p].expiresAt)
  {
    if call.Sweep? {
      SweptStore(w.store, call);
      hide Answer;
    } else if call.StartPairing? || call.PostWrap? {
      WrapBrings(w, call, p);
      hide Answer;
    } else {
      StaysPut(w, call);
      hide Answer;
      PairingsStay(w.store, Answer(w.store, call).0, call);
    }
    hide Inv, SignedIn, OnlyChanges;
  }

  lemma PairingsStay(s: Store, s': Store, call: Call)
    requires OnlyChanges(s, s', Parts(call)) && !call.Sweep? && !call.StartPairing? && !call.PostWrap?
    ensures s'.pairings == s.pairings
  {
  }

  lemma WrapBrings(w: World, call: Call, p: Id)
    requires Inv(w) && (call.StartPairing? || call.PostWrap?)
    requires p in Answer(w.store, call).0.pairings && Answer(w.store, call).0.pairings[p].userId.Some?
    ensures var u := Answer(w.store, call).0.pairings[p].userId.value;
            || (p in w.store.pairings && w.store.pairings[p].userId == Some(u))
            || (call.PostWrap? && call.id == p && SignedIn(w.store, call.token, call.now, u)
                && p in w.store.pairings && w.store.pairings[p].wrap.None? && call.now < w.store.pairings[p].expiresAt)
  {
    WrapsDo(w, call);
    if Answer(w.store, call).0 != w.store {
      SamePairings(w.store, Answer(w.store, call).0, call, p);
    }
    hide Inv, Answer, SignedIn, ItemEffect, Self;
  }

  lemma SamePairings(s: Store, s': Store, call: Call, p: Id)
    requires ItemEffect(s, s', call) && (call.StartPairing? || call.PostWrap?) && p in s'.pairings && s'.pairings[p].userId.Some?
    ensures || (p in s.pairings && s.pairings[p].userId == s'.pairings[p].userId)
            || (call.PostWrap? && call.id == p && s'.pairings[p].userId == Some(Self(s, call.token)))
  {
    hide LeadsNowhere, Self;
  }

  lemma WrapsDo(w: World, call: Call)
    requires Inv(w) && (call.StartPairing? || call.PostWrap?)
    ensures var s' := Answer(w.store, call).0;
            || s' == w.store
            || (ItemEffect(w.store, s', call)
                && (call.PostWrap? ==> SignedIn(w.store, call.token, call.now, Self(w.store, call.token))
                                       && call.id in w.store.pairings && w.store.pairings[call.id].wrap.None?
                                       && call.now < w.store.pairings[call.id].expiresAt))
  {
    CallsDoAsDemanded(w, call);
    if call.PostWrap? {
      SessionByRows(w.store, call.token, call.now);
      if Demands(w.store, call).Served? {
        WrapDemands(w.store, call);
      }
    }
    hide Inv, Answer, Demands, ItemEffect, AccountEffect, UploadEffect, OnlyChanges;
    hide SignedIn, Self, LiveSession, LiveAdmin, RequireCtx, RequireAdmin;
  }

  lemma WrapDemands(s: Store, call: Call)
    requires call.PostWrap? && Demands(s, call).Served?
    ensures LiveSession(s, call.token, call.now).Served?
    ensures call.id in s.pairings && s.pairings[call.id].wrap.None? && call.now < s.pairings[call.id].expiresAt
  {
    hide LiveSession;
  }

  lemma SweptStore(s: Store, call: Call)
    requires call.Sweep?
    ensures var s' := Answer(s, call).0;
            && s'.devices == s.devices
            && (forall h | h in s'.sessions :: h in s.sessions && s'.sessions[h] == s.sessions[h])
            && (forall p | p in s'.pairings :: p in s.pairings && s'.pairings[p] == s.pairings[p])
  {
    PruneLeaves(s, call.now);
    assert Answer(s, call).0 == Prune(s, call.now);
    hide Answer, Prune, Filter, Spared;
  }

  /** An enrolment brings in one device and one session, vouched for and within its challenge's time. */
  lemma RowsOfFinish(w: World, step: Step)
    requires Inv(w) && Admissible(w, step) && step.Finish?
    ensures var s, s' := w.store, Next(w, step).store;
            && (forall d | d in s'.devices ::
                  || (d in s.devices && s'.devices[d].userId == s.devices[d].userId)
                  || (d == step.deviceId && s'.devices[d].userId == step.c.userId && step.verified && step.now < step.c.exp))
            && (forall h | h in s'.sessions ::
                  || (h in s.sessions && s'.sessions[h] == s.sessions[h])
                  || (h == step.hash && s'.sessions[h].deviceId == step.deviceId && step.verified))
            && (forall p | p in s'.pairings :: p in s.pairings && s'.pairings[p] == s.pairings[p])
  {
    EnrolmentChanges(w, step);
    VouchedInTime(w.store, step);
    if FinishDemands(w.store, step).Served? {
      RowsOfEffect(w.store, Next(w, step).store, step);
    }
    hide Inv, Enrolled, Answer, Opened, InviteOpen, Admissible, Next, FinishDemands, FinishEffect;
  }

  lemma RowsOfEffect(s: Store, s': Store, step: Step)
    requires step.Finish? && FinishEffect(s, s', step)
    ensures forall d | d in s'.devices ::
              (d in s.devices && s'.devices[d] == s.devices[d]) || (d == step.deviceId && s'.devices[d].userId == step.c.userId)
    ensures forall h | h in s'.sessions ::
              (h in s.sessions && s'.sessions[h] == s.sessions[h]) || (h == step.hash && s'.sessions[h].deviceId == step.deviceId)
    ensures forall p | p in s'.pairings :: p in s.pairings && s'.pairings[p] == s.pairings[p]
  {
  }

  lemma VouchedInTime(s: Store, step: Step)
    requires step.Finish?
    ensures FinishDemands(s, step).Served? ==> step.verified && step.now < step.c.exp
  {
    hide InviteOpen;
  }

  // ---- everything was earned

  /** The user of a pairing is whoever posted its wrap. */
  lemma {:induction false} WrapsAreEarned(steps: seq<Step>, p: Id)
    requires AdmissibleRun(INITIAL, steps) && p in Run(INITIAL, steps).store.pairings
    requires Run(INITIAL, steps).store.pairings[p].userId.Some?
    ensures exists k :: WrappedAt(steps, k, p, Run(INITIAL, steps).store.pairings[p].userId.value)
    decreases |steps|
  {
    hide Inv, Answer, Enrolled, Admissible;
    if steps != [] {
      var n := |steps| - 1;
      LastStep(INITIAL, steps);
      ReachableHashes(steps[..n]);
      var w, u := Run(INITIAL, steps[..n]), Run(INITIAL, steps).store.pairings[p].userId.value;
      if steps[n].Serve? {
        PairingsOfCall(w, steps[n].call, p);
      } else if steps[n].Finish? {
        RowsOfFinish(w, steps[n]);
      }
      if p in w.store.pairings && w.store.pairings[p].userId == Some(u) {
        WrapsAreEarned(steps[..n], p);
        var k :| WrappedAt(steps[..n], k, p, u);
        WrapsStay(steps, n, k, p, u);
      } else {
        assert WrappedAt(steps, n, p, u);
      }
    }
  }

  /** Every device was enrolled, by its user, with the authenticator's word and a sealed challenge in time. */
  lemma {:induction false} DevicesAreEarned(steps: seq<Step>, d: Id)
    requires AdmissibleRun(INITIAL, steps) && d in Run(INITIAL, steps).store.devices
    ensures exists k :: EnrolledAt(steps, k, d, Run(INITIAL, steps).store.devices[d].userId)
    decreases |steps|
  {
    hide Inv, Answer, Enrolled;
    if steps != [] {
      var n := |steps| - 1;
      LastStep(INITIAL, steps);
      ReachableHashes(steps[..n]);
      var w, u := Run(INITIAL, steps[..n]), Run(INITIAL, steps).store.devices[d].userId;
      if steps[n].Serve? {
        DevicesOfCall(w, steps[n].call, d);
      } else if steps[n].Finish? {
        RowsOfFinish(w, steps[n]);
      }
      if d in w.store.devices && w.store.devices[d].userId == u {
        DevicesAreEarned(steps[..n], d);
        var k :| EnrolledAt(steps[..n], k, d, u);
        EnrolmentsStay(steps, n, k, d, u);
      } else {
        assert EnrolledAt(steps, n, d, u);
      }
    }
  }

  /** Every session was vouched for by the authenticator of its device. */
  lemma {:induction false} SessionsAreEarned(steps: seq<Step>, h: Id)
    requires AdmissibleRun(INITIAL, steps) && h in Run(INITIAL, steps).store.sessions
    ensures exists k :: VouchedAt(steps, k, h, Run(INITIAL, steps).store.sessions[h].deviceId)
    decreases |steps|
  {
    hide Inv, Answer, Enrolled;
    if steps != [] {
      var n := |steps| - 1;
      LastStep(INITIAL, steps);
      ReachableHashes(steps[..n]);
      var w, d := Run(INITIAL, steps[..n]), Run(INITIAL, steps).store.sessions[h].deviceId;
      if steps[n].Serve? {
        SessionsOfCall(w, steps[n].call, h);
      } else if steps[n].Finish? {
        RowsOfFinish(w, steps[n]);
      }
      if h in w.store.sessions && w.store.sessions[h].deviceId == d {
        SessionsAreEarned(steps[..n], h);
        var k :| VouchedAt(steps[..n], k, h, d);
        VouchesStay(steps, n, k, h, d);
      } else {
        assert VouchedAt(steps, n, h, d);
      }
    }
  }

  lemma {:induction false} EarlierRun(w: World, steps: seq<Step>, n: nat)
    requires AdmissibleRun(w, steps) && n <= |steps|
    ensures AdmissibleRun(w, steps[..n])
    decreases |steps|
  {
    hide Next, Admissible;
    if n > 0 {
      EarlierRun(Next(w, steps[0]), steps[1..], n - 1);
      assert steps[..n][1..] == steps[1..][..n - 1];
    }
  }

  /** The whole way of a device to its user: sealed at step i, spent at step k, and through a pairing only after its wrap. */
  ghost predicate Admitted(steps: seq<Step>, d: Id, u: Id, i: int, k: int) {
    && 0 <= i < k && EnrolledAt(steps, k, d, u) && SealedAt(steps, i, steps[k].c)
    && (steps[k].c.PairingEnroll? ==> exists m | 0 <= m < i :: WrappedAt(steps, m, steps[k].c.pairingId, u))
  }

  lemma DevicesWereAdmitted(steps: seq<Step>, d: Id)
    requires AdmissibleRun(INITIAL, steps) && d in Run(INITIAL, steps).store.devices
    ensures exists i, k :: Admitted(steps, d, Run(INITIAL, steps).store.devices[d].userId, i, k)
  {
    hide Run, AdmissibleRun, OpenDemands;
    var u := Run(INITIAL, steps).store.devices[d].userId;
    DevicesAreEarned(steps, d);
    var k :| EnrolledAt(steps, k, d, u);
    var c := steps[k].c;
    EarlierRun(INITIAL, steps, k);
    ChallengesAreEarned(steps[..k], c);
    var i :| SealedAt(steps[..k], i, c);
    SealsStay(steps, k, i, c);
    if c.PairingEnroll? {
      EarlierRun(INITIAL, steps, i);
      WrapsAreEarned(steps[..i], c.pairingId);
      var m :| WrappedAt(steps[..i], m, c.pairingId, u);
      WrapsStay(steps, i, m, c.pairingId, u);
    }
    assert Admitted(steps, d, u, i, k);
  }

  /**
   * Access is earned. Whoever a token is accepted for, in any reachable store: an authenticator vouched for that very
   * session of the device, and the device was admitted to that user by a challenge whose demands were met when it was
   * sealed: an open invite, the admin's secret before the first device, the user's own wrap on the pairing, or the recovery
   * proof.
   */
  lemma AccessIsEarned(steps: seq<Step>, token: Id, now: int)
    requires AdmissibleRun(INITIAL, steps) && RequireCtx(Run(INITIAL, steps).store, token, now).Ok?
    ensures var ctx := RequireCtx(Run(INITIAL, steps).store, token, now).value;
            && (exists j :: VouchedAt(steps, j, token, ctx.deviceId))
            && (exists i, k :: Admitted(steps, ctx.deviceId, ctx.userId, i, k))
  {
    hide Run, AdmissibleRun;
    SessionsAreEarned(steps, token);
    DevicesWereAdmitted(steps, Run(INITIAL, steps).store.sessions[token].deviceId);
  }
}
