/** What is final: a revoked device, a spent or withdrawn invite and a removed user stay out for good. */
module Finality {
  import opened Wrappers
  import opened Rows
  import opened StoreOps
  import opened Storage
  import opened Server
  import opened Services
  import opened Runs
  import opened Guards
  import opened Effects
  import opened Promises

  // ---- devices

  /** Revoking is for good: from the served call on no token of the device is accepted and no login of it served. */
  lemma RevokedForGood(w: World, call: Call, steps: seq<Step>, token: Id, login: Call)
    requires Inv(w) && Admissible(w, Serve(call)) && call.Revoke? && Answer(w.store, call).1.Served?
    requires AdmissibleRun(Next(w, Serve(call)), steps) && login.LogIn? && login.deviceId == call.deviceId
    ensures var s := Run(Next(w, Serve(call)), steps).store;
            && (forall now | RequireCtx(s, token, now).Ok? :: RequireCtx(s, token, now).value.deviceId != call.deviceId)
            && Answer(s, login).1.Refused?
  {
    var w1, d := Next(w, Serve(call)), call.deviceId;
    StepFine(w, Serve(call));
    CallsDoAsDemanded(w, call);
    assert d in w1.store.devices && w1.store.devices[d].revokedAt.Some?;
    hide *;
    RevokedDeviceStaysOut(w1, steps, d);
    StaysRevoked(w1, steps, d);
    RevokedIsRefused(Run(w1, steps).store, login);
  }

  lemma RevokedIsRefused(s: Store, login: Call)
    requires login.LogIn? && (login.deviceId in s.devices ==> s.devices[login.deviceId].revokedAt.Some?)
    ensures Answer(s, login).1.Refused?
  {
    AnswersByTable(s, login);
    hide Answer;
  }

  lemma StaysRevoked(w: World, steps: seq<Step>, d: Id)
    requires Inv(w) && AdmissibleRun(w, steps) && d in w.store.devices && w.store.devices[d].revokedAt.Some?
    ensures d in Run(w, steps).store.devices ==> Run(w, steps).store.devices[d].revokedAt.Some?
  {
    RunFine(w, steps);
    hide StorageInv, CleanUsers, CleanInvites, CodesAgree, CleanRequests, KnownKeys, TicketsSound, Run, AdmissibleRun;
  }

  // ---- invites

  /** Every invite with this hash, if there is one, is redeemed or revoked. */
  predicate Shut(s: Store, hash: Id) {
    forall i | i in s.invites && s.invites[i].tokenHash == hash :: s.invites[i].redeemedAt.Some? || s.invites[i].revokedAt.Some?
  }

  /** A shut invite never opens again, even if it is deleted: no later invite has its hash. */
  lemma ShutStaysShut(w: World, steps: seq<Step>, hash: Id)
    requires Inv(w) && AdmissibleRun(w, steps) && hash in w.issued && Shut(w.store, hash)
    ensures Shut(Run(w, steps).store, hash)
  {
    RunFine(w, steps);
    ShutEvolves(w.store, w.issued, Run(w, steps).store, hash);
    hide Sound, KnownKeys, TicketsSound, Run, AdmissibleRun;
  }

  lemma ShutEvolves(s: Store, issued: set<Id>, s': Store, hash: Id)
    requires StoreEvolves(s, issued, s') && Shut(s, hash) && hash in issued && s.invites.Keys <= issued
    ensures Shut(s', hash)
  {
    hide DevicesEvolve, SessionsEvolve, PairingsEvolve, BlobsEvolve;
    forall i | i in s'.invites && s'.invites[i].tokenHash == hash
      ensures s'.invites[i].redeemedAt.Some? || s'.invites[i].revokedAt.Some? {
      assert i in s.invites && s.invites[i].tokenHash == hash;
    }
  }

  lemma KnownInvite(w: World, i: Id)
    requires Inv(w) && i in w.store.invites
    ensures w.store.invites[i].tokenHash in w.issued && w.store.invites.Keys <= w.issued
    ensures forall j | j in w.store.invites && w.store.invites[j].tokenHash == w.store.invites[i].tokenHash :: j == i
  {
    hide StorageInv, CleanUsers, LiveSessions, CodesAgree, CleanRequests, KnownKeys, TicketsSound;
  }

  /** A redeemed or withdrawn invite buys nothing: at every later point it opens no registration and finishes none. */
  lemma SpentInviteAdmitsNobody(w: World, steps: seq<Step>, i: Id, step: Step)
    requires Inv(w) && AdmissibleRun(w, steps) && i in w.store.invites
    requires w.store.invites[i].redeemedAt.Some? || w.store.invites[i].revokedAt.Some?
    ensures step.OpenRegister? && step.inviteHash == w.store.invites[i].tokenHash ==> Opened(Run(w, steps).store, step).Err?
    ensures step.Finish? && step.c.Register? && step.c.inviteHash == w.store.invites[i].tokenHash ==>
              Enrolled(Run(w, steps).store, step).1.Refused?
  {
    KnownInvite(w, i);
    ShutStaysShut(w, steps, w.store.invites[i].tokenHash);
    RunFine(w, steps);
    HashesDiffer(Run(w, steps));
    ShutRefuses(Run(w, steps).store, w.store.invites[i].tokenHash, step);
    hide Inv, Run, AdmissibleRun, Opened, Enrolled;
  }

  lemma ShutRefuses(s: Store, hash: Id, step: Step)
    requires Shut(s, hash) && DistinctHashes(s)
    ensures step.OpenRegister? && step.inviteHash == hash ==> Opened(s, step).Err?
    ensures step.Finish? && step.c.Register? && step.c.inviteHash == hash ==> Enrolled(s, step).1.Refused?
  {
    assert forall now :: !InviteOpen(s, hash, now);
    if step.OpenRegister? {
      OpensByTable(s, step);
    } else if step.Finish? && step.c.Register? {
      FinishesByTable(s, step);
    }
    hide Shut, Opened, Enrolled, InviteOpen;
  }

  /** Withdrawing is for good: once it is served, the invite it named admits nobody. */
  lemma WithdrawnForGood(w: World, call: Call, steps: seq<Step>, step: Step)
    requires Inv(w) && Admissible(w, Serve(call)) && call.WithdrawInvite? && Answer(w.store, call).1.Served?
    requires AdmissibleRun(Next(w, Serve(call)), steps)
    ensures call.id in w.store.invites
    ensures step.Finish? && step.c.Register? && step.c.inviteHash == w.store.invites[call.id].tokenHash ==>
              Enrolled(Run(Next(w, Serve(call)), steps).store, step).1.Refused?
  {
    var w1 := Next(w, Serve(call));
    StepFine(w, Serve(call));
    CallsDoAsDemanded(w, call);
    assert w1.store.invites[call.id] == w.store.invites[call.id].(revokedAt := Some(call.now)) && call.id in w1.store.invites;
    hide Inv, Answer, Enrolled, Run, AdmissibleRun, Next;
    SpentInviteAdmitsNobody(w1, steps, call.id, step);
  }

  // ---- a user who is gone

  /** No challenge that could still be spent is sealed for this user id. */
  ghost predicate NoWayBack(w: World, u: Id) {
    && u in w.issued && u !in w.store.users
    && forall c | c in w.challenges && c.Register? && c.userId == u :: c.inviteHash in w.issued && Shut(w.store, c.inviteHash)
  }

  lemma NoWayBackStays(w: World, step: Step, u: Id)
    requires Inv(w) && Admissible(w, step) && NoWayBack(w, u)
    ensures NoWayBack(Next(w, step), u)
  {
    var w' := Next(w, step);
    StepFine(w, step);
    InvitesKnown(w);
    forall c | c in w'.challenges && c.Register? && c.userId == u
      ensures c.inviteHash in w'.issued && Shut(w'.store, c.inviteHash) {
      SealedBefore(w, step, c);
      ShutEvolves(w.store, w.issued, w'.store, c.inviteHash);
    }
    NobodyNew(w, step, u);
    hide Inv, StoreEvolves, Shut, Answer, Enrolled, Opened;
  }

  lemma InvitesKnown(w: World)
    requires Inv(w)
    ensures w.store.invites.Keys <= w.issued
  {
    hide StorageInv, CleanUsers, LiveSessions, CodesAgree, CleanRequests, KnownKeys, TicketsSound;
  }

  lemma SealedBefore(w: World, step: Step, c: Challenge)
    requires Admissible(w, step) && c in Next(w, step).challenges && c.Register? && c.userId in w.issued
    ensures c in w.challenges
  {
    hide Answer, Enrolled, StateOfInvite, InviteRow, HandleInUse;
  }

  lemma NobodyNew(w: World, step: Step, u: Id)
    requires Inv(w) && Admissible(w, step) && NoWayBack(w, u)
    ensures u !in Next(w, step).store.users
  {
    match step
    case Serve(call) =>
      CallFine(w.store, w.issued, w.keys, call);
    case Finish(c, _, _, _, _, _) =>
      HashesDiffer(w);
      if c.Register? && c.userId == u {
        ShutRefuses(w.store, c.inviteHash, step);
      }
      EnrolmentChanges(w, step);
      FinishesByTable(w.store, step);
    case _ =>
  }

  lemma {:induction false} GoneStaysGone(w: World, steps: seq<Step>, u: Id)
    requires Inv(w) && AdmissibleRun(w, steps) && NoWayBack(w, u)
    ensures u !in Run(w, steps).store.users
    decreases |steps|
  {
    hide Inv, NoWayBack, Admissible, Next;
    if steps == [] {
      GoneNow(w, u);
    } else {
      StepFine(w, steps[0]);
      NoWayBackStays(w, steps[0], u);
      GoneStaysGone(Next(w, steps[0]), steps[1..], u);
    }
  }

  lemma GoneNow(w: World, u: Id)
    requires NoWayBack(w, u)
    ensures u !in w.store.users
  {
  }

  /**
   * Removal is for good: once a user was removed, or left, no run brings the user id back, whatever challenges are
   * replayed, so no token is ever accepted for it.
   */
  lemma RemovedForGood(w: World, call: Call, steps: seq<Step>, token: Id)
    requires Inv(w) && Admissible(w, Serve(call)) && (call.Remove? || call.Leave?) && Answer(w.store, call).1.Served?
    requires AdmissibleRun(Next(w, Serve(call)), steps)
    ensures var u, s := if call.Remove? then call.userId else Self(w.store, call.token), Run(Next(w, Serve(call)), steps).store;
            && u in w.store.users && u !in s.users
            && forall now | RequireCtx(s, token, now).Ok? :: RequireCtx(s, token, now).value.userId != u
  {
    var u, w1 := if call.Remove? then call.userId else Self(w.store, call.token), Next(w, Serve(call));
    StepFine(w, Serve(call));
    RemovedWithoutWayBack(w, call, u);
    hide Inv, Answer, NoWayBack, Next, Run, AdmissibleRun;
    GoneStaysGone(w1, steps, u);
  }

  lemma RemovedWithoutWayBack(w: World, call: Call, u: Id)
    requires Inv(w) && Admissible(w, Serve(call)) && Answer(w.store, call).1.Served?
    requires (call.Remove? && u == call.userId) || (call.Leave? && u == Self(w.store, call.token))
    ensures u in w.store.users && NoWayBack(Next(w, Serve(call)), u)
  {
    var w1 := Next(w, Serve(call));
    RemovedNow(w, call, u);
    StepFine(w, Serve(call));
    InvitesKnown(w);
    TicketsOf(w, u);
    forall c | c in w1.challenges && c.Register? && c.userId == u ensures c.inviteHash in w1.issued && Shut(w1.store, c.inviteHash) {
      ShutEvolves(w.store, w.issued, w1.store, c.inviteHash);
    }
    hide Inv, Answer, Demands, StoreEvolves, Shut;
  }

  lemma RemovedNow(w: World, call: Call, u: Id)
    requires Inv(w) && Answer(w.store, call).1.Served?
    requires (call.Remove? && u == call.userId) || (call.Leave? && u == Self(w.store, call.token))
    ensures u in w.store.users && u !in Answer(w.store, call).0.users
  {
    CallsDoAsDemanded(w, call);
    RemovalMet(w.store, call, u);
    hide Inv, Answer, Demands, Filter, OnlyChanges;
  }

  lemma RemovalMet(s: Store, call: Call, u: Id)
    requires Demands(s, call).Served? && ((call.Remove? && u == call.userId) || (call.Leave? && u == Self(s, call.token)))
    ensures u in s.users
  {
    hide LiveSession, LiveAdmin, SelfIs;
  }

  lemma TicketsOf(w: World, u: Id)
    requires Inv(w) && u in w.store.users
    ensures u in w.issued
    ensures forall c | c in w.challenges && c.Register? && c.userId == u :: c.inviteHash in w.issued && Shut(w.store, c.inviteHash)
  {
    hide StorageInv, CleanUsers, LiveSessions, CodesAgree, CleanRequests, KnownKeys;
  }
}
