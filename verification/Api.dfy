/** Every call and every enrolment as code over the in-memory store, shown to be a step of the runs. */
module Api {
  import opened Wrappers
  import opened Rows
  import opened Services
  import opened MemoryStore
  import opened ServiceClasses
  import StoreOps
  import Server
  import opened Runs

  class Routes {
    const store: MemoryAuthStore
    const auth: AuthService
    const vault: VaultService

    ghost predicate Valid() { auth.store == store && vault.store == store }

    constructor (store: MemoryAuthStore)
      ensures Valid() && this.store == store
    {
      this.store := store;
      auth := new AuthService(store);
      vault := new VaultService(store);
    }

    /** Whatever holds over runs holds of the code: the code of each call takes the store where the run's step does. */
    method ServeCall(call: Call) returns (o: Services.Outcome)
      requires Valid() && (call.StartPairing? ==> |call.codes| == PAIRING_CODE_ATTEMPTS)
      modifies store
      ensures (store.View(), o) == Answer(old(store.View()), call)
      ensures LandsAs(old(store.View()), store.View(), Serve(call))
    {
      StepLands(store.View(), Serve(call));
      hide Answer, LandsAs;
      if OfAccounts(call) {
        o := ServeAccount(call);
      } else if OfItems(call) {
        o := ServeItem(call);
      } else {
        o := ServeUpload(call);
      }
    }

    method ServeAccount(call: Call) returns (o: Services.Outcome)
      requires Valid() && OfAccounts(call)
      modifies store
      ensures (store.View(), o) == Answer(old(store.View()), call)
    {
      hide Services.LoginVerify, Services.Me, RevokeDeviceCall, RemoveUserCall, Services.DeleteAccount;
      match call
      case IssueInvite(token, now, id, hash) => o := auth.CreateInvite(token, now, id, hash);
      case WithdrawInvite(token, now, id) => o := auth.RevokeInvite(token, now, id);
      case LogIn(deviceId, verified, signCount, now, hash) => o := auth.LoginVerify(deviceId, verified, signCount, now, hash);
      case LogOut(token) => o := auth.Logout(token);
      case Touch(token, now) => o := auth.Me(token, now);
      case Revoke(token, now, deviceId) => o := auth.RevokeDevice(token, now, deviceId);
      case Remove(token, now, userId) => o := auth.RemoveUser(token, now, userId);
      case Leave(token, now, handle) => o := auth.DeleteAccount(token, now, handle);
    }

    method ServeItem(call: Call) returns (o: Services.Outcome)
      requires Valid() && OfItems(call) && (call.StartPairing? ==> |call.codes| == PAIRING_CODE_ATTEMPTS)
      modifies store
      ensures (store.View(), o) == Answer(old(store.View()), call)
    {
      hide Services.PutVault, Services.StartPairing, Services.PostWrap, CreateItemCall, UpdateItemCall, DeleteItemCall;
      hide PreserveNotesCall, ResetExpiryCall;
      match call
      case PutVault(token, now) => o := vault.PutVault(token, now);
      case StartPairing(now, id, publicJwk, codes) => o := vault.StartPairing(now, id, publicJwk, codes);
      case PostWrap(token, now, id, wrap) => o := vault.PostWrap(token, now, id, wrap);
      case Create(token, now, allowed, n) => o := vault.CreateItem(token, now, allowed, n);
      case Update(token, now, allowed, id, p) => o := vault.UpdateItem(token, now, allowed, id, p);
      case Delete(token, now, id) => o := vault.DeleteItem(token, now, id);
      case Preserve(token, now, enabled) => o := vault.SetPreserveNotes(token, now, enabled);
      case ResetExpiry(token, now) => o := vault.ResetItemExpiry(token, now);
    }

    method ServeUpload(call: Call) returns (o: Services.Outcome)
      requires Valid() && !OfAccounts(call) && !OfItems(call)
      modifies store
      ensures (store.View(), o) == Answer(old(store.View()), call)
    {
      hide Services.RequestUpload, Services.DecideUpload, Services.UploadIntent, Services.CommitUpload, StoreOps.Prune;
      match call
      case Request(token, now, id, requestedMb) => o := vault.RequestUpload(token, now, id, requestedMb);
      case Decide(token, now, id, approved, grantedMb) => o := vault.DecideUpload(token, now, id, approved, grantedMb);
      case Intent(token, now, configured, byteSize, chunkCount, blobId, r2Key) =>
        o := vault.UploadIntent(token, now, configured, byteSize, chunkCount, blobId, r2Key);
      case Commit(token, now, configured, c, stat) => o := vault.CommitUpload(token, now, configured, c, stat);
      case Sweep(now) =>
        var _, _ := vault.Prune(now);
        o := Served;
    }

    /** The verify call that spends a sealed challenge, whichever its purpose. */
    method FinishEnrolment(c: Challenge, now: int, verified: bool, deviceId: Id, signCount: nat, hash: Id) returns (o: Services.Outcome)
      requires Valid() && Server.CleanInvites(store.users.Keys, store.invites)
      modifies store
      ensures (store.View(), o) == Enrolled(old(store.View()), Finish(c, now, verified, deviceId, signCount, hash))
      ensures LandsAs(old(store.View()), store.View(), Finish(c, now, verified, deviceId, signCount, hash))
    {
      StepLands(store.View(), Finish(c, now, verified, deviceId, signCount, hash));
      hide LandsAs, Services.RegisterVerify, Services.AdminEnrollVerify, PairingVerify, RecoveryVerify;
      match c
      case Register(_, _, _, _) => o := auth.RegisterVerify(c, now, verified, deviceId, signCount, hash);
      case AdminEnroll(_, _) => o := auth.AdminEnrollVerify(c, now, verified, deviceId, signCount, hash);
      case PairingEnroll(_, _, _) => o := vault.PairingRegisterVerify(c, now, verified, deviceId, signCount, hash);
      case RecoveryEnroll(_, _) => o := vault.RecoveryRegisterVerify(c, now, verified, deviceId, signCount, hash);
    }
  }

  predicate OfAccounts(call: Call) {
    call.IssueInvite? || call.WithdrawInvite? || call.LogIn? || call.LogOut? || call.Touch? || call.Revoke? || call.Remove?
    || call.Leave?
  }

  predicate OfItems(call: Call) {
    call.PutVault? || call.StartPairing? || call.PostWrap? || call.Create? || call.Update? || call.Delete? || call.Preserve?
    || call.ResetExpiry?
  }
}
