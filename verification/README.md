# MeowNow, modelled and proved

MeowNow is a shared clipboard with end-to-end encryption. This project models its server store and the services that
guard it, its offline outbox, its WebRTC signalling, its chunked file sealing and upload path, its codecs, its rate
limiter and two of its text scanners, and proves what they guarantee.

`dafny verify dfyconfig.toml` checks everything.

## How it is laid out

| files | what they hold |
|---|---|
| Wrappers, Bits | options, results, sequence and bit-string lemmas |
| Rows, PrunePlan, StoreOps | the store's rows, the prune plan, and each store operation as a function on one store value |
| MemoryStore, ServiceClasses, Api | the store and the services as classes that update their fields, proved equal to those functions, and every call shown to be a step of the runs |
| Services | each guarded service call as a function with its refusals |
| Storage, Server, Runs, Promises | the invariants, one lemma per operation, the theorem over all runs, and what callers may rely on |
| Guards, Effects | the same calls once more by the rows alone: one table of demands and refusals, one of effects, proved to be what the services do |
| Histories, Finality, Entitlements | over whole runs: how every access was earned, what is final, and which rows entitle to what |
| ObjectKeys, Sweep | the nightly bucket sweep and its agreement with the prune |
| Outbox, CacheRefresh, OutboxRuns, OutboxPromises, OutboxEffects | the retry protocol over a network that loses requests and replies, and the cache refresh |
| MergeItems | the list on screen |
| IceBuffers, Mesh, MeshRuns, MeshPromises, MeshAnswers, MeshPresence, Hub | signalling between any number of devices |
| Sealing, Upload, UploadService | chunk sealing under an ideal AEAD, and a file's way to the bucket and back, past every check |
| Base64Url, HubTicket, Mnemonic | the codecs |
| TokenBuckets | the rate limiter |
| Emoji, Indent | the code-region scanner with shortcode expansion, and composer indentation |

## Reading the model

A whole run is a sequence of steps; each service call, each request of the outbox and each queued mesh operation is one
step. Random ids are fresh, times are integers, hashes, handles and sealed bodies are numbers that are only compared.
Answers the code cannot compute itself (WebAuthn, rate limits, the edge's stat, the browser's connection calls, what
becomes of a request) are parameters, so every statement holds for all of them.

Code that changes state step by step is written that way (classes with `modifies`, loops with invariants) and its
`ensures` equates the new state with a function of the old one. The theorems are about those functions: once about
every run, and once more against independent definitions (a table of demands and one of effects, a number and its digits, a
sum, a filter, a full scan, a unique sorted order).

## Where the code does less than one might expect

Each of these is proved, and beside it the exact condition under which the code does meet the property.

- An item id can be shared. `commitBlobAndItem` never checks item ids, and prune deletes by id, so a lapsed note takes a
  live file of the same id with it: exactly when such a note exists (`Promises.SharedIdDiesEarly`, a run from the empty
  store; `Promises.PruneSparesLiveItemsIff`). The counters stay right all the same.
- A note rewritten after a lost reply ends synced with the server holding the old text, because a second create for an
  id is ignored (`OutboxPromises.LostReplyThenRewrite`, `OutboxPromises.RewriteThenRetry`).
- A note forgotten after a lost reply stays on the server; a client can be sure of none being left exactly when none of
  its creates went unanswered (`OutboxPromises.LostReplyThenForget`, `OutboxPromises.ForgottenButServed`).
- An answer is not matched to its offer. One that arrives after its connection was closed is applied to the next
  connection's offer (`MeshAnswers.LateAnswerIsApplied`). A waiting connection is safe exactly when every offer the device
  ever sent that peer is its own (`MeshAnswers.AnswersFitIff`, `MeshAnswers.FirstConnectionFits`).
- A known shortcode stays as typed when its opening colon closes an earlier match, as in `:_:smile:`, and only then
  (`Emoji.OverlapHidesShortcode`, `Emoji.KnownShortcodeIsReplaced`).
- A removed user stays named in the pairings the user wrapped; they admit nobody (`Promises.RemovalForgets`). All other
  references hold in every reachable world but the user of a late device (`Promises.ReferencesHold`).
- Outdenting does not undo an indent when the selection starts at 0 and the text with a newline, since
  `lastIndexOf` treats position -1 as 0 (`Indent.OutdentUndoesIndentIff`).
- For the same reason Shift-Tab doubles a leading newline when nothing past it is selected from 0 on, and only then
  (`Indent.OutdentGrowsIff`).
- `openHubTicket` decodes the signature part outside its guarded section, so a malformed one throws instead of
  returning null (`HubTicket.MalformedSignatureThrows`).
- An enrolment that finishes after its user was removed leaves a device and a session behind; they open nothing
  (`Promises.LateEnrolmentIsInert`).
- The sweep deletes objects of uploads that began after the plan was made (`Sweep.LateUploadIsSwept`); objects of blobs
  the plan knew stay exactly with their blobs (`Sweep.SweepFollowsPrune`).
- A clock that steps back lets the token bucket grant more than its bound (`TokenBuckets.ClockStepsBack`): the bound holds
  for every limit exactly when the clock never does (`TokenBuckets.BoundHoldsIff`).

## Model

| member | source | states |
|---|---|---|
| Runs.ReachableIsSound | apps/web/lib/auth/memory-store.ts:35-805 | In every world reachable by any sequence of service calls, enrolments and prunes: each counter equals the sum of the owner's committed bytes, every file item has its own committed blob of the same owner and size, notes have none, one admin exists, sessions belong to unrevoked devices and end within ninety days, no invite is both redeemed and revoked, each pairing has one code, and each user has at most one undecided upload request |
| Runs.RunFine | apps/web/lib/auth/memory-store.ts:35-805 | From any sound world, every run ends sound, and rows only move forward: revocations, redemptions, wraps and commits are never undone and drawn ids are never reused |
| Runs.StepFine | apps/web/lib/vault/service.ts:85-700 | Each single step, served or refused, keeps the invariant and the forward-only relation |
| Runs.CallFine | apps/web/lib/vault/service.ts:85-469 | The same for each service call from its store alone, including which user ids and object keys it may add |
| Runs.FinishFine | apps/web/lib/auth/service.ts:310-449 | An enrolment adds at most the user id sealed in its challenge, and only by spending that challenge's invite |
| Runs.SealedTickets | apps/web/lib/auth/service.ts:271-308 | A newly sealed challenge never shares a user id with one for another invite, so replaying sealed challenges is harmless |
| Runs.InitialIsFine | apps/web/lib/auth/memory-store.ts:56-74 | The freshly built store with its seeded admin satisfies the invariant |
| Rows.NextSessionExpiry | packages/db/src/sessions.ts:4-10 | None exactly from ninety days after creation on; otherwise later than now, at most thirty days ahead and never past the cap |
| Guards.AnswersByTable | apps/web/lib/vault/service.ts:85-469 | Each of the twenty-one calls answers with the first of its demands on the rows that is unmet (session, device, role, limits, deadlines, quota, earlier decisions), and is served exactly when all are met |
| Guards.OpensByTable | apps/web/lib/auth/service.ts:271-408 | A challenge is sealed exactly on an open invite and a free handle, the admin's secret before the first device, a live pairing that was wrapped, or the recovery proof; it is good for five minutes and for that user |
| Guards.FinishesByTable | apps/web/lib/auth/service.ts:310-449 | An enrolment is served exactly with a challenge in time, a live pairing where there is one, the authenticator's yes, and the invite still open or the admin still without device |
| Guards.TicketsByTable | apps/web/lib/vault/service.ts:363-395 | A ticket is given exactly for the caller's own blob with permission to upload, committed to download and pending otherwise, and names that blob's key and size |
| Effects.ServedCallsTakeEffect | apps/web/lib/auth/memory-store.ts:149-777 | What each served call does to the rows, field by field, and that every other row and table stays as it was |
| Effects.FinishesTakeEffect | apps/web/lib/vault/service.ts:587-633 | A served enrolment brings in one device of the sealed user with a session of thirty days and what its kind does besides; a refused one changes nothing |
| Effects.PruneLeaves | apps/web/lib/vault/prune.ts:36-52 | Prune keeps exactly the sessions and pairings whose time has not come, and the items whose id no lapsed item shares, in order; of users it changes only the counters, of codes nothing |
| Effects.PruneIsUnnoticed | apps/web/lib/vault/prune.ts:46-52 | From the prune on, every token and every pairing gets the answer it would have got without it, at any later time |
| Histories.ChallengesAreEarned | apps/web/lib/auth/service.ts:271-308 | Every challenge of a reachable world was sealed at an earlier step at which all demands on its sealing were met |
| Histories.WrapsAreEarned | apps/web/lib/vault/service.ts:140-153 | The user of every pairing is the signed-in caller of an earlier wrap on it, while it was live and unwrapped |
| Histories.DevicesAreEarned | apps/web/lib/auth/service.ts:310-449 | Every device came in at an enrolment of its own user, vouched for, with a sealed challenge in time |
| Histories.SessionsAreEarned | apps/web/lib/auth/service.ts:469-519 | Every session came in at a login that the authenticator vouched for, of a known, unrevoked device of a user not suspended, or at its device's enrolment |
| Histories.AccessIsEarned | apps/web/lib/auth/service.ts:555-571 | Whoever a token is accepted for in any reachable store: an authenticator vouched for that session of the device, and the device was admitted to that user by a challenge sealed on met demands, through a pairing only after that user's own wrap |
| Finality.RevokedForGood | apps/web/lib/auth/service.ts:206-227 | From a served revocation on, at any later point of any run, no token of the device is accepted and no login of it served |
| Finality.SpentInviteAdmitsNobody | apps/web/lib/auth/memory-store.ts:217-242 | A redeemed or withdrawn invite, even once deleted, opens no registration and finishes none at any later point of any run |
| Finality.WithdrawnForGood | apps/web/lib/auth/memory-store.ts:171-178 | From a served withdrawal on, every registration on that invite is refused, challenges sealed before included |
| Finality.RemovedForGood | apps/web/lib/auth/memory-store.ts:337-387 | Once removed or gone by itself, a user id never comes back in any run, whatever challenges are replayed, and no token is accepted for it |
| Entitlements.ReachableIsEntitled | apps/web/lib/auth/memory-store.ts:489-636 | In every reachable store an item is pinned exactly while its owner preserves notes, nobody uploads without an approved request whose granted bytes, 25 to 100 MiB, are the quota, save the admin's first one, and notes belong to users with a vault |
| Entitlements.PreservedItemsStay | apps/web/lib/vault/prune.ts:36-45 | While the admin preserves notes, prune takes an item of the admin exactly when another user's lapsed item shares its id |
| Storage.PruneUsage | apps/web/lib/auth/memory-store.ts:736-777 | What prune subtracts from a counter never exceeds it, equals exactly what leaves the sum, and the counters equal the sums afterwards: the clamp at zero never acts |
| Storage.PruneDropsExactlyUnreferenced | apps/web/lib/vault/prune.ts:29-82 | Prune drops a committed blob exactly when no surviving item refers to it, and a pending one exactly when it is an hour old |
| Storage.PruneDropsByItemId | apps/web/lib/vault/prune.ts:36-45 | An item goes exactly when some unpinned, lapsed item carries its id |
| Storage.PruneKeepsStorage | apps/web/lib/auth/memory-store.ts:736-777 | Prune keeps counters, references and ownership in order |
| Storage.SecondPlanIsEmpty | apps/web/lib/vault/prune.ts:29-82 | A second plan at the same instant deletes nothing and keeps the same object keys |
| Storage.PruneTwice | apps/web/lib/auth/memory-store.ts:736-777 | A second prune at the same instant changes nothing |
| Storage.CommitKeepsStorage | apps/web/lib/auth/memory-store.ts:660-705 | Committing a blob with its item keeps the storage invariant, whatever size was measured |
| Storage.RemovalKeepsStorage | apps/web/lib/auth/memory-store.ts:337-387 | Removing a user with everything owned keeps the storage invariant for all others |
| Storage.DecrementsNeverClamp | apps/web/lib/auth/memory-store.ts:745-752 | Decrements that ask for no more than each counter holds subtract exactly, in any order and for repeated owners |
| Storage.KeptPlusSubtracted | apps/web/lib/vault/prune.ts:46-71 | Per owner, bytes of kept blobs plus bytes handed back are the bytes charged before |
| PrunePlan.PlanPrune | apps/web/lib/vault/prune.ts:29-82 | The one-pass loop fills its four lists exactly as the filters over kept, dropped and orphaned blobs say |
| Server.CountersAddUp | apps/web/lib/auth/memory-store.ts:717-734 | However the users are listed, their counters add up to the committed bytes of all blobs |
| Server.RemoveUserKeeps | apps/web/lib/auth/memory-store.ts:337-387 | Removing any user keeps the whole invariant |
| Server.RegistrationKeeps | apps/web/lib/auth/memory-store.ts:217-242 | Registration keeps the whole invariant, as long as the sealed user id is not a user while its invite is open |
| Server.LoginKeeps | apps/web/lib/auth/memory-store.ts:253-261 | Login through an unrevoked or unknown device keeps the whole invariant |
| Server.DecideKeeps | apps/web/lib/auth/memory-store.ts:608-636 | A decision by an existing user, with or without a grant, keeps the whole invariant |
| Server.WrapKeeps | apps/web/lib/auth/memory-store.ts:445-462 | Saving a wrap keeps the whole invariant and never alters an earlier wrap |
| Promises.RevokedDeviceStaysOut | apps/web/lib/auth/memory-store.ts:320-335 | A device revoked at any point has no session at any later point of any run |
| Promises.SessionNeverOutlivesCap | apps/web/lib/auth/service.ts:528-553 | However often it is touched, a session's expiry stays within ninety days of its creation and it stays with its device |
| Promises.InviteRedeemedOnce | apps/web/lib/auth/memory-store.ts:217-242 | A redeemed invite keeps its redemption for as long as it is there, and is never revoked |
| Promises.WrapIsFinal | apps/web/lib/auth/memory-store.ts:445-471 | Once wrapped, a pairing is frozen until it is deleted, and a deleted pairing never returns |
| Promises.PairingEnrolsOnce | apps/web/lib/vault/service.ts:531-633 | After one successful enrolment through a pairing, every later one through it is refused in every run |
| Promises.CommittedBlobIsFinal | apps/web/lib/auth/memory-store.ts:660-705 | A committed blob never changes owner, key, size or hash while it exists |
| Promises.PairingHasOneCode | apps/web/lib/auth/memory-store.ts:417-443 | Each pairing is found by exactly one code, although prune leaves stale index entries |
| Promises.AdminCannotBeRemoved | apps/web/lib/auth/memory-store.ts:337-345 | In every reachable world removing the seeded admin is refused and changes nothing |
| Promises.RefusedChangesNothing | apps/web/lib/auth/service.ts:528-571 | A refused call leaves the store as it was; the branch that deletes a session before refusing is never reached |
| Promises.NoSessionNoChange | apps/web/lib/vault/service.ts:697-725 | Over all steps, calls and enrolments alike: the store changes only by a finished enrolment, by login, logout, a new pairing or prune, or by a served call of a live session |
| Promises.EnrolmentChanges | apps/web/lib/auth/service.ts:310-449 | In sound worlds an enrolment is served exactly on its demands, with exactly its effect and never onto a user who is there, and otherwise changes nothing |
| Promises.CallsDoAsDemanded | apps/web/lib/vault/service.ts:85-469 | In sound worlds every call is served exactly on its demands, with exactly its effect, and otherwise changes nothing |
| Promises.ReferencesHold | apps/web/lib/auth/memory-store.ts:35-805 | In every reachable world items, blobs, requests with their deciders, invites with their redeemers and vaults name existing users, and sessions existing devices |
| Promises.RemovalForgets | apps/web/lib/auth/memory-store.ts:337-387 | A removed user is named nowhere but in pairings, which keep naming the user exactly where they did and admit nobody any more |
| Promises.MembersAreRefused | apps/web/lib/vault/service.ts:697-703 | Admin calls by a member are refused as forbidden and change nothing |
| Promises.OthersItemsUntouched | apps/web/lib/auth/memory-store.ts:473-549 | A caller's note calls leave every other user's items, and all blobs, exactly as they were and in order |
| Promises.OthersUploadsUntouched | apps/web/lib/vault/service.ts:327-469 | Upload calls leave other users' blobs and items exactly as they were |
| Promises.CommitStaysInQuota | apps/web/lib/vault/service.ts:397-469 | A served commit charges exactly the measured bytes, stays within the quota of that moment and within the announced size, and marks the blob |
| Promises.LateEnrolmentIsInert | apps/web/lib/vault/service.ts:587-633 | A finish after its user was removed still adds a device and session; the session is found exactly when the user exists, so it opens nothing |
| Promises.ClashCallsAreServed | apps/web/lib/vault/service.ts:397-469 | The four calls of that run are each served, the last committing a file under the note's item id |
| Promises.SharedIdDiesEarly | apps/web/lib/vault/prune.ts:36-45 | A run from the empty store (enrolment, vault, note, intent, commit) ends in a sound world with a note and an unlapsed file of one item id; the next prune takes the file with the lapsed note |
| Promises.PruneSparesLiveItemsIff | apps/web/lib/vault/prune.ts:36-45 | Prune takes an unlapsed item exactly when another item shares its id and has lapsed unpinned |
| MemoryStore.MemoryAuthStore.constructor | apps/web/lib/auth/memory-store.ts:56-74 | The store starts as the seeded admin and nothing else |
| MemoryStore.MemoryAuthStore.GetInviteByTokenHash | apps/web/lib/auth/memory-store.ts:76-83 | Finds the invite with a hash when there is one |
| MemoryStore.MemoryAuthStore.HandleTaken | apps/web/lib/auth/memory-store.ts:93-95 | True exactly when some user has the handle |
| MemoryStore.MemoryAuthStore.CountDevices | apps/web/lib/auth/memory-store.ts:110-118 | The number of devices of the user |
| MemoryStore.MemoryAuthStore.CreateInvite | apps/web/lib/auth/memory-store.ts:149-169 | The new state is the old one with that invite added |
| MemoryStore.MemoryAuthStore.RevokeInvite | apps/web/lib/auth/memory-store.ts:171-178 | Revokes an existing unredeemed invite, else changes nothing |
| MemoryStore.MemoryAuthStore.CompleteRegistration | apps/web/lib/auth/memory-store.ts:217-242 | All of user, device, session and redemption, or nothing and the reason |
| MemoryStore.MemoryAuthStore.CompleteAdminEnroll | apps/web/lib/auth/memory-store.ts:244-251 | Adds device and session only while the admin has no device |
| MemoryStore.MemoryAuthStore.CompleteLogin | apps/web/lib/auth/memory-store.ts:253-261 | Updates the device's counter and adds a session, only for a known device |
| MemoryStore.MemoryAuthStore.DeleteSession | apps/web/lib/auth/memory-store.ts:263-265 | Exactly that session goes |
| MemoryStore.MemoryAuthStore.TouchSession | apps/web/lib/auth/memory-store.ts:267-274 | Exactly that session's expiry and last use move |
| MemoryStore.MemoryAuthStore.RevokeDevice | apps/web/lib/auth/memory-store.ts:320-335 | Marks the device once and deletes exactly its sessions |
| MemoryStore.MemoryAuthStore.RemoveUser | apps/web/lib/auth/memory-store.ts:337-387 | Refuses the last admin; else the nine collections lose exactly what the user owned and forget the user's name |
| MemoryStore.MemoryAuthStore.SaveVault | apps/web/lib/auth/memory-store.ts:393-403 | Stores a vault once per user and flags the user |
| MemoryStore.MemoryAuthStore.CreatePairing | apps/web/lib/auth/memory-store.ts:417-434 | Adds the pairing and points its code at it |
| MemoryStore.MemoryAuthStore.GetPairingByCode | apps/web/lib/auth/memory-store.ts:440-443 | Follows the index, and finds nothing through a stale entry |
| MemoryStore.MemoryAuthStore.SavePairingWrap | apps/web/lib/auth/memory-store.ts:445-462 | Writes user and wrap once |
| MemoryStore.MemoryAuthStore.DeletePairing | apps/web/lib/auth/memory-store.ts:464-471 | Removes the pairing and every code that leads to it |
| MemoryStore.MemoryAuthStore.CreateItem | apps/web/lib/auth/memory-store.ts:473-487 | Appends the item unless its id exists: the owner's repeat is ignored, another owner's is refused |
| MemoryStore.MemoryAuthStore.SetPreserveNotes | apps/web/lib/auth/memory-store.ts:489-499 | Sets the flag and pins or unpins exactly the owner's items |
| MemoryStore.MemoryAuthStore.UpdateTextItem | apps/web/lib/auth/memory-store.ts:501-524 | Rewrites the first own item of the id if it is a live note, else says why not |
| MemoryStore.MemoryAuthStore.ResetItemExpiry | apps/web/lib/auth/memory-store.ts:532-543 | Moves the deadline of exactly the owner's items and counts them |
| MemoryStore.MemoryAuthStore.DeleteItem | apps/web/lib/auth/memory-store.ts:545-549 | Removes exactly the owner's items of that id |
| MemoryStore.MemoryAuthStore.CreateUploadRequest | apps/web/lib/auth/memory-store.ts:575-602 | Refuses a second undecided request of a user |
| MemoryStore.MemoryAuthStore.DecideUploadRequest | apps/web/lib/auth/memory-store.ts:608-636 | Decides once, and grants quota exactly on an approval with a grant |
| MemoryStore.MemoryAuthStore.CreatePendingBlob | apps/web/lib/auth/memory-store.ts:638-654 | Appends a pending blob |
| MemoryStore.MemoryAuthStore.CommitBlobAndItem | apps/web/lib/auth/memory-store.ts:660-705 | Checks quota and state, then marks blob, charges counter and appends item together, or changes nothing |
| MemoryStore.MemoryAuthStore.AddDeviceAndSession | apps/web/lib/auth/memory-store.ts:707-715 | Adds one device and one session |
| MemoryStore.MemoryAuthStore.UsageSnapshot | apps/web/lib/auth/memory-store.ts:717-734 | The exact committed and pending bytes and the chunk count over all blobs |
| MemoryStore.MemoryAuthStore.Prune | apps/web/lib/auth/memory-store.ts:736-777 | Applies the plan to items, pairings, sessions, blobs and counters, and returns its key lists |
| ServiceClasses.VaultService.MintUnusedPairingCode | apps/web/lib/vault/service.ts:676-684 | The first of eight draws that finds no pairing, or none |
| ServiceClasses.VaultService.StartPairing | apps/web/lib/vault/service.ts:109-122 | Creates a pairing under an unused code, or refuses and changes nothing |
| ServiceClasses.VaultService.PostWrap | apps/web/lib/vault/service.ts:140-153 | Every guard in order, then the single wrap |
| ServiceClasses.VaultService.CreateItem | apps/web/lib/vault/service.ts:155-175 | Every guard in order, then the store's create |
| ServiceClasses.VaultService.UpdateItem | apps/web/lib/vault/service.ts:210-235 | Every guard in order, then the store's update, each refusal with its own error |
| ServiceClasses.VaultService.UploadIntent | apps/web/lib/vault/service.ts:327-361 | Size, permission, quota and configuration guards, then one pending blob |
| ServiceClasses.VaultService.CommitUpload | apps/web/lib/vault/service.ts:397-469 | Stat, size, state, owner and quota guards, then the commit |
| ServiceClasses.VaultService.FinishDeviceEnroll | apps/web/lib/vault/service.ts:587-633 | Adds the device and session, and deletes the pairing it came through |
| ServiceClasses.VaultService.PairingRegisterVerify | apps/web/lib/vault/service.ts:531-538 | Challenge and live-pairing guards, then the enrolment |
| ServiceClasses.VaultService.RecoveryRegisterVerify | apps/web/lib/vault/service.ts:579-585 | Challenge guard, then the enrolment |
| ServiceClasses.VaultService.PutVault | apps/web/lib/vault/service.ts:85-96 | One vault per user |
| ServiceClasses.VaultService.DeleteItem | apps/web/lib/vault/service.ts:204-208 | The caller's own item only |
| ServiceClasses.VaultService.SetPreserveNotes | apps/web/lib/vault/service.ts:191-195 | Admin guard, then the pins of the admin's own items |
| ServiceClasses.VaultService.ResetItemExpiry | apps/web/lib/vault/service.ts:197-202 | Thirty days from now for the caller's items |
| ServiceClasses.VaultService.RequestUpload | apps/web/lib/vault/service.ts:253-281 | Size guard, then one undecided request |
| ServiceClasses.VaultService.DecideUpload | apps/web/lib/vault/service.ts:288-325 | Admin and size guards, then the decision with each refusal |
| ServiceClasses.VaultService.Prune | apps/web/lib/vault/service.ts:661-663 | The store's prune and its key lists |
| ServiceClasses.AuthService.RegisterVerify | apps/web/lib/auth/service.ts:310-366 | Challenge, invite and credential guards, then registration |
| ServiceClasses.AuthService.LoginVerify | apps/web/lib/auth/service.ts:469-519 | Unknown or revoked device and failed verification refuse; else a session with the first expiry |
| ServiceClasses.AuthService.Me | apps/web/lib/auth/service.ts:528-553 | Slides the session's expiry, or deletes it at the cap |
| ServiceClasses.AuthService.RevokeDevice | apps/web/lib/auth/service.ts:206-227 | Admin guard, then the store's revocation with its three answers |
| ServiceClasses.AuthService.RemoveUser | apps/web/lib/auth/service.ts:229-246 | Admin guard, then the store's removal with its three answers |
| ServiceClasses.AuthService.AdminEnrollVerify | apps/web/lib/auth/service.ts:409-449 | Challenge and credential guards, then the admin's first device |
| ServiceClasses.AuthService.CreateInvite | apps/web/lib/auth/service.ts:57-83 | Admin guard, then an invite for three days |
| ServiceClasses.AuthService.RevokeInvite | apps/web/lib/auth/service.ts:85-99 | Admin guard, then the revocation if unredeemed |
| ServiceClasses.AuthService.Logout | apps/web/lib/auth/service.ts:521-526 | The session goes |
| ServiceClasses.AuthService.DeleteAccount | apps/web/lib/auth/service.ts:248-269 | The handle must match, then the removal with its answers |
| Runs.StepLands | apps/web/lib/vault/service.ts:61-96 | What a step makes of the store is what every sound world that may take it becomes, soundly and only forward |
| Api.Routes.ServeCall | apps/web/lib/vault/service.ts:61-96 | The code of every service call gives the run's reply and takes the store where the run's step does, so every theorem about runs holds of it |
| Api.Routes.FinishEnrolment | apps/web/lib/auth/service.ts:310-449 | The same for the four verify calls that spend a sealed challenge |
| ObjectKeys.PrefixOfObject | apps/edge/src/prune.ts:1-4 | The prefix of an object key is the blob key it was built from |
| Sweep.SweepPage | apps/edge/src/prune.ts:20-30 | One page loses exactly its objects without a kept prefix, and the count is the number lost |
| Sweep.SweepOrphans | apps/edge/src/prune.ts:15-32 | For every split of the listing into pages the loop ends, exactly the objects with a kept prefix remain, and the count is the number removed |
| Sweep.PlanSplitsKeys | apps/web/lib/vault/prune.ts:46-71 | Kept and deleted keys are disjoint and together are the keys of all blobs |
| Sweep.SweepFollowsPrune | apps/edge/src/prune.ts:15-32 | In every sound store, as all reachable ones are, an object outlives prune and sweep exactly when its blob outlives the prune |
| Sweep.LateUploadIsSwept | apps/edge/src/prune.ts:15-32 | Objects of a blob created after the plan are swept away |
| Outbox.PostCached | apps/web/lib/vault/flush.ts:14-35 | A dirty row is patched and any other created; each fate of the request leaves both sides exactly as the protocol function says |
| Outbox.FlushQueuedItems | apps/web/lib/vault/flush.ts:37-59 | Walks queued and dirty rows in listing order, stops at the first lost request, goes on past an error, and reports count and last error |
| Outbox.SyncCachedItem | apps/web/lib/vault/flush.ts:61-70 | Posts one row unless absent, synced or offline |
| Outbox.SyncAllUnsynced | apps/web/lib/vault/flush.ts:72-94 | As the flush, but over held rows too and reporting offline |
| Outbox.SetSyncEnabled | apps/web/lib/vault/flush.ts:96-106 | Switching on releases every held row and then flushes; switching off only records the choice |
| OutboxPromises.FlushExactly | apps/web/lib/vault/flush.ts:37-94 | For each row of a walk: it turns synced exactly when no earlier request was lost, its own was answered and a dirty row's note exists; its note appears with the row's content, or takes on the dirty row's content, exactly then or on a lost reply, and is otherwise unchanged; so are row and counts |
| OutboxPromises.FlushCounts | apps/web/lib/vault/flush.ts:45-58 | The reported count is the number of rows of the walk that ended synced |
| OutboxPromises.AnsweredFlushDelivers | apps/web/lib/vault/flush.ts:37-59 | A flush with every request answered leaves each queued row synced, unchanged otherwise, and on the server |
| OutboxPromises.AnsweredFlushDeliversEdits | apps/web/lib/vault/flush.ts:14-59 | The same flush turns a dirty row synced exactly if it has a note, which then says what the row says |
| OutboxRuns.StepKeeps | apps/web/app/page.tsx:561-827 | Each client step, flush, refresh or action of another device keeps, per id: created equals removed plus present; synced implies created; unposted but present implies an unanswered create; and equal content unless the id is stale |
| OutboxRuns.RunKeeps | apps/web/app/page.tsx:561-827 | The same over every run, for every pattern of lost requests and replies |
| OutboxPromises.RetryIsExactlyOnce | apps/web/lib/vault/flush.ts:14-94 | After any run, a fully answered flush leaves every queued row created exactly once per removal, synced, and, unless stale, with its own content on the server |
| OutboxPromises.SyncedOnlyAfterServed | apps/web/lib/vault/flush.ts:14-35 | At every point of every run an id never removed was created at most once, and a synced row's id at least once |
| OutboxPromises.CarefulRunsAgree | apps/web/lib/vault/persist-intent.ts:18-34 | While no other device edits and no unanswered row is rewritten to something else, every row without an unsent edit says what the server says |
| OutboxPromises.RewriteThenRetry | apps/web/app/page.tsx:704-827 | A rewritten row retried with an answer turns synced, and the sides agree exactly when the earlier create never arrived or the rewrite changed nothing |
| OutboxPromises.LostReplyThenRewrite | apps/web/app/page.tsx:704-827 | A concrete run in which a lost reply, a rewrite and a retry end synced with different contents |
| OutboxPromises.ForgottenButServed | apps/web/app/page.tsx:918-950 | Forgetting an unposted row leaves its note exactly when more creates than removals of it arrived; in every world that looks the same to the client no note is left, if and only if no create went unanswered |
| OutboxPromises.LostReplyThenForget | apps/web/app/page.tsx:918-950 | A run in which a note is sent, its reply lost, and forgotten: it stays on the server and a refresh brings it back |
| OutboxPromises.CreateIsServerCreate | apps/web/lib/auth/memory-store.ts:473-487 | The store's create is the protocol's: it happens exactly when no item has the id, leaves one such item, and a repeat changes nothing |
| OutboxPromises.UpdateIsServerUpdate | apps/web/lib/auth/memory-store.ts:501-524 | The store's update changes that note's content and no other note |
| OutboxEffects.SendExactly | apps/web/app/page.tsx:586-671 | What sending does to the row and the note of the id and to no other: held while sync is off, synced once answered, gone if refused, queued otherwise; the server gets it only with sync on and online, and only if new |
| OutboxEffects.EditExactly | apps/web/app/page.tsx:704-827 | What an edit does: rewritten while never posted, patched with sync on and online, else dirty; no edit is lost to the network, and a note changes only by a patch that arrives |
| OutboxEffects.ForgetExactly | apps/web/app/page.tsx:918-950 | Forgetting drops the row, and the note unless the row was never posted or the delete did not arrive; nothing else |
| OutboxEffects.SyncOneExactly | apps/web/lib/vault/flush.ts:61-70 | Nothing for an absent or synced row or while offline, else exactly that row's turn of a flush with its reply |
| OutboxEffects.FlushReports | apps/web/lib/vault/flush.ts:45-59 | A flush reports no error exactly when no request it got to failed and, where offline counts, none was lost; a lost one then is the report |
| OutboxEffects.AnsweredSyncAllDelivers | apps/web/lib/vault/flush.ts:72-94 | Syncing everything with all answers leaves every row with local work, held ones too and with sync off too, synced with its content on the server, but edits of notes that are gone |
| OutboxEffects.SwitchingOnDelivers | apps/web/lib/vault/flush.ts:96-106 | Switching sync on with all answers does the same for every row, held ones included |
| OutboxEffects.NothingIsSent | apps/web/lib/vault/flush.ts:37-43 | Switching off, flushing with sync off or offline, and syncing everything while offline leave both sides as they are |
| CacheRefresh.UpsertSyncedFromRemote | apps/web/lib/vault/item-cache.ts:174-217 | The two loops compute the row-by-row refresh |
| CacheRefresh.UpsertExactly | apps/web/lib/vault/item-cache.ts:174-217 | Queued, held and dirty rows are untouched; any other id gets the last listed note with ciphertext, field by field; without one a synced row stays exactly if the list names it |
| CacheRefresh.UpsertTwice | apps/web/lib/vault/item-cache.ts:174-217 | The same list again changes nothing |
| CacheRefresh.PruneExpiredCachedItems | apps/web/lib/vault/item-cache.ts:156-172 | Exactly the expired rows go unless expired rows are kept; the kept rows are returned in order |
| CacheRefresh.LocalWorkSurvives | apps/web/app/page.tsx:298-368 | Refresh then prune loses a row with local work exactly when it has expired and expired rows go |
| MergeItems.MergeRemoteItems | apps/web/lib/ui/merge-items.ts:7-29 | The two loops and the sort compute the merge |
| MergeItems.MergeExactly | apps/web/lib/ui/merge-items.ts:7-29 | One row per id, none tombstoned, else the last fetched row, else the first current row that is ephemeral or pending; newest first |
| MergeItems.MergeTwice | apps/web/lib/ui/merge-items.ts:7-29 | Merging the same fetch into the result changes nothing, order included |
| MergeItems.SortIsStable | apps/web/lib/ui/merge-items.ts:28-28 | The sort keeps rows of one time in their order |
| MergeItems.SortSorts | apps/web/lib/ui/merge-items.ts:28-28 | The sort is newest first and keeps every row |
| MergeItems.SortIsUnique | apps/web/lib/ui/merge-items.ts:28-28 | Newest first and stable leave only one possible order |
| MergeItems.ReplaceExactly | apps/web/lib/ui/merge-items.ts:31-36 | The new row is spread over the one of its id, keeping optional fields it does not have, or joins; all others stay, newest first |
| MergeItems.NextPendingIds | apps/web/lib/ui/merge-items.ts:39-52 | Exactly the unsynced cached ids and the previous ids still shown |
| MergeItems.InFlightStaysOnScreen | apps/web/app/page.tsx:215-221 | A refresh that rebuilds the pending set keeps every row being written on screen unless fetched or tombstoned |
| IceBuffers.IceBuffer.Push | apps/web/lib/p2p/ice-buffer.ts:10-17 | Appends to the peer's list and no other |
| IceBuffers.IceBuffer.Take | apps/web/lib/p2p/ice-buffer.ts:19-23 | Returns the peer's list in order and forgets it |
| IceBuffers.IceBuffer.Clear | apps/web/lib/p2p/ice-buffer.ts:25-27 | Forgets the peer's list |
| Mesh.PeerMesh.HandlePresence | apps/web/lib/p2p/mesh.ts:29-42 | Queues one offer per new larger device and closes exactly the peers no longer listed |
| Mesh.PeerMesh.HandleSignal | apps/web/lib/p2p/mesh.ts:44-62 | Queues the operation of the envelope on its sender's chain |
| Mesh.PeerMesh.CloseAll | apps/web/lib/p2p/mesh.ts:81-85 | Closes every peer |
| Mesh.PeerMesh.Turn | apps/web/lib/p2p/mesh.ts:123-130 | Runs the oldest operation of one chain, however it ends |
| Mesh.PeerMesh.MakeOffer | apps/web/lib/p2p/mesh.ts:132-151 | Offers only to an unknown peer, with each way of failing, and always clears the starting mark |
| Mesh.PeerMesh.TakeOffer | apps/web/lib/p2p/mesh.ts:153-176 | Ignores an offer unless stable and new; else describes, flushes and answers, with each way of failing |
| Mesh.PeerMesh.TakeAnswer | apps/web/lib/p2p/mesh.ts:178-188 | Applies an answer only while a local offer waits |
| Mesh.PeerMesh.TakeIce | apps/web/lib/p2p/mesh.ts:244-265 | Hands a candidate over only with a remote description, else buffers it |
| Mesh.PeerMesh.FlushIce | apps/web/lib/p2p/mesh.ts:267-271 | Hands over every buffered candidate in order |
| Mesh.PeerMesh.ClosePeer | apps/web/lib/p2p/mesh.ts:273-281 | Forgets the peer, its mark and its buffer |
| MeshRuns.StepKeeps | apps/web/lib/p2p/mesh.ts:29-281 | Every step of the network keeps, per device and peer: offers go up and answers down, roles and counts hold, and candidates are accounted for |
| MeshRuns.RunKeeps | apps/web/lib/p2p/mesh.ts:29-281 | The same over every run of any number of devices with messages delayed, reordered, repeated or lost |
| MeshPromises.NoGlare | apps/web/lib/p2p/mesh.ts:29-42 | In every run offers travel from the smaller id to the larger and answers back, for both ends; the larger end never has a local offer, and a connection sends one offer and applies one answer at most |
| MeshPromises.CandidatesKept | apps/web/lib/p2p/ice-buffer.ts:7-28 | Handed then buffered candidates are those processed since the last close, none is handed before a remote description, and none waits after it |
| MeshPromises.LifetimeCandidates | apps/web/lib/p2p/mesh.ts:123-130 | During a peer's lifetime, candidates processed or queued grow exactly by those that arrive, in order |
| MeshPromises.LifetimeOffers | apps/web/lib/p2p/mesh.ts:132-151 | During a peer's lifetime, offers sent are exactly those its connection counts |
| MeshPromises.EveryCandidateArrives | apps/web/lib/p2p/mesh.ts:244-271 | From first contact on, handed, buffered and queued candidates together are the arrivals in order, and at most one offer was sent |
| MeshAnswers.ReachableIsTraced | apps/web/lib/p2p/mesh.ts:153-188 | In every reachable network each applied or travelling answer was made for an offer that its receiver did send to that peer |
| MeshAnswers.FirstConnectionFits | apps/web/lib/p2p/mesh.ts:178-188 | From a point where a device has never sent a peer an offer, the answer it applies during that lifetime was made for its own offer, in every run |
| MeshAnswers.AnswersFitIff | apps/web/lib/p2p/mesh-signal.ts:15-19 | For a connection that waits for an answer: in every continuation of its lifetime the applied answer was made for its own offer, if and only if every offer the device ever sent that peer is the one this connection sent |
| MeshAnswers.OlderOfferMisfits | apps/web/lib/p2p/mesh.ts:178-188 | One older offer is enough: a continuation is given in which the waiting connection takes the answer to it |
| MeshAnswers.LateAnswerIsApplied | apps/web/lib/p2p/mesh.ts:178-188 | A run in which the answer to a closed connection's offer becomes the remote description of the next connection |
| Mesh.PresenceExactly | apps/web/lib/p2p/mesh.ts:29-42 | For each device: exactly a listed larger one that is neither connected nor being offered to gets one offer queued and its mark, wherever it stands in the list; exactly the listed peers stay, unchanged, and of the others nothing is left but what their chain holds |
| MeshPresence.OfferEnds | apps/web/lib/p2p/mesh.ts:132-151 | However it ends, an offer clears the mark and leaves a connection; a known peer is left alone, and an offer is sent exactly if an sdp came out |
| MeshPresence.AcceptOfferEnds | apps/web/lib/p2p/mesh.ts:153-176 | An offer is taken exactly while stable and not the same again; then the buffer is handed over, and an answer is sent exactly if one came out |
| MeshPresence.RepeatedOfferIsIgnored | apps/web/lib/p2p/mesh-signal.ts:5-20 | The same offer a second time changes nothing, whatever the browser would do |
| MeshPresence.AcceptAnswerEnds | apps/web/lib/p2p/mesh.ts:178-188 | An answer is taken exactly while an own offer waits; then the connection is stable and the buffer handed over |
| MeshPresence.TwoDevicesConnect | apps/web/lib/p2p/mesh.ts:29-188 | Once the smaller of two devices hears a list with the larger in it, wherever in it and whatever else the network does, five more steps settle both ends on one offer and its answer |
| Hub.HubRoom.SendTo | apps/edge/src/hub.ts:29-39 | Sends once to each socket of the device and to no other, and says whether there was one |
| Hub.HubRoom.Broadcast | apps/edge/src/hub.ts:21-27 | Sends once to every socket and counts them |
| Hub.HubRoom.Route | apps/edge/src/hub.ts:41-47 | Signalling goes to the addressee's sockets, the rest to all |
| Hub.HubRoom.Receive | apps/edge/src/index.ts:63-89 | Keepalives and signalling with a foreign sender are dropped, the rest routed |
| Hub.HubRoom.Presence | apps/edge/src/hub.ts:49-51 | The connected device ids, each once, sorted |
| Hub.SignalsArePrivate | apps/edge/src/index.ts:79-88 | A signalling frame that is let in names its true sender and reaches exactly the addressee's sockets |
| Sealing.ConcatBytes | packages/crypto/src/bytes.ts:7-16 | The buffer filled at a moving offset is the parts end to end |
| Sealing.ReadsBack | packages/crypto/src/bytes.ts:18-29 | Reading four written bytes gives the value modulo 2^32 |
| Sealing.U32beIsBigEndian | packages/crypto/src/bytes.ts:18-29 | The four bytes are the value modulo 2^32 to base 256, most significant first, and are read so |
| Sealing.AadInjective | packages/crypto/src/aad.ts:12-18 | Equal associated data means equal id, kind and version, even for ids with zero bytes |
| Sealing.SplitIntoChunks | packages/crypto/src/chunks.ts:22-31 | The loop computes the recursive split |
| Sealing.SplitThenFlatten | packages/crypto/src/chunks.ts:22-31 | Chunks are non-empty, at most one MiB, as many as the length needs, and join back to the data |
| Sealing.IvsDifferIff | packages/crypto/src/chunks.ts:15-20 | Chunk and trailer IVs are pairwise different exactly when there are fewer than 2^32 chunks |
| Sealing.EncryptChunks | packages/crypto/src/chunks.ts:33-55 | The loop seals each part under its own IV and the count under the trailer's |
| Sealing.DecryptChunks | packages/crypto/src/chunks.ts:57-84 | IV length, trailer, count and each chunk are checked in order, each failure with its own error |
| Sealing.SealedExactly | packages/crypto/src/chunks.ts:33-55 | Chunk i seals the i-th MiB under the base IV and i, and the trailer the number of chunks under the base IV and four bytes of 255 |
| Sealing.DecryptExactly | packages/crypto/src/chunks.ts:57-84 | For any cipher: exactly when each of the three failures is told, and otherwise the opened chunks joined in order |
| Sealing.OnlyTheSealedOpens | packages/crypto/src/chunks.ts:57-84 | Under an ideal AEAD, decryption succeeds exactly on the sealed base IV, chunk list and trailer with the same associated data, and returns the plaintext |
| Sealing.OnlyTheSameItemOpens | packages/crypto/src/chunks.ts:57-84 | The same in terms of item id and kind |
| Sealing.IdealIsConsistent | packages/crypto/src/chunks.ts:33-55 | One call never seals two things under one IV |
| Sealing.IdealExists | packages/crypto/src/chunks.ts:33-84 | For every cipher and file there is an opening function that meets the ideal assumption |
| Upload.EdgeBucket.Put | apps/edge/src/http.ts:146-174 | Empty, oversized and misnamed uploads are refused in that order; otherwise exactly that object is stored |
| Upload.EdgeBucket.Get | apps/edge/src/http.ts:189-210 | Only well-named chunks are read back |
| Upload.EdgeBucket.Stat | apps/edge/src/http.ts:176-187 | The sum of the listed sizes |
| Upload.SendChunks | apps/web/lib/vault/upload-client.ts:86-102 | Succeeds exactly when every chunk and the trailer pass the edge's checks, and then the bucket holds exactly them |
| Upload.FetchChunks | apps/web/lib/vault/upload-client.ts:158-164 | Reads chunks until the first missing one |
| Upload.DecimalRoundTrip | apps/edge/src/http.ts:238-247 | A chunk number written in decimal reads back as itself |
| Upload.NumberIsDecimal | apps/edge/src/http.ts:238-247 | Names are read as decimal numbers, and 1023 is the last chunk name |
| Upload.KeysDiffer | apps/edge/src/http.ts:170-170 | Different chunk numbers, and the trailer, have different object keys |
| Upload.SealedSizes | packages/crypto/src/chunks.ts:33-55 | A sealed file is sixteen bytes a chunk and twenty for the trailer longer, and no chunk exceeds the cap |
| Upload.PassesEveryCheck | apps/web/lib/vault/upload-client.ts:51-114 | Every non-empty file up to the maximum passes the intent's bounds and each chunk's checks |
| Upload.StatIsCipherBytes | apps/edge/src/http.ts:176-187 | However the prefix is listed, stat equals the announced size |
| Upload.FileComesBack | apps/web/lib/vault/upload-client.ts:131-187 | Such a file passes intent, put, stat and commit, and the preview rebuilds the same bytes, compressed or not |
| UploadService.UploadIsServed | apps/web/lib/vault/service.ts:327-469 | With permission and room, intent and commit of such an upload are both served, charge exactly its bytes and add exactly its item |
| UploadService.IntentMovesUsage | apps/web/lib/auth/memory-store.ts:717-734 | On the usage page a served intent adds its announced bytes and chunks as pending, and nothing as committed |
| UploadService.CommitMovesUsage | apps/web/lib/auth/memory-store.ts:717-734 | A served commit takes the announced bytes out of the pending ones and puts the measured ones, no more, into the committed; the chunk count stays |
| Base64Url.BytesToB64Url | apps/web/lib/vault/wire.ts:1-7 | The loop computes the url-safe text |
| Base64Url.B64UrlToBytes | apps/web/lib/vault/wire.ts:9-18 | The loop computes the bytes, or throws with atob |
| Base64Url.UrlRoundTrip | apps/web/lib/vault/wire.ts:1-18 | Decoding undoes encoding on every byte sequence |
| Base64Url.LengthsAgree | apps/web/lib/vault/wire.ts:9-12 | The stripped length is never 1 modulo 4 and the restored padding is exactly what was removed |
| Base64Url.UrlAlphabet | packages/protocol/src/ws.ts:98-104 | The text has no dot and no padding, and is empty only for no bytes |
| Base64Url.TextIsTheNumber | apps/web/lib/vault/wire.ts:1-7 | The text is the bytes as one number written to base 64 in the url-safe digits of RFC 4648, section 5, one digit for every six bits begun |
| Base64Url.DecodesIff | apps/web/lib/vault/wire.ts:9-18 | A text without spaces and padding decodes exactly when every character is a digit of either alphabet and its length is not 1 modulo 4 |
| HubTicket.SameBytes | packages/protocol/src/ws.ts:150-160 | The xor-or loop is array equality |
| HubTicket.OpenHubTicket | packages/protocol/src/ws.ts:136-172 | Each check in order with its own outcome |
| HubTicket.MintThenOpen | packages/protocol/src/ws.ts:127-172 | A minted ticket opens to what its own JSON parses to until that expires: to itself exactly when parse and schema accept its JSON and it has not expired |
| HubTicket.OpensIffSigned | packages/protocol/src/ws.ts:136-172 | A token opens exactly when it is two non-empty texts around one dot, the second the keyed hash of the first, with an unexpired payload |
| HubTicket.MalformedSignatureThrows | packages/protocol/src/ws.ts:145-145 | It throws exactly when the signature part cannot be decoded |
| Bits.GroupsOfUngroup | packages/crypto/src/mnemonic.ts:14-16 | Writing values as bits and grouping them again gives the values back |
| Bits.UngroupOfGroups | packages/crypto/src/mnemonic.ts:6-12 | Grouping bits and writing them again gives the bits back |
| Bits.ValueOfUngroup | packages/crypto/src/mnemonic.ts:14-16 | Digits written in equally many bits each write the number they stand for |
| Mnemonic.BitsToBytes | packages/crypto/src/mnemonic.ts:6-12 | The loop fills the array with the bytes of the bit string |
| Mnemonic.GenerateMnemonic | packages/crypto/src/mnemonic.ts:22-41 | Twelve listed words for the entropy and the top four bits of its hash; fails on an empty hash |
| Mnemonic.ValidateMnemonic | packages/crypto/src/mnemonic.ts:43-65 | True exactly for twelve listed words whose last four bits are the checksum of the rest |
| Mnemonic.PrintedIsAccepted | packages/crypto/src/mnemonic.ts:22-65 | For every entropy and hash function, what is printed is accepted, splits into the same words, and rebuilds the entropy |
| Mnemonic.AcceptedIffPrinted | packages/crypto/src/mnemonic.ts:43-65 | A phrase is accepted exactly when its words are those printed for some entropy |
| Mnemonic.PrintedNumber | packages/crypto/src/mnemonic.ts:22-41 | The twelve indexes as one number to base 2048 are the entropy to base 256 followed by the top four bits of its hash byte; so the last word has index 16 times the entropy's last seven bits plus those four |
| Mnemonic.AcceptedIffNumber | packages/crypto/src/mnemonic.ts:43-65 | A phrase is accepted exactly when it is twelve listed words whose number is that of some sixteen bytes and the top four bits of their hash |
| TokenBuckets.RefusedIffWindowFull | apps/edge/src/rate-limit.ts:16-29 | For any request times, a call is refused exactly when granting it would overfill some window that ends with it, time counted as the bucket sees it pass |
| TokenBuckets.GrantsBoundedBySeen | apps/edge/src/rate-limit.ts:16-29 | For any request times, grants among calls i to j never exceed the capacity plus what the time seen between refills |
| TokenBuckets.GrantsBoundedInWhole | apps/edge/src/rate-limit.ts:16-29 | In whole numbers: grants times the window are at most the capacity times the window and the time seen |
| TokenBuckets.SeenIsPassedIff | apps/edge/src/rate-limit.ts:21-24 | The time seen is the time passed exactly when the clock never steps back in between |
| TokenBuckets.GrantsBounded | apps/edge/src/rate-limit.ts:16-29 | Where the clock does not step back between them, grants among calls i to j never exceed the capacity plus what the time between refills |
| TokenBuckets.BoundHoldsIff | apps/edge/src/rate-limit.ts:16-29 | That bound holds for every limit exactly when the clock never steps back |
| TokenBuckets.TokensInRange | apps/edge/src/rate-limit.ts:16-29 | Stored tokens stay between zero and the capacity, for any times |
| TokenBuckets.RefusedIsInvisible | apps/edge/src/rate-limit.ts:16-29 | Removing a refused call changes no other call's outcome, if the clock does not turn at it |
| TokenBuckets.ClockStepsBack | apps/edge/src/rate-limit.ts:16-29 | A clock that steps back grants three where the bound allows two |
| Emoji.CountTicks | apps/web/lib/ui/emoji-shortcodes.ts:72-75 | The inner loop counts the run of backticks |
| Emoji.IsCodeContext | apps/web/lib/ui/emoji-shortcodes.ts:56-90 | The early-stopping scan is true exactly when the index lies in a region of one full scan |
| Emoji.RegionsOrdered | apps/web/lib/ui/emoji-shortcodes.ts:56-90 | Regions are disjoint, in order, inside the text, opened and closed by backticks |
| Emoji.RegionsAreCode | apps/web/lib/ui/emoji-shortcodes.ts:56-90 | Every region is a fenced block, from a line that starts with three backticks to the next such line or the end, or inline code, from a run of backticks to the first place with as many |
| Emoji.OtherTicksAreUnclosed | apps/web/lib/ui/emoji-shortcodes.ts:56-90 | Every backtick outside the regions stands in a run that nothing later closes |
| Emoji.MatchesIff | apps/web/lib/ui/emoji-shortcodes.ts:153-164 | A shortcode is one to forty letters, digits, underscores, pluses or minuses between two colons |
| Emoji.ExpansionKeepsCode | apps/web/lib/ui/emoji-shortcodes.ts:153-164 | Expansion copies every code region unchanged and in order and only rewrites the gaps |
| Emoji.KnownShortcodeIsReplaced | apps/web/lib/ui/emoji-shortcodes.ts:92-164 | The expansion is the pieces of one left-to-right replace; a shortcode is one of them exactly when its opening colon does not close an earlier match, replaced if known, outside code and after no letter, digit or slash, and itself otherwise |
| Emoji.OverlapHidesShortcode | apps/web/lib/ui/emoji-shortcodes.ts:153-164 | In ":_:smile:" the known shortcode meets every condition but that one and is left as typed |
| Indent.LeadingSpaces | apps/web/lib/ui/composer-indent.ts:19-26 | Counts leading spaces up to the maximum |
| Indent.OutdentLines | apps/web/lib/ui/composer-indent.ts:45-58 | The loop removes each line's own indent and sums what the first and all lines lost |
| Indent.ApplyComposerIndent | apps/web/lib/ui/composer-indent.ts:28-66 | The branches compute the shifted text and range |
| Indent.OutdentUndoesIndentIff | apps/web/lib/ui/composer-indent.ts:28-66 | For a non-collapsed selection, outdenting the indented draft restores text and range exactly unless the selection starts at 0 and the text with a newline |
| Indent.RangesStayInside | apps/web/lib/ui/composer-indent.ts:28-66 | Every returned range is ordered and inside the returned text, in both directions |
| Indent.OutdentMoves | apps/web/lib/ui/composer-indent.ts:28-66 | Outdenting moves the start back by its own line's leading spaces, four at most and not before the line, and the end by all the text loses, not before the start; text before and after the lines stays |
| Indent.OutdentGrowsIff | apps/web/lib/ui/composer-indent.ts:9-66 | Shift-Tab lengthens the text, by a second newline at its front, exactly when the text starts with a newline and nothing past it is selected from 0 on |

## Left out

- `DrizzleAuthStore`: the database store is SQL and transactions; the model is of the in-memory store with the same contract.
- WebAuthn, HMAC, Ed25519, Argon2, SHA-256, gzip and JSON appear as arbitrary functions, with a round trip or ideal opening where one is needed.
- Login challenges: their sealing and expiry are folded into the `verified` answer.
- Interleavings inside one async method: a service call, a request or a queued mesh operation runs to its end before the next.
- Aliasing of row objects: rows are values in the maps and lists, so a caller that keeps a row cannot change the store.
- Asks, audit entries, push subscriptions, listings and the directory: they read or append and touch none of the invariants.
- The pairing view's fingerprint, display names, labels and transports: carried along and never decided on.
- Rate-limit answers in the services are parameters; the bucket itself is proved apart from them.
- TokenBuckets: tokens are exact, so rounding of floating-point numbers is not captured.
- Mnemonic.PrintedIsAccepted: the word list is any list of 2048 different words without spaces; the shipped list itself is not part of this model, nor are NFKD normalisation and lower-casing, which the code does not do either.
- Emoji.ExpansionKeepsCode: the dictionaries are any partial function from names to texts, so inherited property names such as "constructor" are covered but not singled out.
- `suggestEmoji`, `shortcodeQueryAt`, `closeShortcodeAtCaret` and `insertEmojiAt`: only easy members.
- Sweep.SweepOrphans: the listing is stable while it is walked, apart from the sweep's own deletions.
- Upload.StatIsCipherBytes: one listing of the prefix; the 1000 objects a bucket lists at once are more than the 101 of the largest file.
- Upload: capability tokens are represented by the prefix and byte cap they carry; their signature and expiry are not.
- OutboxRuns: undoing a delete, which creates an id again, and hub events older than the server's present note are not steps.
- OutboxRuns: an edit decides by the cached row's state, as the row on screen shows it.
- Outbox.PostCached: contents are compared without deadlines, which the server may reset.
- Mesh.PeerMesh: data channels, ICE connectivity, LAN detection and errors of `addIceCandidate` are left out; a candidate counts as handed over once the call is made.
- MeshRuns.StepKeeps: a reload is a new page, whose old queue is gone; a closed Mesh object that stays in memory beside its successor still runs what it had queued and may send an offer, and two such objects of one device are not modelled.
- Mesh.PeerMesh: device ids are numbers in the order of the strings; 0 stands for the empty id.
- Hub.HubRoom: frames are values; serialisation and schema checks are left out.
- React components, motion, service worker, cookies, CSP and environment parsing: user interface and configuration.
