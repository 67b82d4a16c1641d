# OpsMate desktop authority core: Dafny model and proofs

The desktop client keeps four kinds of authority: a login session with an epoch, an
unlocked vault, live SSH sessions and an SSH generation that invalidates them. Several
threads change them at once. This project models the code that grants and withdraws that
authority, and proves what it keeps over every run; it also models the codecs that carry
untrusted text between the parts. `dafny verify dfyconfig.toml` checks everything.

Code that updates objects in place is modelled by classes whose methods are proved against
functions on the object's value. Protocols that several threads run together are state
machines over those same functions, one action being one mutex section, one atomic
operation or one callback; their theorems speak of every state of every run, whatever the
interleaving.

| file | models |
|---|---|
| SessionRegistry, SessionRegistryRuns | the SSH session registry: two-phase registration against close-all, per-credential close, explicit close and lazy draining |
| AuthorityRuns | what the end of a login means for SSH sessions: registry and auth store together |
| AuthSession, PkceRuns | the auth store, and PKCE logins with callbacks, timers, expiry and logout in all interleavings |
| Invalidation, InvalidationRuns, CancelWakeups | 401 invalidation over two watermarks: as a sequential call, in all interleavings with logins and logouts, and its wait loop; the cloud bridge's logout and session install |
| VaultLifecycle, VaultRuns, ObserverLatch | seal ordering of idle, sleep, resume, exit, user lock, session cuts and the vault's own binding checks, as single operations and in all interleavings; the latch against unlocks after observer loss |
| Transport | the SSH transport actor: setup, command queue, fair select, shutdown, and the caller's poll loop |
| HostKey, HandleOwnership | trust on first use over the life of a connection; who owns the connection handle |
| JsonGraph | the check of an object graph before it is sent to the native side |
| Percent, UrlPath, Request, AuthorizeUrl | percent-encoding, path templates, queries, request building and the login page address |
| Base64Url, JsonString, Sanitize | session ids, the hand-written exchange body, duplicate keys and secret fields in responses |
| Utf8, Utf8Chars | byte strings with the `str` operations applied to them and `String::from_utf8_lossy`; the characters they stand for |
| Chars, LocalSsh, Text, Wrappers | letters, hex digits and control characters, shared types, `str::trim`, Option and Result |

## What the proofs show about the code

Properties that hold only under a condition are proved with that condition, and the
failing case is given by a lemma with a concrete run or input.

- A 401 never clears a newer login, but its cutoffs are not tied to its epoch: when a login
  completes between the clear and the cutoffs of the same 401, the new session's SSH
  generation and vault are cut too. `InvalidationRuns.CutoffsMeetOnlyLaterLogins` gives the
  exact condition and `InvalidationRuns.CutoffsCanMeetNewerSession` a run. The promise at
  src-tauri/src/cloud_transport/lifecycle.rs:8, that strictly newer epochs remain
  unaffected, holds for the auth session and for cancellation, not for these cutoffs.
- An Ok from `complete_established` names the caller's own session exactly when no later
  call registers under the same id (`SessionRegistryRuns.KnownIdNamesOwnRecord`). An id is
  compared with live sessions only, so a random source that repeats itself after the first
  session has gone makes the post-insert check of one call find another call's record:
  `SessionRegistryRuns.RepeatedIdNamesForeignRecord` is such a run, with a ticket of its
  own for each call. Exactly-once closing of handles does not depend on this.
- `push_json_string` writes one escape per UTF-8 byte of a control character. The text
  reads back as the string exactly when it has no character from U+0080 to U+009F
  (`JsonString.RoundTripIffNoC1`, `JsonString.NextLineIsLost`).
- A begin that fails clears whatever login is pending at that moment
  (src-tauri/src/auth/mod.rs:399-401). That is another begin's login exactly when another
  one was installed after its own (`PkceRuns.FailedBeginTakesForeignLogin`);
  `PkceRuns.SecondLoginIsTaken` is a run. `PkceRuns.StepEndsPending` lists every action
  that ends a pending login.
- The vault is not always sealed behind the SSH cutoff. Its own binding checks seal with
  `lock_with_reason` (src-tauri/src/vault/mod.rs:573-580, called at lines 1006, 1021, 1034,
  1077, 1088 and on to 1382), and so do the two stale-login exits of an unlock
  (src-tauri/src/lib.rs:167-172 and 205-209): the registered sessions are closed, but the
  SSH generation stays and the gate is not locked before the seal. An operation seals like
  that exactly when it is such a check and finds the login gone or changed, or the vault
  open under another login (`VaultLifecycle.SealsCoveredUnlessStale`, run
  `VaultLifecycle.StaleLoginSealsBare`); in interleavings the same division holds between
  paths (`VaultRuns.SealFollowsOwnCut`, run `VaultRuns.BareSealWithoutCut`).
- Even a path that locks the gate before its seal can seal with the gate open again: that
  is so exactly when an unlock notification came after its own lock and no lock after the
  notification (`VaultRuns.CutoffAtSeal`, run `VaultRuns.SleepSealsWithCutoffOpen`).
- After an error that comes after the pre-seal callback the coordinator moves the SSH
  generation twice, a user lock once; `VaultLifecycle.SealOutcome` states both counts.

## Model

| member | source | states |
|---|---|---|
| SessionRegistry.MintSessionIdUsesFirstFreeDraw | src-tauri/src/local_ssh/session.rs:475-486 | an id is minted from the first of the allowed draws that is free, and only if every draw before it succeeded and collided |
| SessionRegistry.MintSessionIdIsFresh | src-tauri/src/local_ssh/session.rs:475-496 | a minted id is no live session's id, so an insert overwrites nothing |
| SessionRegistry.LocalSshSessionManager.BeginEstablishment | src-tauri/src/local_ssh/session.rs:297-324 | a ticket that one authority only matches: the current principal and epoch, the requested server and credential, and the SSH generation read; it carries the current barriers, and nothing changes |
| SessionRegistry.LocalSshSessionManager.InsertSession | src-tauri/src/local_ssh/session.rs:433-473 | inserts exactly when the barriers are those of the ticket and an id can be minted, otherwise changes nothing |
| SessionRegistry.LocalSshSessionManager.CompleteEstablished | src-tauri/src/local_ssh/session.rs:330-427 | Ok exactly when every check passes, then one new record and no close; Err names the first check that failed, leaves the registry as it was and closes the handle once |
| SessionRegistry.LocalSshSessionManager.CloseAllSessions | src-tauri/src/local_ssh/session.rs:667-679 | moves the generation, empties the registry, closes every drained handle |
| SessionRegistry.LocalSshSessionManager.CloseSessionsForCredential | src-tauri/src/local_ssh/session.rs:681-708 | moves one credential's epoch, removes and closes exactly the sessions with that tenant, subject and credential |
| SessionRegistry.LocalSshSessionManager.CloseSession | src-tauri/src/local_ssh/session.rs:526-544 | removes and closes the session only for its own principal and epoch |
| SessionRegistry.LocalSshSessionManager.DrainInvalidSessions | src-tauri/src/local_ssh/session.rs:619-643 | removes and closes exactly the stale sessions |
| SessionRegistry.LocalSshSessionManager.Authorize | src-tauri/src/local_ssh/session.rs:499-524 | passes exactly for a live, current session of the caller's principal, epoch and SSH generation; removes and closes exactly the stale sessions, whatever it answers |
| SessionRegistry.LiveAuthorityMeans | src-tauri/src/local_ssh/session.rs:582-599 | passes exactly for the current login with vault and cutoff unlocked and the SSH generation unmoved, and else fails with the first thing wrong |
| SessionRegistry.PostInsertMeans | src-tauri/src/local_ssh/session.rs:400-427 | passes exactly when neither barrier moved and the record under the id has the ticket's five fields |
| SessionRegistry.OwnedByMeans | src-tauri/src/local_ssh/session.rs:526-544 | close takes a session exactly for its own principal and epoch |
| SessionRegistry.StaleMeans | src-tauri/src/local_ssh/session.rs:619-643 | a drain leaves exactly the sessions of the current login under an unlocked vault, the current SSH generation and both barriers |
| SessionRegistryRuns.HandleConservation | src-tauri/src/local_ssh/session.rs:330-397 | in every interleaving each handle given to complete_established is in exactly one place, once: with its call, in one record, with one closer, or closed |
| SessionRegistryRuns.ErrLeavesHandleClosed | src-tauri/src/local_ssh/session.rs:350-397 | a call that returned Err leaves its handle closed or with the one closer that will close it |
| SessionRegistryRuns.QuietAccounts | src-tauri/src/local_ssh/session.rs:612-708 | once all calls and closers are done, each handle is in one live record or was closed exactly once |
| SessionRegistryRuns.UndisturbedOpenSucceeds | src-tauri/src/local_ssh/session.rs:297-427 | from any reachable state a begin and a complete with what it was begun for, undisturbed, return Ok and register just that login, server, credential, SSH generation and handle |
| SessionRegistryRuns.SessionsComeFromBegins | src-tauri/src/local_ssh/session.rs:314-323 | in every interleaving a live session's login, server, credential and SSH generation are those some establishment was begun with |
| SessionRegistryRuns.FailedCheckMeansErr | src-tauri/src/local_ssh/session.rs:356-397 | a failed live check, before or after the insert, or a foreign authority means Err, whatever happens later |
| SessionRegistryRuns.RecordsStayCurrent | src-tauri/src/local_ssh/session.rs:433-473 | every record always carries the current global generation and its key's current epoch |
| SessionRegistryRuns.BarriersGrow | src-tauri/src/local_ssh/session.rs:667-708 | generation and credential epochs never decrease over a run |
| SessionRegistryRuns.StaleTicketIsNoSession | src-tauri/src/local_ssh/session.rs:277-324 | a ticket begun before a close-all or a close of its credential is never inserted after it, and no record of it remains |
| SessionRegistryRuns.CredentialCloseIsIsolated | src-tauri/src/local_ssh/session.rs:681-708 | a credential close takes exactly the records and tickets of its key, whatever the username, and leaves all others as they were |
| SessionRegistryRuns.KnownIdNamesOwnRecord | src-tauri/src/local_ssh/session.rs:400-427 | the live record under the id a call knows is the call's own exactly when no call registered under that id after it |
| SessionRegistryRuns.RepeatedIdNamesForeignRecord | src-tauri/src/local_ssh/session.rs:475-486 | a run of two calls with their own tickets in which a repeated id makes the Ok of the first name the session of the second |
| AuthorityRuns.EndedLoginIsNotVisible | src-tauri/src/auth/session.rs:358-371 | once a login has ended by a returned 401 or a logout, the store never shows it or an earlier one again |
| AuthorityRuns.EndedLoginHasNoSessions | src-tauri/src/local_ssh/session.rs:582-643 | from then on, whatever the registry holds: authorize passes for no session up to that epoch, a drain under a later login takes all of them, and no ticket up to it passes the live checks |
| AuthorityRuns.AuthorizeAfterEnd | src-tauri/src/local_ssh/session.rs:499-524 | a call of authorize after the end of a login admits no session of it and leaves none behind when there is a new login |
| AuthSession.AuthStore.InstallPending | src-tauri/src/auth/session.rs:205-224 | a pending login gets the next generation and its deadline |
| AuthSession.AuthStore.ClearPendingIfGeneration | src-tauri/src/auth/session.rs:176-188 | a timer clears only the pending login of its own generation |
| AuthSession.AuthStore.MarkReauthRequiredIfEpoch | src-tauri/src/auth/session.rs:358-371 | clears exactly the session of the given epoch, with the pending login, asks for a new login, and says whether it did |
| AuthSession.AuthStore.NativeAuthBinding | src-tauri/src/auth/session.rs:287-318 | a binding is handed out exactly for a session with five non-blank fields: trimmed tenant, user name as user id, subject, and the current epoch |
| AuthSession.AuthStore.PerformBeginLogto | src-tauri/src/auth/mod.rs:365-403 | starts exactly when randomness and the browser succeed; otherwise nothing is pending and the session is untouched |
| AuthSession.AuthStore.PerformHandleDeepLink | src-tauri/src/auth/mod.rs:481-601 | installs a session exactly for a live, unspent, matching callback with a valid response; which error every other callback gets; a matching callback is spent even when it fails, any other one leaves an unexpired login alone |
| AuthSession.CallbackAnswers | src-tauri/src/auth/mod.rs:498-540 | exactly which callbacks are replays, expired, mismatched, refused or taken |
| AuthSession.ValidSessionHasPrincipal | src-tauri/src/auth/session.rs:271-284 | the exchange checks accept exactly the sessions that have a principal |
| PkceRuns.StateExchangedAtMostOnce | src-tauri/src/auth/mod.rs:523-547 | over all interleavings each state is exchanged at most once, with the verifier made for it |
| PkceRuns.ExchangesNeverExceedLogins | src-tauri/src/auth/mod.rs:481-601 | exchanges plus a login still pending never exceed installed logins |
| PkceRuns.UndisturbedLogin | src-tauri/src/auth/mod.rs:365-601 | from any state an undisturbed login answered in time makes one exchange request with its own verifier and installs the session under the next epoch |
| PkceRuns.CodeCallbackMeans | src-tauri/src/auth/mod.rs:523-547 | in any state a code callback makes a request exactly for an unspent, unexpired, matching login, with its own verifier, and spends the state |
| PkceRuns.ErrorCallbackMeans | src-tauri/src/auth/mod.rs:498-521 | an error callback gives up the matching login and spends its state if it has not expired, and never makes a request |
| PkceRuns.StepEndsPending | src-tauri/src/auth/session.rs:161-203 | exactly which actions end a pending login |
| PkceRuns.FailedBeginTakesForeignLogin | src-tauri/src/auth/mod.rs:399-401 | a failed begin that finds a pending login takes the newest one, which is another begin's exactly when one was installed after its own |
| PkceRuns.SecondLoginIsTaken | src-tauri/src/auth/mod.rs:365-403 | a run in which the failure of the first begin takes the login of the second |
| PkceRuns.PendingSurvives | src-tauri/src/auth/mod.rs:538-541 | a pending login lives through any other actions: wrong-state callbacks, replays, timers of other logins |
| PkceRuns.InstalledSessionHasPrincipal | src-tauri/src/auth/mod.rs:570-599 | any session ever installed can be bound to |
| PkceRuns.EpochNamesSession | src-tauri/src/auth/session.rs:150-158 | the epoch never decreases and changes with every change of the session, so an epoch names one session |
| Invalidation.BodyRunsForStrictMaxima | src-tauri/src/cloud_transport/lifecycle.rs:147-182 | for any sequence of 401 epochs the body runs exactly for the left-to-right strict maxima above 0 |
| Invalidation.WatermarksAreMaxima | src-tauri/src/cloud_transport/lifecycle.rs:128-182 | after a sequence of 401s both watermarks cover all its epochs and the done one does not exceed the cancel one |
| Invalidation.HooksKeepOrder | src-tauri/src/cloud_transport/lifecycle.rs:160-180 | hook calls are blocks, one per executed 401 in order: clear, then nothing or SSH, vault, emit |
| Invalidation.InvalidationControl.RunFor401 | src-tauri/src/cloud_transport/lifecycle.rs:147-182 | what one 401 does to watermarks, auth store, SSH generation, gate, vault and hook history, and whether its body ran; deduplicated or not, the channel version moves and the watermark covers the epoch |
| Invalidation.Run401Effects | src-tauri/src/cloud_transport/lifecycle.rs:147-182 | a deduplicated 401 changes only the watermark; otherwise the session of its epoch goes, and SSH, gate, vault and event follow in order exactly when it did or the store is poisoned |
| Invalidation.ProductionHooks.TryClearAuthForEpoch | src-tauri/src/cloud_bridge.rs:124-131 | a poisoned store answers Err, otherwise exactly the session of that epoch is cleared |
| Invalidation.CloudBridge.PerformSecureLogout | src-tauri/src/cloud_bridge.rs:354-365 | cancel everything, clear the login unless the store is poisoned, then SSH, gate and vault in any case |
| Invalidation.CloudBridge.OnSuccessfulSessionInstall | src-tauri/src/cloud_bridge.rs:334-349 | cancel the epochs below the new login, then one SSH close, the gate lock and the vault seal, whatever the store answers |
| Invalidation.SecureLogoutEndsAuthority | src-tauri/src/cloud_bridge.rs:354-365 | after a logout every earlier call is cancelled, nobody is logged in, the generation has moved, the gate is locked and the vault sealed if the seal was granted; a poisoned store changes only the login part |
| Invalidation.SessionInstallCancelsOlder | src-tauri/src/cloud_bridge.rs:334-349 | a session install cancels exactly the calls of older logins |
| Invalidation.SessionInstallEndsOldAuthority | src-tauri/src/cloud_bridge.rs:345-348 | after an install no earlier SSH generation is valid, the gate is locked and the vault sealed if the seal was granted, in this order; the new login and its epoch stay |
| InvalidationRuns.ReturnedEpochNeverLivesAgain | src-tauri/src/cloud_transport/lifecycle.rs:147-182 | once a 401 for an epoch returned, even deduplicated, no session up to that epoch is ever visible again |
| InvalidationRuns.ClearTakesOwnEpochOnly | src-tauri/src/auth/session.rs:358-371 | the clear of a 401 never touches a newer session and always takes its own |
| InvalidationRuns.WatermarksStayBehind | src-tauri/src/cloud_transport/lifecycle.rs:128-182 | watermarks only grow, done never passes cancel, cancel never passes the store's epoch |
| InvalidationRuns.InstallCancelsBelow | src-tauri/src/cloud_bridge.rs:335-344 | the cancel of an install covers exactly the epochs below the new one |
| InvalidationRuns.BodiesRunOncePerEpoch | src-tauri/src/cloud_transport/lifecycle.rs:147-182 | in every interleaving bodies run for strictly growing epochs and never two at a time |
| InvalidationRuns.CutoffsMeetOnlyLaterLogins | src-tauri/src/cloud_transport/lifecycle.rs:160-180 | the cutoffs of a 401 meet a visible session exactly when a login completed after its clear and nothing ended it since |
| InvalidationRuns.CutoffsCanMeetNewerSession | src-tauri/src/cloud_transport/lifecycle.rs:160-180 | a run in which the 401 of an old session cuts the SSH authority of a new one |
| InvalidationRuns.UndisturbedStepsAreOneCall | src-tauri/src/cloud_transport/lifecycle.rs:147-182 | the steps of a 401 that nothing disturbs add up to the sequential call |
| Invalidation.InvalidationControl.IsCancelledToken | src-tauri/src/cloud_transport/lifecycle.rs:105-113 | a token is cancelled by a global cancel since it was made or by a watermark at or above its epoch |
| CancelWakeups.NoLostWakeup | src-tauri/src/cloud_transport/lifecycle.rs:105-139 | a cancelled waiter that cannot go on has been woken or some canceller still has its notify to do |
| CancelWakeups.CancelIsFinal | src-tauri/src/cloud_transport/lifecycle.rs:105-113 | a cancelled token stays cancelled |
| CancelWakeups.CancelledWaiterReturns | src-tauri/src/cloud_transport/lifecycle.rs:115-126 | once all notifies are done a cancelled waiter returns within three of its own steps |
| CancelWakeups.CancelledWaiterGetsOut | src-tauri/src/cloud_transport/lifecycle.rs:115-126 | the same as steps of the run: at most three advances and it has returned |
| CancelWakeups.OnlyCancelledReturn | src-tauri/src/cloud_transport/lifecycle.rs:115-126 | in every interleaving a waiter that has returned holds a cancelled token |
| CancelWakeups.ParkedMovesOnNewVersion | src-tauri/src/cloud_transport/lifecycle.rs:115-126 | a parked waiter moves only on a version it has not seen |
| CancelWakeups.EpochCancelIsRaiseAndNotify | src-tauri/src/cloud_transport/lifecycle.rs:128-132 | cancel_auth_epoch as one call is exactly its raise followed by its own notify |
| CancelWakeups.GlobalCancelIsRaiseAndNotify | src-tauri/src/cloud_transport/lifecycle.rs:135-139 | cancel_all is exactly its raise followed by its own notify |
| CancelWakeups.Run401Wakes | src-tauri/src/cloud_transport/lifecycle.rs:147-182 | after a 401, deduplicated or not, every call of its epoch or an older one returns within three of its own steps, even if it was parked |
| CancelWakeups.SecureLogoutWakes | src-tauri/src/cloud_bridge.rs:354-365 | after a logout every call made before it does |
| CancelWakeups.SessionInstallWakes | src-tauri/src/cloud_bridge.rs:335-344 | after the install of a session every call of an older login does |
| VaultLifecycle.SealOutcome | src-tauri/src/vault_lifecycle_coordinator.rs:54-150 | Sealed, NotNeeded and Err of every lifecycle operation: what moved, in which order, and how often the generation did |
| VaultLifecycle.SealVerdict | src-tauri/src/vault/mod.rs:872-951 | exactly when each lifecycle operation seals and which error it gives |
| VaultLifecycle.UserLockAmongOthers | src-tauri/src/cloud_bridge.rs:408-434 | a user lock while others close SSH: its own close after a failure is spared exactly when the generation has moved |
| VaultLifecycle.PlainOperations | src-tauri/src/security_cutoff.rs:42-54 | what session cuts, notifications, unlocks, observer loss and each binding check leave behind, with their events |
| VaultLifecycle.CapturedGenerationsDie | src-tauri/src/cloud_bridge.rs:408-434 | after Sealed or Err no earlier SSH generation is valid and the gate is locked, other threads or not |
| VaultLifecycle.SealsCoveredUnlessStale | src-tauri/src/vault/mod.rs:573-580 | in every history an operation seals without the generation bump, gate lock and session close right before it exactly when it is a binding check that fails and gets the sealing gate; it then leaves the generation alone |
| VaultLifecycle.StaleLoginSealsBare | src-tauri/src/vault/mod.rs:992-1010 | a history in which a check that finds the login gone seals an open vault with the gate open and the generation unmoved |
| VaultLifecycle.EnsureBindingLiveGuards | src-tauri/src/vault/mod.rs:1012-1039 | exactly when a vault operation goes on; it then has the expected login and the vault locked or open for it, the vault it found open is sealed exactly when login or vault is stale, and a refusal that gets the sealing gate leaves no vault open |
| VaultLifecycle.VaultLifecycleCoordinator.EnsureBindingIsLive | src-tauri/src/vault/mod.rs:1012-1039 | the three checks in their order, each sealing when it fails |
| VaultLifecycle.ExitActsAtMostOnce | src-tauri/src/vault_lifecycle_coordinator.rs:131-150 | over any operations, exit requests after the first change nothing |
| VaultLifecycle.VaultService.SealIfStillIdleWithPreSeal | src-tauri/src/vault/mod.rs:872-911 | a busy or refreshed vault is left alone and its callback not run |
| VaultLifecycle.VaultLifecycleCoordinator.OnResume | src-tauri/src/vault_lifecycle_coordinator.rs:115-127 | resume seals like sleep and locks the gate even when nothing was to seal |
| VaultLifecycle.VaultLifecycleCoordinator.OnProcessExit | src-tauri/src/vault_lifecycle_coordinator.rs:131-150 | exit seals once, locks the gate of a locked vault, and acts only the first time |
| VaultLifecycle.VaultLifecycleCoordinator.PerformUserVaultLock | src-tauri/src/cloud_bridge.rs:408-434 | on Err the generation is bumped only if nothing bumped it during the seal |
| VaultRuns.SealFollowsOwnCut | src-tauri/src/vault/mod.rs:925-951 | in every interleaving a seal holds the gate alone, and its path has itself closed SSH once and locked the gate exactly when it is not a bare seal; a lifecycle path or user lock finds the vault still unlocked |
| VaultRuns.BareSealWithoutCut | src-tauri/src/vault/mod.rs:573-580 | a run in which a bare seal closes an unlocked vault with the gate open at generation 0 |
| VaultRuns.CutoffAtSeal | src-tauri/src/security_cutoff.rs:42-54 | a path that seals and is not bare has locked the gate itself, and the gate is open at the seal exactly when an unlock notification came after that lock and no lock since |
| VaultRuns.SleepSealsWithCutoffOpen | src-tauri/src/vault_lifecycle_coordinator.rs:66-127 | a run in which a sleep seals an unlocked vault with the gate open again |
| VaultRuns.EndedRunsAreAccounted | src-tauri/src/cloud_bridge.rs:408-434 | in every interleaving: how often a path itself closed SSH for each result, and that after Sealed or Err the generation has moved since its call |
| VaultRuns.OneExitActs | src-tauri/src/vault_lifecycle_coordinator.rs:131-134 | of any racing exit requests at most one does anything |
| VaultRuns.OnlyNotifyOpensCutoff | src-tauri/src/security_cutoff.rs:42-54 | the cutoff opens again only by an unlock notification |
| VaultRuns.UndisturbedPathIsOneCall | src-tauri/src/vault_lifecycle_coordinator.rs:66-127 | the steps of any path that nothing disturbs, exit, logout and bare seal included, end in the state and result of its single operation |
| VaultRuns.UndisturbedPathGoesThrough | src-tauri/src/vault/mod.rs:872-951 | with the gate free each of these steps can be taken in its turn |
| VaultRuns.UserLockComparesItsReading | src-tauri/src/cloud_bridge.rs:408-434 | the generation a user lock compares with in the end is the one it read itself at its first step |
| ObserverLatch.LockAfterFailureIsFinal | src-tauri/src/vault_os_sleep.rs:84-114 | in every interleaving the cutoff stays locked once the lock after an observer failure is done |
| ObserverLatch.UndisturbedNotify | src-tauri/src/vault_os_sleep.rs:96-114 | the steps of an undisturbed notification open the cutoff exactly while the observers are healthy |
| ObserverLatch.UndisturbedMark | src-tauri/src/vault_os_sleep.rs:86-92 | the steps of an undisturbed failure close the latch and lock the cutoff |
| ObserverLatch.ObserverHealth.NotifyVaultUnlocked | src-tauri/src/cloud_bridge.rs:367-377 | the cutoff opens exactly while the observers are healthy |
| ObserverLatch.ObserverHealth.MarkUnhealthyThenLock | src-tauri/src/vault_os_sleep.rs:86-94 | the latch closes for good and the cutoff is locked |
| Transport.CommandsAnsweredInOrder | src-tauri/src/local_ssh/transport.rs:733-916 | commands are answered once each in queue order, first Ok to exactly those the channel carried out, then TransportClosed only |
| Transport.ClosedOnceAndLast | src-tauri/src/local_ssh/transport.rs:397-401 | at its end a session closes the channel, disconnects and emits Closed, each once, Closed last |
| Transport.PeerDataIsShown | src-tauri/src/local_ssh/transport.rs:809-817 | over every session the outputs other than Closed are, one for one and in order, the bytes of the data messages taken, extended data with its code |
| Transport.TurnDecides | src-tauri/src/local_ssh/transport.rs:733-916 | exactly when a turn takes a message, takes a command and leaves the loop, what it answers and carries out, and that a loop that is left has answered all that was queued before |
| Transport.CommandBypassIsBounded | src-tauri/src/local_ssh/transport.rs:733-760 | a command with k ahead of it waits for at most 8 * (k + 1) peer messages |
| Transport.BypassIsBounded | src-tauri/src/local_ssh/transport.rs:126-163 | under any schedule a ready command is passed by at most max_burst peers and a ready peer by at most one command |
| Transport.PlansDisconnectOnce | src-tauri/src/local_ssh/transport.rs:183-203 | over any failures planned on one state at most one disconnects, and a plan closes the channel exactly when it is open |
| Transport.FailedSetupCleansUp | src-tauri/src/local_ssh/transport.rs:545-705 | a failed setup disconnects, closes the channel exactly when it was opened, emits nothing and reports its error last |
| Transport.CleanupHappensOnce | src-tauri/src/local_ssh/transport.rs:535-916 | over every setup and session at most one channel close, then at most one disconnect, and nothing after Closed |
| Transport.CallerLearnsOutcome | src-tauri/src/local_ssh/transport.rs:290-333 | a caller is told Ok only of a command carried out, and does not wait once the receiver is gone |
| Transport.AwaitAck | src-tauri/src/local_ssh/transport.rs:313-333 | waits exactly while polls are empty and uncancelled; Ok exactly when the first poll that ends the wait is an Ok answer without a cancel before it |
| Transport.TransportActor.TrySend | src-tauri/src/local_ssh/transport.rs:294-311 | a full queue refuses with CommandQueueFull, a dropped receiver with TransportClosed, otherwise the command goes last |
| Transport.TransportActor.Drain | src-tauri/src/local_ssh/transport.rs:709-711 | everything queued, and submitted while draining, is refused in order |
| Transport.TransportActor.RunTransportLoop | src-tauri/src/local_ssh/transport.rs:535-916 | setup and select loop do to queue, replies, output and connection what the specification functions say; the terminal gets every data message taken; which error each failed setup returns |
| HostKey.NamespaceSeparatesOwners | src-tauri/src/local_ssh/connect.rs:165-185 | different tenants or subjects never share the hashed namespace text |
| HostKey.EffectsInOrder | src-tauri/src/local_ssh/connect.rs:202-270 | a check's effects are a prefix of the promised order that stops at the first failure, and it is accepted only at the end of it |
| HostKey.AcceptedExactly | src-tauri/src/local_ssh/connect.rs:202-270 | exactly when a check accepts, in terms of its inputs and of trimming as such, and what it pins |
| HostKey.RefusedBecause | src-tauri/src/local_ssh/connect.rs:211-250 | which error a refused check gives |
| HostKey.NamespaceIs | src-tauri/src/local_ssh/connect.rs:164-185 | exactly which principals and server ids have a namespace, and its text |
| Text.TrimIsUnique | src-tauri/src/local_ssh/connect.rs:213-214 | trimming is the one way to drop all whitespace at both ends and nothing else |
| Text.BlankIsWhitespace | src-tauri/src/auth/session.rs:271-284 | a field counts as empty exactly when it is all whitespace |
| HostKey.AcceptedKeysAgree | src-tauri/src/local_ssh/connect.rs:378-409 | all keys accepted over a connection's life have the same trimmed type and fingerprint, the pinned one's if there was one |
| HostKey.AskedInFirstCheckOnly | src-tauri/src/local_ssh/connect.rs:275-300 | the user and the cloud are asked at most once, in the first check only, and never for a pinned key |
| HostKey.RecordsFollowCloudWrite | src-tauri/src/local_ssh/connect.rs:237-268 | known hosts is written only right after a successful revalidation, and without a pin only after a successful cloud write of that key |
| HostKey.FirstCheckDecides | src-tauri/src/local_ssh/connect.rs:378-409 | an unpinned connection is pinned exactly by an accepted first check; if that fails no later check is accepted |
| HostKey.PinStays | src-tauri/src/local_ssh/connect.rs:262-267 | a pin never changes |
| HostKey.HostKeyPolicyHandler.ApplyPresented | src-tauri/src/local_ssh/connect.rs:378-409 | one check empties the bearer slot and updates policy and effects as specified |
| HandleOwnership.HandleHasOneOwner | src-tauri/src/local_ssh/connect.rs:627-702 | the handle is in the slot, with one closer, or with the transport, and at most one disconnect is ever counted |
| HandleOwnership.OutcomeIsFinal | src-tauri/src/local_ssh/connect.rs:694-702 | whoever got the handle keeps it, whoever went empty stays empty |
| HandleOwnership.UndisturbedCall | src-tauri/src/local_ssh/connect.rs:627-702 | the steps of the first undisturbed caller get the handle, and a closer counts its disconnect; later callers go empty |
| HandleOwnership.RestHasOneOwner | src-tauri/src/local_ssh/connect.rs:627-702 | once callers have returned exactly one of them had the handle |
| HandleOwnership.EstablishedLocalSsh.TakeHandleForTransport | src-tauri/src/local_ssh/connect.rs:694-702 | hands the handle over exactly when nothing closed it before, and counts no disconnect |
| JsonGraph.AcceptsMeansGraph | src/cloud/invoke-operation.ts:72-128 | the check accepts exactly graphs of arrays and plain objects with JSON leaves and no reachable cycle; sharing is accepted |
| JsonGraph.AcceptsMeansJson | src/cloud/invoke-operation.ts:63-71 | the check accepts exactly the values that can be written out as one finite JSON tree |
| JsonGraph.JsonCheck.IsJsonValue | src/cloud/invoke-operation.ts:72-128 | terminates on every heap, restores the path stack whatever the outcome, and returns true exactly for accepted values |
| JsonGraph.IsJsonObject | src/cloud/invoke-operation.ts:135-144 | true exactly for plain-object roots of such graphs; a throwing getter counts as false |
| Percent.DecodeEncode | src-tauri/src/cloud_transport/client.rs:660-678 | decoding takes back every encoded byte string |
| Percent.EncodeAlphabet | src-tauri/src/cloud_transport/client.rs:716-732 | encoded text holds no delimiter |
| Percent.EscapesAreWhole | src-tauri/src/cloud_transport/client.rs:723-728 | every percent sign in encoded text starts an escape of two upper-case hex digits |
| Percent.OctetIsPlainOrEscaped | src-tauri/src/cloud_transport/client.rs:716-732 | letters, digits and four marks stand for themselves, every other byte becomes the two digits of its value |
| Percent.DecodeMeans | src-tauri/src/cloud_transport/client.rs:660-678 | an escape of two digits in either case gives its byte, anything else stands for itself |
| Percent.PercentEncodeComponent | src-tauri/src/auth/pkce.rs:67-78 | the loop computes the encoding, byte by byte |
| Percent.PercentDecodeLenient | src-tauri/src/cloud_transport/client.rs:660-678 | the loop computes the lenient decoding, ill-formed UTF-8 replaced at its end |
| Utf8.LossyIsWellFormed | src-tauri/src/cloud_transport/client.rs:677 | what `from_utf8_lossy` returns is well-formed UTF-8 |
| Utf8.LossyKeepsWellFormed | src-tauri/src/cloud_transport/client.rs:677 | it leaves well-formed text as it is |
| Utf8.LossyContains | src-tauri/src/cloud_transport/client.rs:620-633 | a search for an ASCII pattern answers the same before and after the replacement |
| Utf8.LossyControl | src-tauri/src/cloud_transport/client.rs:628 | so does the search for a control character, C1 included |
| Utf8Chars.WellFormedIsEncoded | src-tauri/src/cloud_transport/client.rs:677 | a byte string is well-formed exactly when it is the UTF-8 of some string |
| Utf8Chars.ByteTestsSeeCharacters | src-tauri/src/cloud_transport/client.rs:456 | the byte tests for whitespace and controls are the tests for the characters of these classes |
| UrlPath.PathRoundTrip | src-tauri/src/cloud_transport/client.rs:689-713 | exactly when a template fills, and then: same segments, literals unchanged, no dot segment, every placeholder decodes to its value |
| UrlPath.MaterializedIsClean | src-tauri/src/cloud_transport/client.rs:689-713 | for any template: no brace, backslash or dot segment in a finished path, and no other reason to refuse it |
| UrlPath.QueryRoundTrip | src-tauri/src/cloud_transport/client.rs:543-554 | a built query reads back as exactly its pairs |
| UrlPath.MaterializePath | src-tauri/src/cloud_transport/client.rs:689-713 | the expansion loop and its final checks, for any template |
| Request.AcceptedValueStaysOneSegment | src-tauri/src/cloud_transport/client.rs:599-635 | an accepted path value has no separator, dot segment or NUL as it stands and after one or two further decodings |
| Request.PathValueMeans | src-tauri/src/cloud_transport/client.rs:599-635 | exactly which path values are accepted: nothing suspect in them as they stand or decoded once |
| Request.QueryValueMeans | src-tauri/src/cloud_transport/client.rs:637-650 | exactly which query values are refused, and how |
| Request.SlugsPass | src-tauri/src/cloud_transport/client.rs:599-650 | ASCII letters, digits, minus and underscore are never refused in a path or query |
| Request.KeyAllowedMeans | src-tauri/src/cloud_transport/client.rs:478-487 | a key is refused exactly when it is, letter case apart, a listed key, one with dashes for underscores, or a natively owned field |
| Request.TransportKeysAreForbidden | src-tauri/src/cloud_transport/client.rs:392-410 | for instance Authorization and Access-Token |
| Request.BearerMeans | src-tauri/src/cloud_transport/client.rs:439-460 | exactly which bearers are accepted |
| Request.BuildableMeans | src-tauri/src/cloud_transport/client.rs:478-539 | exactly what a request needs of keys, values, path parameters and finished path |
| Request.ReplacementHidesNothing | src-tauri/src/cloud_transport/client.rs:620-633 | the tests on the decoded value answer the same before and after the replacement of ill-formed UTF-8 |
| Request.RequestRoundTrip | src-tauri/src/cloud_transport/client.rs:463-589 | a built URL is the fixed origin, the template's path with the inputs in it, and a query that reads back as exactly the input's query fields, each once |
| Request.BodyIsInputAndFixed | src-tauri/src/cloud_transport/client.rs:558-570 | the body holds the natively owned fields with their own values and otherwise exactly the input's body fields |
| Request.BuildRequest | src-tauri/src/cloud_transport/client.rs:439-589 | exactly when a request is built, and its method, URL, Authorization header, JSON flag and body; the bearer is checked first and sent only where it is asked for |
| AuthorizeUrl.BuildAuthorizeUrl | src-tauri/src/auth/mod.rs:172-219 | built exactly from a usable configuration, on the fixed endpoint, with a query that reads back as the seven parameters |
| AuthorizeUrl.ScopesMean | src-tauri/src/auth/mod.rs:194-198 | the scopes are the configured ones with one space between two, or the default ones |
| Base64Url.EncodeIsBijective | src-tauri/src/auth/pkce.rs:20-43 | encoding is one-to-one onto the canonical texts |
| Base64Url.DecodeEncode | src-tauri/src/auth/pkce.rs:20-43 | decoding takes back every encoded byte string |
| Base64Url.EncodeDecode | src-tauri/src/auth/pkce.rs:20-43 | encoding takes back every canonical text |
| Base64Url.EncodeShape | src-tauri/src/auth/pkce.rs:20-43 | length 4 * (n / 3) plus 0, 2 or 3, alphabet characters only |
| Base64Url.SessionIdsDiffer | src-tauri/src/local_ssh/session.rs:488-496 | distinct 32-byte buffers give distinct 43-character ids |
| Base64Url.Base64UrlNoPad | src-tauri/src/auth/pkce.rs:20-43 | the loop computes the encoding |
| JsonString.ParseJsonText | src-tauri/src/auth/http.rs:51-69 | the written text is one JSON string that ends where it should, whatever follows |
| JsonString.RoundTripIffNoC1 | src-tauri/src/auth/http.rs:51-69 | it reads back as the string exactly when that has no U+0080 to U+009F |
| JsonString.NextLineIsLost | src-tauri/src/auth/http.rs:60-64 | a string that does not read back |
| JsonString.BodyReadsBack | src-tauri/src/auth/http.rs:33-48 | the exchange body is one object with exactly its three members, and when their values are the request's own |
| JsonString.ToJsonBytes | src-tauri/src/auth/http.rs:33-48 | writes exactly the specified body |
| JsonString.PushJsonString | src-tauri/src/auth/http.rs:51-69 | the loop writes the specified text |
| Sanitize.DistinctMeansNoRepeatAnywhere | src-tauri/src/cloud_transport/sanitize.rs:161-171 | distinct keys along the decoder's recursion are distinct keys at every path |
| Sanitize.Decode | src-tauri/src/cloud_transport/sanitize.rs:153-171 | a response is decoded, unchanged, exactly when no object at any path repeats a key |
| Sanitize.SanitizeRemovesExactlySecrets | src-tauri/src/cloud_transport/sanitize.rs:39-76 | exactly what lies under keys that spell a listed name is gone, at every depth; everything else is where it was |
| Sanitize.KeysMatchLoosely | src-tauri/src/cloud_transport/sanitize.rs:39-49 | a character that is no ASCII letter or digit does not change whether a key is stripped, nor does lowering one |
| Sanitize.StrippedMeansSpelled | src-tauri/src/cloud_transport/sanitize.rs:39-49 | a key is stripped exactly when its ASCII letters and digits spell a listed name, each letter in either case |
| Sanitize.CaseDoesNotMatter | src-tauri/src/cloud_transport/sanitize.rs:42 | putting one letter of a key in upper case does not change whether it is stripped |
| Sanitize.ListedNamesAreStripped | src-tauri/src/cloud_transport/sanitize.rs:46-49 | every listed name is itself stripped |
| Sanitize.KnownSpellings | src-tauri/src/cloud_transport/sanitize.rs:8-37 | accessToken, refresh_token, Password and others are stripped; username, endpoint, token_usage, password_policy and private_key_status are kept |
| Sanitize.SanitizeIsIdempotent | src-tauri/src/cloud_transport/sanitize.rs:53-76 | a second pass changes nothing |
| Sanitize.SanitizeValue | src-tauri/src/cloud_transport/sanitize.rs:53-63 | the recursive pass over arrays and objects computes the sanitized value |
| Sanitize.SanitizeObject | src-tauri/src/cloud_transport/sanitize.rs:65-76 | removing and replacing members one key at a time computes the sanitized members |
| Sanitize.SanitizeResponse | src-tauri/src/cloud_transport/sanitize.rs:83-88 | decoding and sanitizing together: accepted exactly without repeats, and then exactly what lies under keys that spell a listed name is gone |

## Left out

- Foreign code: russh, TCP, TLS, reqwest, Stronghold, SHA-256, the URL parser and serde_json's text parsing. What it answers is a parameter or an action that may go either way.
- Real time: deadlines are instants that are compared, and timers are actions that may happen at any time.
- Machine integers: epochs, generations and watermarks are unbounded; the wrap-around of the u64 counters is not modelled. The u32 counters of the transport saturate as in the code.
- Mutex poisoning, except in the auth store as a 401, a logout or a session install meets it.
- `parse_deep_link`, `has_malformed_percent` and `validate_logto_endpoint`: a callback arrives with its parsed parameters and an endpoint with its verdict.
- `list_for_current` of the registry, `perform_session_status`, and the error-code mappings: single reads without a property beyond their bodies.
- The vault's claim protocol in src-tauri/src/vault/mod.rs: how a claim of the sealing gate ends is an input of each seal; the seal entry points themselves are modelled.
- `finalize_vault_unlock` in src-tauri/src/lib.rs except for what its exits do to cutoff and vault, and the OS observers behind the latch.
- `FsLocalKnownHosts`, the disconnect worker thread and the prompt window: input and output.
- The field validators of src-tauri/src/local_ssh/prepare.rs, HTTP size limits, and the generated operation table: `Request` takes any spec.
- The vault operations that the binding checks guard (import, list, delete, lease, unlock): only the checks themselves and the seal they end in are modelled.
- VaultLifecycle.SealOutcome: describes operations one at a time, other threads entering only as an overtaking sealer and as SSH closes during a user lock; what survives interleaving is stated in VaultRuns.
- SessionRegistry.LocalSshSessionManager.Authorize: the second reads of auth, vault and SSH generation after the drain are inputs of the call.
- Request.BuildRequest: the order of query parameters is the order of the input's entries, which is ascending by key in the default JSON map, and the body is a map, not its text.
- Sanitize.SanitizeValue: works on values in and out; a JSON tree has no aliasing, so only the update in place is not captured. Objects keep the order of the text, which the map type of the code does not promise.
- JsonGraph.JsonCheck.IsJsonValue: the heap does not change during the check, so getters that answer differently each time and proxies are not modelled.
