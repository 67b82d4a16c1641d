// src-tauri/src/cloud_transport/lifecycle.rs with the production hooks of
// src-tauri/src/cloud_bridge.rs: what a 401 for one auth epoch does, and why two
// watermarks are enough to do it once per epoch.
module Invalidation {
  import opened Wrappers
  import opened LocalSsh
  import opened AuthSession
  import opened VaultLifecycle

  datatype Control = Control(cancelVersion: nat, cancelledThrough: nat, globalCancelGen: nat, doneThrough: nat)

  const NEW_CONTROL := Control(1, 0, 0, 0)

  datatype WaitToken = WaitToken(authEpoch: Option<nat>, startGlobal: nat)

  function Max(a: nat, b: nat): nat {
    if a < b then b else a
  }

  // cancel_auth_epoch
  function EpochCancelled(c: Control, epoch: nat): Control {
    c.(cancelledThrough := Max(c.cancelledThrough, epoch), cancelVersion := c.cancelVersion + 1)
  }

  // cancel_all
  function AllCancelled(c: Control): Control {
    c.(globalCancelGen := c.globalCancelGen + 1, cancelVersion := c.cancelVersion + 1)
  }

  // is_cancelled_token
  predicate IsCancelled(c: Control, token: WaitToken) {
    c.globalCancelGen != token.startGlobal || (token.authEpoch.Some? && c.cancelledThrough >= token.authEpoch.value)
  }

  // A hook call.
  datatype Hook = TryClear(epoch: nat) | CloseSsh | LockVault | Emit

  datatype World = World(control: Control, mem: AuthMemory, security: Security, hooks: seq<Hook>)

  // One 401 and what its hooks meet: a poisoned auth mutex, and whether the vault's
  // seal is granted.
  datatype Request = Request(epoch: nat, poisoned: bool, claimed: bool)

  predicate AppliesCutoffs(m: AuthMemory, req: Request) {
    req.poisoned || ClearsEpoch(m, req.epoch)
  }

  predicate Deduplicated(w: World, req: Request) {
    w.control.doneThrough >= req.epoch
  }

  function Run401(w: World, req: Request): World {
    var cancelled := EpochCancelled(w.control, req.epoch);
    if Deduplicated(w, req) then w.(control := cancelled)
    else
      World(cancelled.(doneThrough := req.epoch),
            if req.poisoned then w.mem else ReauthMarkedIfEpoch(w.mem, req.epoch),
            if AppliesCutoffs(w.mem, req) then CutAndSeal(w.security, req.claimed) else w.security,
            w.hooks + [TryClear(req.epoch)] + if AppliesCutoffs(w.mem, req) then [CloseSsh, LockVault, Emit] else [])
  }

  function Run401s(w: World, reqs: seq<Request>): World {
    if reqs == [] then w else Run401(Run401s(w, reqs[..|reqs| - 1]), reqs[|reqs| - 1])
  }

  // Whether the body runs for the i-th of a sequence of 401s.
  predicate Executes(w: World, reqs: seq<Request>, i: nat)
    requires i < |reqs|
  {
    !Deduplicated(Run401s(w, reqs[..i]), reqs[i])
  }

  lemma {:induction false} WatermarksAreMaxima(w: World, reqs: seq<Request>, i: nat)
    requires w.control.doneThrough <= w.control.cancelledThrough
    requires i < |reqs|
    ensures var c := Run401s(w, reqs).control;
            c.doneThrough >= reqs[i].epoch && c.cancelledThrough >= c.doneThrough >= w.control.doneThrough
  {
    var init := reqs[..|reqs| - 1];
    if i < |init| {
      assert init[i] == reqs[i];
      WatermarksAreMaxima(w, init, i);
    } else if init != [] {
      WatermarksAreMaxima(w, init, 0);
    }
  }

  lemma {:induction false} DoneThroughIsReached(w: World, reqs: seq<Request>)
    ensures var d := Run401s(w, reqs).control.doneThrough;
            d == w.control.doneThrough || exists i :: 0 <= i < |reqs| && reqs[i].epoch == d
  {
    if reqs != [] {
      var init := reqs[..|reqs| - 1];
      DoneThroughIsReached(w, init);
      var d := Run401s(w, init).control.doneThrough;
      if i :| 0 <= i < |init| && init[i].epoch == d {
        assert reqs[i].epoch == d;
      }
    }
  }

  // The body runs exactly for the left-to-right strict maxima above 0, so one
  // watermark does the work of a set of epochs: a stale or repeated epoch never
  // runs it again and a newer one always does.
  lemma BodyRunsForStrictMaxima(w: World, reqs: seq<Request>, i: nat)
    requires w.control == NEW_CONTROL && i < |reqs|
    ensures Executes(w, reqs, i) <==> reqs[i].epoch > 0 && forall j :: 0 <= j < i ==> reqs[j].epoch < reqs[i].epoch
  {
    var before := reqs[..i];
    assert forall j :: 0 <= j < i ==> before[j] == reqs[j];
    DoneThroughIsReached(w, before);
    forall j | 0 <= j < i ensures Run401s(w, before).control.doneThrough >= reqs[j].epoch {
      WatermarksAreMaxima(w, before, j);
    }
  }

  // A run of hook calls in the promised order for one 401.
  predicate HookBlock(block: seq<Hook>, epoch: nat) {
    block == [TryClear(epoch)] || block == [TryClear(epoch), CloseSsh, LockVault, Emit]
  }

  // The hook calls of any sequence of 401s are, one block per executed body and in
  // the order of the 401s, clear and then either nothing or SSH, vault, emit.
  ghost predicate HooksInBlocks(hooks: seq<Hook>, epochs: seq<nat>) {
    if epochs == [] then hooks == []
    else exists k :: 0 <= k <= |hooks| && HookBlock(hooks[k..], epochs[|epochs| - 1])
                     && HooksInBlocks(hooks[..k], epochs[..|epochs| - 1])
  }

  function ExecutedEpochs(w: World, reqs: seq<Request>): seq<nat> {
    if reqs == [] then []
    else
      var init := reqs[..|reqs| - 1];
      ExecutedEpochs(w, init)
        + if Deduplicated(Run401s(w, init), reqs[|reqs| - 1]) then [] else [reqs[|reqs| - 1].epoch]
  }

  lemma {:induction false} HooksKeepOrder(w: World, reqs: seq<Request>)
    requires w.hooks == []
    ensures HooksInBlocks(Run401s(w, reqs).hooks, ExecutedEpochs(w, reqs))
  {
    if reqs != [] {
      var init, last := reqs[..|reqs| - 1], reqs[|reqs| - 1];
      HooksKeepOrder(w, init);
      var before, after := Run401s(w, init), Run401s(w, reqs);
      var epochs := ExecutedEpochs(w, init);
      if Deduplicated(before, last) {
        assert ExecutedEpochs(w, reqs) == epochs;
      } else {
        var k := |before.hooks|;
        assert after.hooks[..k] == before.hooks;
        assert HookBlock(after.hooks[k..], last.epoch);
        assert (epochs + [last.epoch])[..|epochs|] == epochs;
      }
    }
  }

  // What one 401 changes beside the watermarks. A deduplicated one changes nothing; the
  // body takes the session of its epoch, and the cutoffs come exactly when it did or when
  // the store cannot be trusted.
  lemma Run401Effects(w: World, req: Request)
    ensures var w' := Run401(w, req);
            var ran := req.epoch > w.control.doneThrough;
            var cut := ran && (req.poisoned || (w.mem.sessionEpoch == req.epoch && w.mem.session.Some?));
            && w'.hooks == w.hooks + (if cut then [TryClear(req.epoch), CloseSsh, LockVault, Emit]
                                      else if ran then [TryClear(req.epoch)] else [])
            && w'.security.sshGeneration == w.security.sshGeneration + (if cut then 1 else 0)
            && (cut ==> w'.security.cutoffLocked && w'.security.unlockedFor == (if req.claimed then None else w.security.unlockedFor)
                        && w'.security.events == w.security.events + CutEvents(w.security.sshGeneration + 1, req.claimed))
            && (!cut ==> w'.security == w.security)
            && (cut && !req.poisoned ==>
                  && w'.mem.session.None? && w'.mem.pending.None? && w'.mem.reauthRequired
                  && w'.mem.sessionEpoch == w.mem.sessionEpoch + 1 && w'.mem.usedStates == w.mem.usedStates)
            && (!cut || req.poisoned ==> w'.mem == w.mem)
            && w'.control.doneThrough == (if ran then req.epoch else w.control.doneThrough)
            && w'.control.globalCancelGen == w.control.globalCancelGen
  {
    CutAndSealInOrder(w.security, req.claimed);
    hide CutAndSeal;
    assert [TryClear(req.epoch)] + [CloseSsh, LockVault, Emit] == [TryClear(req.epoch), CloseSsh, LockVault, Emit];
  }

  // ---- logout and session install ----

  // perform_secure_logout. The cutoffs come whether or not the auth store answers.
  function SecureLogout(w: World, poisoned: bool, claimed: bool): World {
    World(AllCancelled(w.control), if poisoned then w.mem else LoggedOut(w.mem), CutAndSeal(w.security, claimed), w.hooks)
  }

  // on_successful_session_install: older epochs are cancelled, then the cutoffs.
  function SessionInstallCut(w: World, poisoned: bool, claimed: bool): World {
    var login := if poisoned then None else BindingOf(w.mem);
    w.(control := if login.Some? && login.value.epoch > 0 then EpochCancelled(w.control, login.value.epoch - 1) else w.control,
       security := CutAndSeal(w.security, claimed))
  }

  // A logout cancels every call made before it, ends the login unless the store is
  // poisoned, and in either case moves the SSH generation, locks the gate and, when the
  // seal is granted, leaves the vault locked.
  lemma SecureLogoutEndsAuthority(w: World, poisoned: bool, claimed: bool, token: WaitToken)
    requires token.startGlobal <= w.control.globalCancelGen
    ensures var w' := SecureLogout(w, poisoned, claimed);
            && IsCancelled(w'.control, token) && (!poisoned ==> BindingOf(w'.mem).None?)
            && (poisoned ==> w'.mem == w.mem)
            && (!poisoned ==> w'.mem.session.None? && w'.mem.pending.None? && !w'.mem.reauthRequired
                              && w'.mem.sessionEpoch == w.mem.sessionEpoch + 1)
            && w'.security.sshGeneration == w.security.sshGeneration + 1 && w'.security.cutoffLocked
            && w'.security.unlockedFor == (if claimed then None else w.security.unlockedFor)
            && w'.security.events == w.security.events + CutEvents(w.security.sshGeneration + 1, claimed)
            && w'.hooks == w.hooks
  {
    CutAndSealInOrder(w.security, claimed);
    hide PrincipalOf, CutAndSeal;
  }

  // A session install cancels exactly the calls of older logins: a call of the new one
  // stays uncancelled if the watermark had not reached its epoch.
  lemma SessionInstallCancelsOlder(w: World, claimed: bool, epoch: nat)
    requires BindingOf(w.mem).Some? && w.control.cancelledThrough < BindingOf(w.mem).value.epoch
    ensures var login, w' := BindingOf(w.mem).value, SessionInstallCut(w, false, claimed);
            IsCancelled(w'.control, WaitToken(Some(epoch), w.control.globalCancelGen)) <==> epoch < login.epoch
  {
    hide PrincipalOf;
  }

  // An install also ends the SSH authority of the login before it, poisoned store or not:
  // no SSH generation handed out earlier stays valid, the gate is locked and, when the seal
  // is granted, so is the vault. The new login itself is not touched.
  lemma SessionInstallEndsOldAuthority(w: World, poisoned: bool, claimed: bool, captured: nat)
    requires captured <= w.security.sshGeneration
    ensures var w' := SessionInstallCut(w, poisoned, claimed);
            && w'.security.sshGeneration == w.security.sshGeneration + 1 && captured != w'.security.sshGeneration
            && w'.security.cutoffLocked && w'.security.unlockedFor == (if claimed then None else w.security.unlockedFor)
            && w'.security.events == w.security.events + CutEvents(w.security.sshGeneration + 1, claimed)
            && w'.mem == w.mem && BindingOf(w'.mem) == BindingOf(w.mem) && w'.hooks == w.hooks
  {
    CutAndSealInOrder(w.security, claimed);
    hide PrincipalOf, CutAndSeal;
  }

  class InvalidationControl {
    var cancelVersion: nat
    var cancelledThrough: nat
    var globalCancelGen: nat
    var doneThrough: nat

    function View(): Control
      reads this
    {
      Control(cancelVersion, cancelledThrough, globalCancelGen, doneThrough)
    }

    constructor ()
      ensures View() == NEW_CONTROL
    {
      cancelVersion, cancelledThrough, globalCancelGen, doneThrough := 1, 0, 0, 0;
    }

    method CancelAuthEpoch(epoch: nat)
      modifies this
      ensures View() == EpochCancelled(old(View()), epoch)
      ensures cancelVersion == old(cancelVersion) + 1 && unchanged(`globalCancelGen) && unchanged(`doneThrough)
      ensures cancelledThrough == if epoch > old(cancelledThrough) then epoch else old(cancelledThrough)
    {
      cancelledThrough := Max(cancelledThrough, epoch);
      cancelVersion := cancelVersion + 1;
    }

    method CancelAll()
      modifies this
      ensures View() == AllCancelled(old(View()))
      ensures cancelVersion == old(cancelVersion) + 1 && globalCancelGen == old(globalCancelGen) + 1
      ensures unchanged(`cancelledThrough) && unchanged(`doneThrough)
    {
      globalCancelGen := globalCancelGen + 1;
      cancelVersion := cancelVersion + 1;
    }

    method IsCancelledToken(token: WaitToken) returns (cancelled: bool)
      ensures cancelled == IsCancelled(View(), token)
    {
      if globalCancelGen != token.startGlobal {
        return true;
      }
      match token.authEpoch
      case None => return false;
      case Some(epoch) => return cancelledThrough >= epoch;
    }

    // run_401_for_auth_epoch, the lifecycle lock held throughout.
    method RunFor401(hooks: ProductionHooks, req: Request) returns (ran: bool)
      modifies this, hooks`calls, hooks.auth, hooks.cutoff, hooks.vault
      ensures WorldOf(this, hooks) == Run401(old(WorldOf(this, hooks)), req)
      ensures ran <==> !Deduplicated(old(WorldOf(this, hooks)), req)
      ensures cancelVersion == old(cancelVersion) + 1 && unchanged(`globalCancelGen)
      ensures cancelledThrough == if req.epoch > old(cancelledThrough) then req.epoch else old(cancelledThrough)
      ensures ran <==> req.epoch > old(doneThrough)
      ensures doneThrough == if ran then req.epoch else old(doneThrough)
    {
      if doneThrough >= req.epoch {
        CancelAuthEpoch(req.epoch);
        return false;
      }
      CancelAuthEpoch(req.epoch);
      var cleared := hooks.TryClearAuthForEpoch(req);
      var applyCutoffs := cleared.Err? || cleared.value;
      if applyCutoffs {
        hooks.CloseAllSsh();
        hooks.LockTheVault(req.claimed);
        hooks.EmitSessionInvalidated();
      }
      doneThrough := Max(doneThrough, req.epoch);
      return true;
    }
  }

  // ProductionLifecycleHooks
  class ProductionHooks {
    const auth: AuthStore
    const cutoff: SecurityCutoff
    const vault: VaultService
    var calls: seq<Hook>

    constructor (auth: AuthStore, cutoff: SecurityCutoff, vault: VaultService)
      ensures this.auth == auth && this.cutoff == cutoff && this.vault == vault && calls == []
    {
      this.auth, this.cutoff, this.vault, calls := auth, cutoff, vault, [];
    }

    method TryClearAuthForEpoch(req: Request) returns (r: Result<bool, ()>)
      modifies this`calls, auth
      ensures calls == old(calls) + [TryClear(req.epoch)]
      ensures r == if req.poisoned then Err(()) else Ok(ClearsEpoch(old(auth.Memory()), req.epoch))
      ensures auth.Memory()
           == if req.poisoned then old(auth.Memory()) else ReauthMarkedIfEpoch(old(auth.Memory()), req.epoch)
    {
      calls := calls + [TryClear(req.epoch)];
      if req.poisoned {
        return Err(());
      }
      var cleared := auth.MarkReauthRequiredIfEpoch(req.epoch);
      return Ok(cleared);
    }

    method CloseAllSsh()
      modifies this`calls, cutoff
      ensures calls == old(calls) + [CloseSsh]
      ensures SecurityOf(cutoff, vault) == SshClosedOnce(old(SecurityOf(cutoff, vault)))
    {
      calls := calls + [CloseSsh];
      var _ := cutoff.CloseAllSsh();
    }

    method LockTheVault(claimed: bool)
      modifies this`calls, cutoff, vault
      ensures calls == old(calls) + [LockVault]
      ensures var locked := Locked(old(SecurityOf(cutoff, vault)));
              SecurityOf(cutoff, vault) == if claimed then SealedVault(SessionsClosedFor(locked)) else locked
    {
      calls := calls + [LockVault];
      cutoff.LockVault();
      vault.LockWithReason(cutoff, claimed);
    }

    method EmitSessionInvalidated()
      modifies this`calls
      ensures calls == old(calls) + [Emit]
    {
      calls := calls + [Emit];
    }
  }

  class CloudBridge {
    const control: InvalidationControl
    const hooks: ProductionHooks

    constructor (control: InvalidationControl, hooks: ProductionHooks)
      ensures this.control == control && this.hooks == hooks
    {
      this.control, this.hooks := control, hooks;
    }

    // SSH, gate, vault: what logout and session install end with.
    method CutAuthority(claimed: bool)
      modifies hooks.cutoff, hooks.vault
      ensures SecurityOf(hooks.cutoff, hooks.vault) == CutAndSeal(old(SecurityOf(hooks.cutoff, hooks.vault)), claimed)
      ensures hooks.cutoff.sshGeneration == old(hooks.cutoff.sshGeneration) + 1 && hooks.cutoff.vaultLocked
      ensures claimed ==> hooks.vault.unlockedFor.None?
    {
      var _ := hooks.cutoff.CloseAllSsh();
      hooks.cutoff.LockVault();
      hooks.vault.LockWithReason(hooks.cutoff, claimed);
    }

    method PerformSecureLogout(poisoned: bool, claimed: bool) returns (r: Result<(), ()>)
      modifies control, hooks.auth, hooks.cutoff, hooks.vault
      ensures WorldOf(control, hooks) == SecureLogout(old(WorldOf(control, hooks)), poisoned, claimed)
      ensures r.Err? <==> poisoned
      ensures control.cancelVersion > old(control.cancelVersion)
      ensures hooks.cutoff.sshGeneration == old(hooks.cutoff.sshGeneration) + 1 && hooks.cutoff.vaultLocked
      ensures claimed ==> hooks.vault.unlockedFor.None?
    {
      hide CutAndSeal, LoggedOut;
      control.CancelAll();
      r := if poisoned then Err(()) else Ok(());
      if !poisoned {
        hooks.auth.PerformLogout();
      }
      CutAuthority(claimed);
    }

    method OnSuccessfulSessionInstall(poisoned: bool, claimed: bool)
      modifies control, hooks.cutoff, hooks.vault
      ensures WorldOf(control, hooks) == SessionInstallCut(old(WorldOf(control, hooks)), poisoned, claimed)
      ensures hooks.cutoff.sshGeneration == old(hooks.cutoff.sshGeneration) + 1 && hooks.cutoff.vaultLocked
      ensures claimed ==> hooks.vault.unlockedFor.None?
    {
      hide CutAndSeal, PrincipalOf, BindingOf;
      var login := None;
      if !poisoned {
        login := hooks.auth.NativeAuthBinding();
      }
      if login.Some? && login.value.epoch > 0 {
        control.CancelAuthEpoch(login.value.epoch - 1);
      }
      CutAuthority(claimed);
    }
  }

  function WorldOf(control: InvalidationControl, hooks: ProductionHooks): World
    reads control, hooks, hooks.auth, hooks.cutoff, hooks.vault
  {
    World(control.View(), hooks.auth.Memory(), SecurityOf(hooks.cutoff, hooks.vault), hooks.calls)
  }
}
