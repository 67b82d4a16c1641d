// src-tauri/src/security_cutoff.rs, the seal entry points of src-tauri/src/vault/mod.rs,
// src-tauri/src/vault_lifecycle_coordinator.rs and the vault paths of
// src-tauri/src/cloud_bridge.rs. Functions give what each operation does to the
// security state; the classes below update their fields and are proved against them.
module VaultLifecycle {
  import opened Wrappers
  import opened LocalSsh

  // What an observer outside sees happen, in order.
  datatype Event = SshClosed(generation: nat) | CutoffLocked | CutoffUnlocked | SessionsClosed | VaultSealed | VaultOpened

  // unlockedFor: the login the open vault was unlocked under.
  datatype Security = Security(sshGeneration: nat, cutoffLocked: bool, unlockedFor: Option<AuthBinding>, events: seq<Event>)

  datatype VaultError = Storage | VaultInternal
  datatype SealAttempt = Sealed | NotNeeded

  // How claiming the SEALING gate ends. Busy only for the non-blocking idle claim.
  datatype Claim = Granted | Busy | ClaimFails

  // Everything a seal attempt does not decide itself: the claim; whether another
  // sealer or an activity refresh got in before it; whether an inner lock fails
  // before or after pre_seal.
  datatype SealEnv = SealEnv(claim: Claim, overtaken: bool, failsBefore: bool, failsAfter: bool)

  function SshClosedOnce(s: Security): Security {
    s.(sshGeneration := s.sshGeneration + 1, events := s.events + [SshClosed(s.sshGeneration + 1)])
  }

  function Locked(s: Security): Security {
    s.(cutoffLocked := true, events := s.events + [CutoffLocked])
  }

  // pre_seal_ssh_cutoff, and the callback perform_user_vault_lock passes.
  function PreSealed(s: Security): Security {
    Locked(SshClosedOnce(s))
  }

  function SessionsClosedFor(s: Security): Security {
    s.(events := s.events + [SessionsClosed])
  }

  function SealedVault(s: Security): Security {
    s.(unlockedFor := None, events := s.events + [VaultSealed])
  }

  function SealWithPreSeal(s: Security, env: SealEnv): (Security, Result<SealAttempt, VaultError>) {
    if env.failsBefore then (s, Err(Storage))
    else
      var pre := SessionsClosedFor(PreSealed(s));
      if env.failsAfter then (pre, Err(Storage)) else (SealedVault(pre), Ok(Sealed))
  }

  // seal_if_unlocked_with_pre_seal. An overtaking sealer leaves the vault sealed.
  function SealIfUnlocked(s: Security, env: SealEnv): (Security, Result<SealAttempt, VaultError>) {
    if s.unlockedFor.None? then (s, Ok(NotNeeded))
    else if env.claim.ClaimFails? then (s, Err(VaultInternal))
    else if env.overtaken then (s.(unlockedFor := None), Ok(NotNeeded))
    else SealWithPreSeal(s, env)
  }

  // seal_if_still_idle_with_pre_seal
  function SealIfIdle(s: Security, env: SealEnv): (Security, Result<SealAttempt, VaultError>) {
    if env.claim.ClaimFails? then (s, Err(VaultInternal))
    else if env.claim.Busy? then (s, Ok(NotNeeded))
    else if s.unlockedFor.None? || env.overtaken then (s, Ok(NotNeeded))
    else SealWithPreSeal(s, env)
  }

  // map_seal_result
  function FailClosed(s: Security, r: Result<SealAttempt, VaultError>): Security {
    if r.Err? then PreSealed(s) else s
  }

  function OnIdleTick(s: Security, env: SealEnv): (Security, Result<SealAttempt, VaultError>) {
    var (after, r) := SealIfIdle(s, env);
    (FailClosed(after, r), r)
  }

  function OnSystemSleep(s: Security, env: SealEnv): (Security, Result<SealAttempt, VaultError>) {
    var (after, r) := SealIfUnlocked(s, env);
    (FailClosed(after, r), r)
  }

  function OnResume(s: Security, env: SealEnv): (Security, Result<SealAttempt, VaultError>) {
    var (after, r) := OnSystemSleep(s, env);
    (if r == Ok(NotNeeded) then Locked(after) else after, r)
  }

  function OnProcessExit(s: Security, exitDone: bool, env: SealEnv): (Security, Result<SealAttempt, VaultError>) {
    if exitDone then (s, Ok(NotNeeded))
    else if s.unlockedFor.None? then (Locked(s), Ok(NotNeeded))
    else OnResume(s, env)
  }

  // Other threads advance the SSH generation by n.
  function ClosedByOthers(s: Security, n: nat): Security {
    s.(sshGeneration := s.sshGeneration + n)
  }

  // perform_user_vault_lock, other threads closing SSH n times during the seal.
  function UserVaultLock(s: Security, env: SealEnv, n: nat): (Security, Result<SealAttempt, VaultError>) {
    var (sealed, r) := SealIfUnlocked(s, env);
    var after := ClosedByOthers(sealed, n);
    if r == Ok(NotNeeded) then (Locked(after), r)
    else if r.Err? then
      (Locked(if after.sshGeneration == s.sshGeneration then SshClosedOnce(after) else after), r)
    else (after, r)
  }

  // The cutoffs of logout, of a session install and of a 401: SSH, gate, then vault.
  function CutAndSeal(s: Security, claimed: bool): Security {
    var cut := PreSealed(s);
    if claimed then SealedVault(SessionsClosedFor(cut)) else cut
  }

  // What the cutoffs look like from outside, in order.
  function CutEvents(generation: nat, claimed: bool): seq<Event> {
    [SshClosed(generation), CutoffLocked] + if claimed then [SessionsClosed, VaultSealed] else []
  }

  lemma CutAndSealInOrder(s: Security, claimed: bool)
    ensures var s' := CutAndSeal(s, claimed);
            && s'.sshGeneration == s.sshGeneration + 1 && s'.cutoffLocked
            && s'.unlockedFor == (if claimed then None else s.unlockedFor)
            && s'.events == s.events + CutEvents(s.sshGeneration + 1, claimed)
  {
    var cut := [SshClosed(s.sshGeneration + 1), CutoffLocked];
    assert PreSealed(s).events == s.events + cut;
    assert cut + [SessionsClosed, VaultSealed] == cut + [SessionsClosed] + [VaultSealed];
    assert s.events + cut + [SessionsClosed] + [VaultSealed] == s.events + (cut + [SessionsClosed, VaultSealed]);
  }

  // notify_vault_unlocked when the observers are healthy.
  function CutoffOpened(s: Security): Security {
    s.(cutoffLocked := false, events := s.events + [CutoffUnlocked])
  }

  function VaultUnlocked(s: Security, binding: AuthBinding): Security {
    s.(unlockedFor := Some(binding), events := s.events + [VaultOpened])
  }

  // lock_with_reason as the vault's own binding checks call it: sessions and vault, with
  // the SSH generation and the gate left alone.
  function BareSealed(s: Security, claimed: bool): Security {
    if claimed then SealedVault(SessionsClosedFor(s)) else s
  }

  // ---- the operations as one system ----

  datatype Operation =
    | IdleTick(env: SealEnv)
    | SystemSleep(env: SealEnv)
    | Resume(env: SealEnv)
    | ProcessExit(env: SealEnv)
    | UserLock(env: SealEnv, others: nat)
    | ObserverLoss(env: SealEnv)   // fail_closed_after_observer_loss
    | SessionCut(claimed: bool)    // logout, session install, 401
    | NotifyLocked
    | NotifyUnlocked
    | UnlockVault(binding: AuthBinding)
    // The binding checks of vault operations. login is what the auth store shows.
    | ObserveBinding(login: Option<AuthBinding>, claimed: bool)                            // observe_binding
    | RequireLogin(login: Option<AuthBinding>, expected: AuthBinding, claimed: bool)       // binding_still_current
    | RequireOwner(expected: AuthBinding, claimed: bool)                                   // u.binding against expected
    | StaleUnlock(login: Option<AuthBinding>, expected: AuthBinding, claimed: bool)        // finalize_vault_unlock

  datatype Desktop = Desktop(security: Security, exitDone: bool)

  type Outcome = Option<Result<SealAttempt, VaultError>>

  // A binding check that fails: the login is gone or another one, or the vault is open
  // under another login.
  predicate BindingStale(s: Security, op: Operation) {
    match op
    case ObserveBinding(login, _) => s.unlockedFor.Some? && login != s.unlockedFor
    case RequireLogin(login, expected, _) => login != Some(expected)
    case RequireOwner(expected, _) => s.unlockedFor.Some? && s.unlockedFor != Some(expected)
    case StaleUnlock(login, expected, _) => login != Some(expected)
    case _ => false
  }

  function Perform(d: Desktop, op: Operation): (Desktop, Outcome) {
    var s := d.security;
    match op
    case IdleTick(env) => var (s', r) := OnIdleTick(s, env); (d.(security := s'), Some(r))
    case SystemSleep(env) => var (s', r) := OnSystemSleep(s, env); (d.(security := s'), Some(r))
    case Resume(env) => var (s', r) := OnResume(s, env); (d.(security := s'), Some(r))
    case ProcessExit(env) => var (s', r) := OnProcessExit(s, d.exitDone, env); (Desktop(s', true), Some(r))
    case UserLock(env, others) => var (s', r) := UserVaultLock(s, env, others); (d.(security := s'), Some(r))
    case ObserverLoss(env) => var (s', r) := UserVaultLock(s, env, 0); (d.(security := Locked(s')), None)
    case SessionCut(claimed) => (d.(security := CutAndSeal(s, claimed)), None)
    case NotifyLocked => (d.(security := Locked(s)), None)
    case NotifyUnlocked => (d.(security := CutoffOpened(s)), None)
    case UnlockVault(binding) => (d.(security := VaultUnlocked(s, binding)), None)
    case StaleUnlock(_, _, claimed) =>
      (if BindingStale(s, op) then d.(security := Locked(BareSealed(s, claimed))) else d, None)
    case _ => (if BindingStale(s, op) then d.(security := BareSealed(s, op.claimed)) else d, None)
  }

  function PerformAll(d: Desktop, ops: seq<Operation>): Desktop
    decreases |ops|
  {
    if ops == [] then d else PerformAll(Perform(d, ops[0]).0, ops[1..])
  }

  // How many bumps of the generation the operation itself makes when it fails.
  function BumpsOnErr(op: Operation, env: SealEnv): nat {
    if op.UserLock? || env.claim.ClaimFails? || env.failsBefore then 1 else 2
  }

  // Sealed: the generation moved once and the gate locked, both before the vault
  // closed. NotNeeded: the operation itself did not move the generation. Err: the
  // gate is locked, the vault was not sealed, and the generation moved once for a
  // user lock, once or (after pre_seal) twice for the coordinator.
  lemma SealOutcome(d: Desktop, op: Operation)
    requires op.IdleTick? || op.SystemSleep? || op.Resume? || op.ProcessExit? || (op.UserLock? && op.others == 0)
    ensures var s, s', r := d.security, Perform(d, op).0.security, Perform(d, op).1.value;
            && (r == Ok(Sealed) ==>
                  && s.unlockedFor.Some? && s'.unlockedFor.None? && s'.cutoffLocked && s'.sshGeneration == s.sshGeneration + 1
                  && s'.events == s.events + [SshClosed(s.sshGeneration + 1), CutoffLocked, SessionsClosed, VaultSealed])
            && (r == Ok(NotNeeded) ==>
                  && s'.sshGeneration == s.sshGeneration && (s.cutoffLocked ==> s'.cutoffLocked)
                  && (if op.IdleTick? then s' == s
                      else if op.ProcessExit? && d.exitDone then s' == s
                      else s'.unlockedFor.None? && (op.SystemSleep? || s'.cutoffLocked)))
            && (r.Err? ==>
                  && s'.cutoffLocked && s'.unlockedFor == s.unlockedFor
                  && s'.sshGeneration == s.sshGeneration + BumpsOnErr(op, op.env))
  {
    var s, s' := d.security, Perform(d, op).0.security;
    var pre := SessionsClosedFor(PreSealed(s));
    assert SealedVault(pre).events == s.events + [SshClosed(s.sshGeneration + 1), CutoffLocked, SessionsClosed, VaultSealed];
  }

  // When each operation seals and when it fails: a seal needs an open vault that nobody
  // else got to, a claim and no failure; only the idle tick gives way to a busy gate, and
  // only it claims without looking first.
  lemma SealVerdict(d: Desktop, op: Operation)
    requires op.IdleTick? || op.SystemSleep? || op.Resume? || op.ProcessExit? || op.UserLock?
    ensures var r, env := Perform(d, op).1.value, op.env;
            var acts, open := !(op.ProcessExit? && d.exitDone), d.security.unlockedFor.Some?;
            var granted := !env.claim.ClaimFails? && !(op.IdleTick? && env.claim.Busy?);
            var fails := env.failsBefore || env.failsAfter;
            && (r == Ok(Sealed) <==> acts && open && granted && !env.overtaken && !fails)
            && (r == Err(VaultInternal) <==> acts && env.claim.ClaimFails? && (open || op.IdleTick?))
            && (r == Err(Storage) <==> acts && open && granted && !env.overtaken && fails)
            && r in {Ok(Sealed), Ok(NotNeeded), Err(VaultInternal), Err(Storage)}
  {
  }

  // A user lock while other threads close SSH any number of times: their closes stay in
  // the generation, and its own close after a failure is spared exactly when one of them or
  // its own pre_seal has moved it.
  lemma UserLockAmongOthers(d: Desktop, env: SealEnv, others: nat)
    ensures var s, s', r := d.security, Perform(d, UserLock(env, others)).0.security, Perform(d, UserLock(env, others)).1.value;
            && s'.cutoffLocked
            && (r == Ok(Sealed) ==> s'.unlockedFor.None? && s'.sshGeneration == s.sshGeneration + 1 + others)
            && (r == Ok(NotNeeded) ==> s'.unlockedFor.None? && s'.sshGeneration == s.sshGeneration + others)
            && (r.Err? ==>
                  && s'.unlockedFor == s.unlockedFor
                  && s'.sshGeneration == s.sshGeneration + others
                       + (if env.claim.ClaimFails? || env.failsBefore then (if others == 0 then 1 else 0) else 1))
  {
  }

  // The operations that answer nothing. A check seals exactly when it is stale, and only
  // an unlock that lost its login also locks the gate.
  lemma PlainOperations(d: Desktop, op: Operation)
    ensures var s, s' := d.security, Perform(d, op).0.security;
            var bare := Security(s.sshGeneration, s.cutoffLocked, None, s.events + [SessionsClosed, VaultSealed]);
            match op
            case SessionCut(claimed) =>
              s' == Security(s.sshGeneration + 1, true, if claimed then None else s.unlockedFor,
                             s.events + CutEvents(s.sshGeneration + 1, claimed))
            case NotifyLocked => s' == Security(s.sshGeneration, true, s.unlockedFor, s.events + [CutoffLocked])
            case NotifyUnlocked => s' == Security(s.sshGeneration, false, s.unlockedFor, s.events + [CutoffUnlocked])
            case UnlockVault(binding) => s' == Security(s.sshGeneration, s.cutoffLocked, Some(binding), s.events + [VaultOpened])
            case ObserverLoss(env) =>
              && s'.cutoffLocked
              && (s.unlockedFor.Some? && !env.overtaken ==> s'.sshGeneration > s.sshGeneration)
              && (s'.unlockedFor.Some? ==> env.claim.ClaimFails? || env.failsBefore || env.failsAfter)
            case ObserveBinding(login, claimed) =>
              var stale := s.unlockedFor.Some? && login != s.unlockedFor;
              s' == if stale && claimed then bare else s
            case RequireLogin(login, expected, claimed) =>
              var stale := login != Some(expected);
              s' == if stale && claimed then bare else s
            case RequireOwner(expected, claimed) =>
              var stale := s.unlockedFor.Some? && s.unlockedFor.value != expected;
              s' == if stale && claimed then bare else s
            case StaleUnlock(login, expected, claimed) =>
              if login == Some(expected) then s' == s
              else s' == Security(s.sshGeneration, true, if claimed then None else s.unlockedFor,
                                  s.events + (if claimed then [SessionsClosed, VaultSealed] else []) + [CutoffLocked])
            case _ => true
  {
    var s := d.security;
    assert s.events + [SessionsClosed] + [VaultSealed] == s.events + [SessionsClosed, VaultSealed];
    if op.SessionCut? {
      CutAndSealInOrder(s, op.claimed);
      hide CutAndSeal;
    }
  }

  // Whatever other threads do meanwhile, after Sealed or Err of any operation no
  // SSH generation captured before it is valid.
  lemma CapturedGenerationsDie(d: Desktop, op: Operation, captured: nat)
    requires Perform(d, op).1.Some? && Perform(d, op).1.value != Ok(NotNeeded)
    requires captured <= d.security.sshGeneration
    ensures Perform(d, op).0.security.sshGeneration > captured
    ensures Perform(d, op).0.security.cutoffLocked
  {
  }

  // ---- what comes before a seal ----

  // The seal at k comes right after the SSH generation moved, the gate locked and the
  // sessions were closed, in this order.
  predicate CoveredAt(events: seq<Event>, k: nat)
    requires k < |events|
  {
    k >= 3 && events[k - 3].SshClosed? && events[k - 2] == CutoffLocked && events[k - 1] == SessionsClosed
  }

  predicate SealsUncovered(events: seq<Event>) {
    exists k :: 0 <= k < |events| && events[k] == VaultSealed && !CoveredAt(events, k)
  }

  // The events of one operation: those it leaves behind when nothing was before.
  function Own(d: Desktop, op: Operation): seq<Event> {
    Perform(d.(security := d.security.(events := [])), op).0.security.events
  }

  // One block of events per operation.
  function History(d: Desktop, ops: seq<Operation>): seq<seq<Event>>
    decreases |ops|
  {
    if ops == [] then [] else [Own(d, ops[0])] + History(Perform(d, ops[0]).0, ops[1..])
  }

  function Flattened(blocks: seq<seq<Event>>): seq<Event> {
    if blocks == [] then [] else blocks[0] + Flattened(blocks[1..])
  }

  lemma SealAppends(s: Security, env: SealEnv)
    ensures var e := s.(events := []);
            && SealIfUnlocked(s, env).0 == WithEvents(s.events, SealIfUnlocked(e, env).0)
            && SealIfUnlocked(s, env).1 == SealIfUnlocked(e, env).1
            && SealIfIdle(s, env).0 == WithEvents(s.events, SealIfIdle(e, env).0)
            && SealIfIdle(s, env).1 == SealIfIdle(e, env).1
  {
  }

  function WithEvents(before: seq<Event>, s: Security): Security {
    s.(events := before + s.events)
  }

  lemma CutAppends(before: seq<Event>, s: Security, claimed: bool)
    ensures PreSealed(WithEvents(before, s)) == WithEvents(before, PreSealed(s))
    ensures SshClosedOnce(WithEvents(before, s)) == WithEvents(before, SshClosedOnce(s))
    ensures Locked(WithEvents(before, s)) == WithEvents(before, Locked(s))
    ensures BareSealed(WithEvents(before, s), claimed) == WithEvents(before, BareSealed(s, claimed))
  {
    assert before + s.events + [CutoffLocked] == before + (s.events + [CutoffLocked]);
    var closed := SshClosed(s.sshGeneration + 1);
    assert before + s.events + [closed] == before + (s.events + [closed]);
    assert before + s.events + [closed] + [CutoffLocked] == before + (s.events + [closed] + [CutoffLocked]);
    assert before + s.events + [SessionsClosed] + [VaultSealed] == before + (s.events + [SessionsClosed] + [VaultSealed]);
  }

  lemma UserLockAppends(s: Security, env: SealEnv, n: nat)
    ensures var e := s.(events := []);
            && UserVaultLock(s, env, n).0 == WithEvents(s.events, UserVaultLock(e, env, n).0)
            && UserVaultLock(s, env, n).1 == UserVaultLock(e, env, n).1
  {
    hide SealIfUnlocked, SealIfIdle, Locked, SshClosedOnce, PreSealed, BareSealed;
    SealAppends(s, env);
    var after := ClosedByOthers(SealIfUnlocked(s.(events := []), env).0, n);
    CutAppends(s.events, after, true);
    CutAppends(s.events, SshClosedOnce(after), true);
  }

  lemma CoordinatorAppends(s: Security, done: bool, env: SealEnv)
    ensures var e := s.(events := []);
            && OnIdleTick(s, env).0 == WithEvents(s.events, OnIdleTick(e, env).0)
            && OnSystemSleep(s, env).0 == WithEvents(s.events, OnSystemSleep(e, env).0)
            && OnResume(s, env).0 == WithEvents(s.events, OnResume(e, env).0)
            && OnProcessExit(s, done, env).0 == WithEvents(s.events, OnProcessExit(e, done, env).0)
  {
    hide SealIfUnlocked, SealIfIdle, Locked, SshClosedOnce, PreSealed, BareSealed;
    SealAppends(s, env);
    var e := s.(events := []);
    CutAppends(s.events, e, true);
    CutAppends(s.events, SealIfUnlocked(e, env).0, true);
    CutAppends(s.events, SealIfIdle(e, env).0, true);
    assert s == WithEvents(s.events, e);
  }

  // What an operation does never depends on what happened before, and it only adds.
  lemma OwnIsAppended(d: Desktop, op: Operation)
    ensures var s, e := d.security, d.security.(events := []);
            Perform(d, op).0.security == WithEvents(s.events, Perform(d.(security := e), op).0.security)
  {
    hide SealIfUnlocked, SealIfIdle, Locked, SshClosedOnce, PreSealed, BareSealed;
    hide OnIdleTick, OnSystemSleep, OnResume, OnProcessExit, UserVaultLock;
    var s, e := d.security, d.security.(events := []);
    assert s == WithEvents(s.events, e);
    CutAppends(s.events, e, if op.SessionCut? || IsBindingCheck(op) then op.claimed else true);
    match op
    case IdleTick(env) => CoordinatorAppends(s, d.exitDone, env);
    case SystemSleep(env) => CoordinatorAppends(s, d.exitDone, env);
    case Resume(env) => CoordinatorAppends(s, d.exitDone, env);
    case ProcessExit(env) => CoordinatorAppends(s, d.exitDone, env);
    case UserLock(env, others) => UserLockAppends(s, env, others);
    case ObserverLoss(env) =>
      UserLockAppends(s, env, 0);
      CutAppends(s.events, UserVaultLock(e, env, 0).0, true);
    case SessionCut(claimed) =>
      CutAppends(s.events, PreSealed(e), claimed);
      CutIsBareSealOfCut(s, claimed);
      CutIsBareSealOfCut(e, claimed);
    case StaleUnlock(_, _, claimed) => CutAppends(s.events, BareSealed(e, claimed), true);
    case _ =>
  }

  predicate IsBindingCheck(op: Operation) {
    op.ObserveBinding? || op.RequireLogin? || op.RequireOwner? || op.StaleUnlock?
  }

  lemma CutIsBareSealOfCut(s: Security, claimed: bool)
    ensures CutAndSeal(s, claimed) == BareSealed(PreSealed(s), claimed)
  {
  }

  // The blocks of a history, put together, are its events.
  lemma {:induction false} HistoryIsEvents(d: Desktop, ops: seq<Operation>)
    ensures PerformAll(d, ops).security.events == d.security.events + Flattened(History(d, ops))
    decreases |ops|
  {
    hide Perform;
    if ops != [] {
      OwnIsAppended(d, ops[0]);
      HistoryIsEvents(Perform(d, ops[0]).0, ops[1..]);
      assert History(d, ops)[1..] == History(Perform(d, ops[0]).0, ops[1..]);
    }
  }

  lemma TailKeepsCovered(events: seq<Event>, tail: seq<Event>)
    requires !SealsUncovered(events) && VaultSealed !in tail
    ensures !SealsUncovered(events + tail)
  {
    var all := events + tail;
    forall k | |events| <= k < |all| ensures all[k] != VaultSealed {
      assert all[k] == tail[k - |events|];
    }
    forall k | 0 <= k < |all| && all[k] == VaultSealed ensures CoveredAt(all, k) {
      assert CoveredAt(events, k);
    }
  }

  lemma LocksKeepCovered(s: Security)
    requires !SealsUncovered(s.events)
    ensures !SealsUncovered(Locked(s).events) && !SealsUncovered(SshClosedOnce(s).events) && !SealsUncovered(PreSealed(s).events)
  {
    hide SealsUncovered;
    var closed := SshClosed(s.sshGeneration + 1);
    TailKeepsCovered(s.events, [CutoffLocked]);
    TailKeepsCovered(s.events, [closed]);
    TailKeepsCovered(s.events + [closed], [CutoffLocked]);
  }

  lemma AttemptsCovered(s: Security, env: SealEnv)
    requires s.events == []
    ensures !SealsUncovered(SealIfUnlocked(s, env).0.events) && !SealsUncovered(SealIfIdle(s, env).0.events)
    ensures !SealsUncovered(CutAndSeal(s, true).events) && !SealsUncovered(CutAndSeal(s, false).events)
    ensures !SealsUncovered(s.events)
  {
  }

  // A lifecycle operation, user lock or session cut never seals uncovered.
  lemma CoveredOperation(d: Desktop, op: Operation)
    requires !IsBindingCheck(op)
    ensures !SealsUncovered(Own(d, op))
  {
    hide SealsUncovered, SealIfUnlocked, SealIfIdle, PreSealed, Locked, SshClosedOnce, CutAndSeal;
    var s := d.security.(events := []);
    AttemptsCovered(s, if HasEnv(op) then op.env else SealEnv(Busy, false, false, false));
    LocksKeepCovered(s);
    if HasEnv(op) {
      AttemptKeepsCovered(SealIfUnlocked(s, op.env).0);
      AttemptKeepsCovered(SealIfIdle(s, op.env).0);
      var after := ClosedByOthers(SealIfUnlocked(s, op.env).0, if op.UserLock? then op.others else 0);
      AttemptKeepsCovered(after);
      if op.ObserverLoss? {
        LocksKeepCovered(UserVaultLock(s, op.env, 0).0);
      }
    }
    TailKeepsCovered([], [CutoffUnlocked]);
    TailKeepsCovered([], [VaultOpened]);
  }

  predicate HasEnv(op: Operation) {
    op.IdleTick? || op.SystemSleep? || op.Resume? || op.ProcessExit? || op.UserLock? || op.ObserverLoss?
  }

  // Whatever follows a covered attempt only closes and locks.
  lemma AttemptKeepsCovered(after: Security)
    requires !SealsUncovered(after.events)
    ensures !SealsUncovered(PreSealed(after).events) && !SealsUncovered(Locked(after).events)
    ensures !SealsUncovered(Locked(SshClosedOnce(after)).events) && !SealsUncovered(Locked(PreSealed(after)).events)
  {
    hide SealsUncovered, PreSealed, Locked, SshClosedOnce;
    LocksKeepCovered(after);
    LocksKeepCovered(SshClosedOnce(after));
    LocksKeepCovered(PreSealed(after));
  }

  lemma BareBlock(events: seq<Event>)
    requires events == [SessionsClosed, VaultSealed] || events == [SessionsClosed, VaultSealed, CutoffLocked]
    ensures SealsUncovered(events)
  {
    assert events[1] == VaultSealed && !CoveredAt(events, 1);
  }

  lemma CheckedOperation(d: Desktop, op: Operation)
    requires IsBindingCheck(op)
    ensures SealsUncovered(Own(d, op)) <==> BindingStale(d.security, op) && op.claimed
    ensures forall e :: e in Own(d, op) ==> !e.SshClosed?
    ensures BindingStale(d.security, op) && op.claimed ==> Perform(d, op).0.security.unlockedFor.None?
    ensures Perform(d, op).0.security.sshGeneration == d.security.sshGeneration
  {
    hide SealsUncovered;
    if BindingStale(d.security, op) && op.claimed {
      BareBlock(Own(d, op));
    } else {
      var blank := d.security.(events := []);
      AttemptsCovered(blank, SealEnv(Busy, false, false, false));
      LocksKeepCovered(blank);
      assert Own(d, op) == [] || Own(d, op) == Locked(blank).events;
    }
  }

  // In every history of these operations, failing or not, in any order, an operation
  // seals the vault without first moving the SSH generation, locking the gate and
  // closing the sessions exactly when it is a binding check that finds the login gone or
  // changed, or the vault open under another one; it then leaves the generation alone.
  lemma {:induction false} SealsCoveredUnlessStale(d: Desktop, ops: seq<Operation>, i: nat)
    requires i < |ops|
    ensures |History(d, ops)| == |ops|
    ensures var before, block := PerformAll(d, ops[..i]), History(d, ops)[i];
            && (SealsUncovered(block) <==>
                  IsBindingCheck(ops[i]) && BindingStale(before.security, ops[i]) && ops[i].claimed)
            && (SealsUncovered(block) ==>
                  PerformAll(d, ops[..i + 1]).security.sshGeneration == before.security.sshGeneration)
    decreases |ops|
  {
    hide Perform, SealsUncovered, BindingStale, IsBindingCheck;
    HistoryLength(d, ops);
    var next := Perform(d, ops[0]).0;
    if i == 0 {
      if IsBindingCheck(ops[0]) {
        CheckedOperation(d, ops[0]);
      } else {
        CoveredOperation(d, ops[0]);
      }
      assert ops[..0] == [] && ops[..1] == [ops[0]];
      PerformOne(d, ops[0]);
    } else {
      SealsCoveredUnlessStale(next, ops[1..], i - 1);
      assert ops[..i][1..] == ops[1..][..i - 1] && ops[..i + 1][1..] == ops[1..][..i];
    }
  }

  lemma PerformOne(d: Desktop, op: Operation)
    ensures PerformAll(d, [op]) == Perform(d, op).0 && PerformAll(d, []) == d
  {
    hide Perform;
    assert [op][1..] == [];
  }

  lemma {:induction false} HistoryLength(d: Desktop, ops: seq<Operation>)
    ensures |History(d, ops)| == |ops|
    decreases |ops|
  {
    hide Perform;
    if ops != [] {
      HistoryLength(Perform(d, ops[0]).0, ops[1..]);
    }
  }

  // Such a seal can come with SSH authority and the gate still open: the vault is
  // unlocked, and the first vault operation after the login is gone seals it.
  lemma StaleLoginSealsBare(binding: AuthBinding)
    ensures var start := Desktop(Security(0, true, None, []), false);
            var ops := [UnlockVault(binding), NotifyUnlocked, ObserveBinding(None, true)];
            var end := PerformAll(start, ops).security;
            && end.unlockedFor.None? && !end.cutoffLocked && end.sshGeneration == 0
            && end.events == [VaultOpened, CutoffUnlocked, SessionsClosed, VaultSealed]
  {
    var start := Desktop(Security(0, true, None, []), false);
    var ops := [UnlockVault(binding), NotifyUnlocked, ObserveBinding(None, true)];
    var d1, d2 := Perform(start, ops[0]).0, Perform(Perform(start, ops[0]).0, ops[1]).0;
    assert ops[1..] == [ops[1], ops[2]] && ops[1..][1..] == [ops[2]];
    PerformOne(d2, ops[2]);
    assert PerformAll(start, ops) == PerformAll(d1, ops[1..]) == PerformAll(d2, [ops[2]]);
  }

  // ensure_binding_live: what the auth store shows at its two reads, and whether the
  // sealing gate is granted. Pass: the vault operation may go on.
  function EnsureBindingLive(d: Desktop, observed: Option<AuthBinding>, current: Option<AuthBinding>,
                             expected: AuthBinding, claimed: bool): (Desktop, bool)
  {
    var observe := ObserveBinding(observed, claimed);
    var d1 := Perform(d, observe).0;
    if BindingStale(d.security, observe) && !claimed then (d1, false)
    else
      var login := RequireLogin(current, expected, claimed);
      var d2 := Perform(d1, login).0;
      if BindingStale(d1.security, login) then (d2, false)
      else
        var owner := RequireOwner(expected, claimed);
        (Perform(d2, owner).0, !BindingStale(d2.security, owner))
  }

  // A vault operation goes on only under the current login with the vault locked or open
  // for it; if it is refused with the gate granted, no vault is left open; and the vault
  // it finds open is sealed exactly when it or the login is stale.
  lemma EnsureBindingLiveGuards(d: Desktop, observed: Option<AuthBinding>, current: Option<AuthBinding>,
                                expected: AuthBinding, claimed: bool)
    ensures var (after, ok) := EnsureBindingLive(d, observed, current, expected, claimed);
            var open, left := d.security.unlockedFor, after.security.unlockedFor;
            && (ok <==> current == Some(expected)
                        && (open.None? || (observed != open && claimed) || (observed == open && open == Some(expected))))
            && (ok ==> left.None? || left == Some(expected))
            && (!ok && claimed ==> left.None?)
            && (left == open || left.None?)
            && (open.Some? && claimed ==>
                  (left.None? <==> observed != open || current != Some(expected) || open != Some(expected)))
            && after.security.sshGeneration == d.security.sshGeneration
  {
  }

  // Process exit acts at most once: over any operations in any order, dropping
  // every exit request after the first changes nothing.
  lemma {:induction false} ExitActsAtMostOnce(d: Desktop, ops: seq<Operation>)
    requires d.exitDone
    ensures PerformAll(d, ops) == PerformAll(d, WithoutExits(ops))
    ensures forall op :: op in WithoutExits(ops) <==> op in ops && !op.ProcessExit?
    decreases |ops|
  {
    if ops != [] {
      ExitActsAtMostOnce(Perform(d, ops[0]).0, ops[1..]);
      if !ops[0].ProcessExit? {
        assert WithoutExits(ops)[1..] == WithoutExits(ops[1..]);
      }
    }
  }

  function WithoutExits(ops: seq<Operation>): seq<Operation> {
    if ops == [] then []
    else if ops[0].ProcessExit? then WithoutExits(ops[1..])
    else [ops[0]] + WithoutExits(ops[1..])
  }

  // ---- the objects ----

  class SecurityCutoff {
    var sshGeneration: nat
    var vaultLocked: bool
    var events: seq<Event>  // shared history of cutoff and vault, for the contracts

    constructor ()
      ensures sshGeneration == 0 && vaultLocked && events == []
    {
      sshGeneration, vaultLocked, events := 0, true, [];
    }

    method CloseAllSsh() returns (generation: nat)
      modifies this`sshGeneration, this`events
      ensures generation == sshGeneration == old(sshGeneration) + 1
      ensures events == old(events) + [SshClosed(generation)]
    {
      sshGeneration := sshGeneration + 1;
      generation := sshGeneration;
      events := events + [SshClosed(generation)];
    }

    method LockVault()
      modifies this`vaultLocked, this`events
      ensures vaultLocked && events == old(events) + [CutoffLocked]
    {
      vaultLocked := true;
      events := events + [CutoffLocked];
    }

    method UnlockVaultForTask8()
      modifies this`vaultLocked, this`events
      ensures !vaultLocked && events == old(events) + [CutoffUnlocked]
    {
      vaultLocked := false;
      events := events + [CutoffUnlocked];
    }

    method Record(e: Event)
      modifies this`events
      ensures events == old(events) + [e]
    {
      events := events + [e];
    }
  }

  function SecurityOf(cutoff: SecurityCutoff, vault: VaultService): Security
    reads cutoff, vault
  {
    Security(cutoff.sshGeneration, cutoff.vaultLocked, vault.unlockedFor, cutoff.events)
  }

  class VaultService {
    var unlockedFor: Option<AuthBinding>   // None: locked

    constructor ()
      ensures unlockedFor == None
    {
      unlockedFor := None;
    }

    method PreSealThenSeal(cutoff: SecurityCutoff, env: SealEnv) returns (r: Result<SealAttempt, VaultError>)
      modifies this, cutoff
      ensures (SecurityOf(cutoff, this), r) == SealWithPreSeal(old(SecurityOf(cutoff, this)), env)
    {
      if env.failsBefore {
        return Err(Storage);
      }
      var _ := cutoff.CloseAllSsh();
      cutoff.LockVault();
      cutoff.Record(SessionsClosed);
      if env.failsAfter {
        return Err(Storage);
      }
      unlockedFor := None;
      cutoff.Record(VaultSealed);
      return Ok(Sealed);
    }

    method SealIfUnlockedWithPreSeal(cutoff: SecurityCutoff, env: SealEnv) returns (r: Result<SealAttempt, VaultError>)
      modifies this, cutoff
      ensures (SecurityOf(cutoff, this), r) == SealIfUnlocked(old(SecurityOf(cutoff, this)), env)
    {
      if unlockedFor.None? {
        return Ok(NotNeeded);
      }
      if env.claim.ClaimFails? {
        return Err(VaultInternal);
      }
      if env.overtaken {
        unlockedFor := None;  // by the sealer this one waited for
      }
      if unlockedFor.None? {
        return Ok(NotNeeded);
      }
      r := PreSealThenSeal(cutoff, env);
    }

    method SealIfStillIdleWithPreSeal(cutoff: SecurityCutoff, env: SealEnv) returns (r: Result<SealAttempt, VaultError>)
      modifies this, cutoff
      ensures (SecurityOf(cutoff, this), r) == SealIfIdle(old(SecurityOf(cutoff, this)), env)
    {
      if env.claim.ClaimFails? {
        return Err(VaultInternal);
      }
      if env.claim.Busy? {
        return Ok(NotNeeded);
      }
      var stillDue := unlockedFor.Some? && !env.overtaken;
      if !stillDue {
        return Ok(NotNeeded);
      }
      r := PreSealThenSeal(cutoff, env);
    }

    // lock_with_reason, as on_logout and seal_for_principal_change call it.
    method LockWithReason(cutoff: SecurityCutoff, claimed: bool)
      modifies this, cutoff`events
      ensures SecurityOf(cutoff, this)
           == if claimed then SealedVault(SessionsClosedFor(old(SecurityOf(cutoff, this)))) else old(SecurityOf(cutoff, this))
    {
      if claimed {
        cutoff.Record(SessionsClosed);
        unlockedFor := None;
        cutoff.Record(VaultSealed);
      }
    }
  }

  class VaultLifecycleCoordinator {
    const vault: VaultService
    const cutoff: SecurityCutoff
    var exitDone: bool

    constructor (vault: VaultService, cutoff: SecurityCutoff)
      ensures this.vault == vault && this.cutoff == cutoff && !exitDone
    {
      this.vault, this.cutoff, exitDone := vault, cutoff, false;
    }

    function View(): Desktop
      reads this, vault, cutoff
    {
      Desktop(SecurityOf(cutoff, vault), exitDone)
    }

    method MapSealResult(r: Result<SealAttempt, VaultError>)
      modifies cutoff
      ensures SecurityOf(cutoff, vault) == FailClosed(old(SecurityOf(cutoff, vault)), r)
    {
      if r.Err? {
        var _ := cutoff.CloseAllSsh();
        cutoff.LockVault();
      }
    }

    method OnIdleTick(env: SealEnv) returns (r: Result<SealAttempt, VaultError>)
      modifies vault, cutoff
      ensures (View(), Some(r)) == Perform(old(View()), IdleTick(env))
    {
      r := vault.SealIfStillIdleWithPreSeal(cutoff, env);
      MapSealResult(r);
    }

    method OnSystemSleep(env: SealEnv) returns (r: Result<SealAttempt, VaultError>)
      modifies vault, cutoff
      ensures (View(), Some(r)) == Perform(old(View()), SystemSleep(env))
    {
      r := vault.SealIfUnlockedWithPreSeal(cutoff, env);
      MapSealResult(r);
    }

    method OnResume(env: SealEnv) returns (r: Result<SealAttempt, VaultError>)
      modifies vault, cutoff
      ensures (View(), Some(r)) == Perform(old(View()), Resume(env))
    {
      r := vault.SealIfUnlockedWithPreSeal(cutoff, env);
      MapSealResult(r);
      if r == Ok(NotNeeded) {
        cutoff.LockVault();
      }
    }

    method OnProcessExit(env: SealEnv) returns (r: Result<SealAttempt, VaultError>)
      modifies this`exitDone, vault, cutoff
      ensures (View(), Some(r)) == Perform(old(View()), ProcessExit(env))
    {
      var before := exitDone;
      exitDone := true;
      if before {
        return Ok(NotNeeded);
      }
      if vault.unlockedFor.None? {
        cutoff.LockVault();
        return Ok(NotNeeded);
      }
      r := vault.SealIfUnlockedWithPreSeal(cutoff, env);
      MapSealResult(r);
      if r == Ok(NotNeeded) {
        cutoff.LockVault();
      }
    }

    // perform_user_vault_lock of the cloud bridge, which shares vault and cutoff.
    method PerformUserVaultLock(env: SealEnv, others: nat) returns (r: Result<SealAttempt, VaultError>)
      modifies vault, cutoff
      ensures (View(), Some(r)) == Perform(old(View()), UserLock(env, others))
    {
      var before := cutoff.sshGeneration;
      r := vault.SealIfUnlockedWithPreSeal(cutoff, env);
      cutoff.sshGeneration := cutoff.sshGeneration + others;  // closes by other threads
      if r == Ok(NotNeeded) {
        cutoff.LockVault();
      } else if r.Err? {
        if cutoff.sshGeneration == before {
          var _ := cutoff.CloseAllSsh();
        }
        cutoff.LockVault();
      }
    }

    // One binding check of a vault operation; stale: it failed, and the vault was sealed if granted.
    method CheckBinding(op: Operation) returns (stale: bool)
      requires op.ObserveBinding? || op.RequireLogin? || op.RequireOwner?
      modifies vault, cutoff
      ensures View() == Perform(old(View()), op).0
      ensures stale == BindingStale(old(View()).security, op)
    {
      match op {
        case ObserveBinding(login, _) => stale := vault.unlockedFor.Some? && login != vault.unlockedFor;
        case RequireLogin(login, expected, _) => stale := login != Some(expected);
        case RequireOwner(expected, _) => stale := vault.unlockedFor.Some? && vault.unlockedFor != Some(expected);
      }
      if stale {
        vault.LockWithReason(cutoff, op.claimed);
      }
    }

    method EnsureBindingIsLive(observed: Option<AuthBinding>, current: Option<AuthBinding>, expected: AuthBinding, claimed: bool)
      returns (ok: bool)
      modifies vault, cutoff
      ensures (View(), ok) == EnsureBindingLive(old(View()), observed, current, expected, claimed)
    {
      var stale := CheckBinding(ObserveBinding(observed, claimed));
      if stale && !claimed {
        return false;
      }
      stale := CheckBinding(RequireLogin(current, expected, claimed));
      if stale {
        return false;
      }
      stale := CheckBinding(RequireOwner(expected, claimed));
      return !stale;
    }
  }
}
