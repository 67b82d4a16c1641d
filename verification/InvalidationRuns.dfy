// Interleavings of 401 invalidations with logins, logouts and other auth changes:
// run_401_for_auth_epoch step by step over the auth store, both watermarks, the
// lifecycle lock, the SSH generation and the vault. The notify half of a cancel,
// which none of these read, is in CancelWakeups.
module InvalidationRuns {
  import opened Wrappers
  import opened LocalSsh
  import opened AuthSession
  import opened VaultLifecycle
  import opened Invalidation

  type Thread = nat

  datatype Stage =
    | Waiting            // 401 received, lifecycle lock not yet held
    | Entered            // lock held, done watermark next
    | Duplicate          // done watermark covers the epoch, only cancel
    | Raising            // body: cancel watermark next
    | Clearing           // try_clear_auth_for_epoch next
    | CuttingSsh         // clear returned Ok(true) or Err: close_all_ssh next
    | LockingGate        // cutoff lock next
    | SealingVault       // vault seal next
    | Emitting
    | Finishing          // done watermark next
    | Releasing(ran: bool)
    | Returned(ran: bool)

  datatype Run401 = Run401(epoch: nat, stage: Stage)

  datatype State = State(
    mem: AuthMemory,
    poisoned: bool,             // the auth mutex; a poisoned store answers nothing
    cancelledThrough: nat,
    doneThrough: nat,
    lockHolder: Option<Thread>,
    security: Security,
    snapshots: set<nat>,        // epochs handed out with a bearer
    runs: map<Thread, Run401>,
    bodies: seq<nat>)           // epochs whose body was started, in order

  const START_SECURITY := Security(0, true, None, [])
  const INIT := State(EMPTY_MEMORY, false, 0, 0, None, START_SECURITY, {}, map[], [])

  // What any reader of the store sees.
  function Visible(s: State): Option<AuthBinding> {
    if s.poisoned then None else BindingOf(s.mem)
  }

  datatype Action =
    | Snapshot
    | Receive401(t: Thread, epoch: nat)
    | Acquire(t: Thread)
    | ReadDone(t: Thread)
    | RaiseCancel(t: Thread)
    | TryClearAuth(t: Thread)
    | CutSsh(t: Thread)
    | LockGate(t: Thread)
    | SealVault(t: Thread, claimed: bool)
    | EmitInvalidated(t: Thread)
    | MarkDone(t: Thread)
    | Release(t: Thread)
    | Login(session: NativeSession)      // second section of a successful callback
    | CancelBefore(epoch: nat)           // on_successful_session_install
    | LogoutAuth
    | ClearAuth
    | OtherAuth(mem: AuthMemory)         // pending-login changes: session and epoch stay
    | Poison

  predicate At(s: State, t: Thread, stage: Stage) {
    t in s.runs && s.runs[t].stage == stage
  }

  function Move(s: State, t: Thread, stage: Stage): State
    requires t in s.runs
  {
    s.(runs := s.runs[t := s.runs[t].(stage := stage)])
  }

  ghost predicate Step(s: State, act: Action, s': State) {
    match act
    case Snapshot => Visible(s).Some? && s' == s.(snapshots := s.snapshots + {Visible(s).value.epoch})
    case Receive401(t, epoch) =>
      t !in s.runs && epoch in s.snapshots && s' == s.(runs := s.runs[t := Run401(epoch, Waiting)])
    case Acquire(t) =>
      s.lockHolder.None? && At(s, t, Waiting) && s' == Move(s, t, Entered).(lockHolder := Some(t))
    case ReadDone(t) =>
      At(s, t, Entered)
      && s' == if s.doneThrough >= s.runs[t].epoch then Move(s, t, Duplicate)
               else Move(s, t, Raising).(bodies := s.bodies + [s.runs[t].epoch])
    case RaiseCancel(t) =>
      (At(s, t, Duplicate) || At(s, t, Raising))
      && s' == Move(s, t, if At(s, t, Duplicate) then Releasing(false) else Clearing)
               .(cancelledThrough := Max(s.cancelledThrough, s.runs[t].epoch))
    case TryClearAuth(t) =>
      At(s, t, Clearing)
      && s' == if s.poisoned then Move(s, t, CuttingSsh)
               else Move(s, t, if ClearsEpoch(s.mem, s.runs[t].epoch) then CuttingSsh else Finishing)
                    .(mem := ReauthMarkedIfEpoch(s.mem, s.runs[t].epoch))
    case CutSsh(t) => At(s, t, CuttingSsh) && s' == Move(s, t, LockingGate).(security := SshClosedOnce(s.security))
    case LockGate(t) => At(s, t, LockingGate) && s' == Move(s, t, SealingVault).(security := Locked(s.security))
    case SealVault(t, claimed) =>
      At(s, t, SealingVault)
      && s' == Move(s, t, Emitting)
               .(security := if claimed then SealedVault(SessionsClosedFor(s.security)) else s.security)
    case EmitInvalidated(t) => At(s, t, Emitting) && s' == Move(s, t, Finishing)
    case MarkDone(t) =>
      At(s, t, Finishing) && s' == Move(s, t, Releasing(true)).(doneThrough := Max(s.doneThrough, s.runs[t].epoch))
    case Release(t) =>
      t in s.runs && s.runs[t].stage.Releasing?
      && s' == Move(s, t, Returned(s.runs[t].stage.ran)).(lockHolder := None)
    case Login(session) =>
      !s.poisoned && ValidSession(session) && s' == s.(mem := SessionInstalled(s.mem, session))
    case CancelBefore(epoch) =>
      epoch in s.snapshots && epoch > 0 && s' == s.(cancelledThrough := Max(s.cancelledThrough, epoch - 1))
    case LogoutAuth => !s.poisoned && s' == s.(mem := LoggedOut(s.mem))
    case ClearAuth => !s.poisoned && s' == s.(mem := NativeCleared(s.mem))
    case OtherAuth(mem) =>
      !s.poisoned && mem.session == s.mem.session && mem.sessionEpoch == s.mem.sessionEpoch && s' == s.(mem := mem)
    case Poison => s' == s.(poisoned := true)
  }

  ghost predicate IsRun(states: seq<State>, acts: seq<Action>) {
    && |states| == |acts| + 1 && states[0] == INIT
    && forall i :: 0 <= i < |acts| ==> Step(states[i], acts[i], states[i + 1])
  }

  // No session with an epoch up to x is visible, now or ever again.
  predicate Dead(s: State, x: nat) {
    s.poisoned || x < s.mem.sessionEpoch || (x == s.mem.sessionEpoch && s.mem.session.None?)
  }

  predicate HoldsLock(stage: Stage) {
    !stage.Waiting? && !stage.Returned?
  }

  predicate PastClear(stage: Stage) {
    || stage.CuttingSsh? || stage.LockingGate? || stage.SealingVault? || stage.Emitting? || stage.Finishing?
    || stage.Releasing? || stage.Returned?
  }

  predicate PastRaise(stage: Stage) {
    stage.Clearing? || PastClear(stage)
  }

  predicate InBody(stage: Stage) {
    stage.Raising? || stage.Clearing? || (PastClear(stage) && !stage.Releasing? && !stage.Returned?)
  }

  ghost predicate SnapshotsPast(s: State) {
    && (forall e :: e in s.snapshots ==> e <= s.mem.sessionEpoch && (e == s.mem.sessionEpoch ==> s.mem.session.Some?))
    && (forall t :: t in s.runs ==> s.runs[t].epoch in s.snapshots)
  }

  ghost predicate DoneIsDead(s: State) {
    && Dead(s, s.doneThrough)
    && (forall t :: t in s.runs && PastClear(s.runs[t].stage) ==> Dead(s, s.runs[t].epoch))
    && (forall t :: t in s.runs && s.runs[t].stage.Duplicate? ==> s.runs[t].epoch <= s.doneThrough)
  }

  ghost predicate WatermarksOrdered(s: State) {
    && s.doneThrough <= s.cancelledThrough <= s.mem.sessionEpoch
    && (forall t :: t in s.runs && PastRaise(s.runs[t].stage) ==> s.runs[t].epoch <= s.cancelledThrough)
  }

  ghost predicate LockExclusive(s: State) {
    && (s.lockHolder.Some? ==> s.lockHolder.value in s.runs)
    && (forall t :: t in s.runs ==> (HoldsLock(s.runs[t].stage) <==> s.lockHolder == Some(t)))
  }

  predicate HolderInBody(s: State) {
    s.lockHolder.Some? && s.lockHolder.value in s.runs && InBody(s.runs[s.lockHolder.value].stage)
  }

  ghost predicate Increasing(epochs: seq<nat>) {
    && (forall i, j :: 0 <= i < j < |epochs| ==> epochs[i] < epochs[j])
    && (forall i :: 0 <= i < |epochs| ==> epochs[i] > 0)
  }

  ghost predicate BodiesIncrease(s: State) {
    && Increasing(s.bodies)
    && (forall i :: 0 <= i < |s.bodies| ==> s.bodies[i] <= s.doneThrough || (i == |s.bodies| - 1 && HolderInBody(s)))
    && (forall t :: t in s.runs && InBody(s.runs[t].stage) ==>
          s.bodies != [] && s.bodies[|s.bodies| - 1] == s.runs[t].epoch > s.doneThrough)
  }

  ghost predicate Inv(s: State) {
    SnapshotsPast(s) && DoneIsDead(s) && WatermarksOrdered(s) && LockExclusive(s) && BodiesIncrease(s)
  }

  lemma SnapshotsStayPast(s: State, act: Action, s': State)
    requires Step(s, act, s') && SnapshotsPast(s)
    ensures SnapshotsPast(s')
  {
    hide ValidSession, PrincipalOf, SshClosedOnce, Locked, SealedVault, SessionsClosedFor;
  }

  lemma DeadStaysDead(s: State, act: Action, s': State, x: nat)
    requires Step(s, act, s') && Dead(s, x)
    ensures Dead(s', x)
  {
    hide ValidSession, PrincipalOf, SshClosedOnce, Locked, SealedVault, SessionsClosedFor;
  }

  // A run gets past its clear only by clearing, and marks done only after that.
  lemma ClearOrMark(s: State, act: Action, s': State)
    requires Step(s, act, s') && SnapshotsPast(s) && DoneIsDead(s)
    ensures Dead(s', s'.doneThrough) || s'.doneThrough == s.doneThrough
    ensures act.TryClearAuth? ==> act.t in s.runs && Dead(s', s.runs[act.t].epoch)
  {
    hide ValidSession, PrincipalOf;
    if act.TryClearAuth? {
      assert s.runs[act.t].epoch in s.snapshots;
    } else if act.MarkDone? {
      assert PastClear(s.runs[act.t].stage);
    }
  }

  lemma StageStep(s: State, act: Action, s': State, t: Thread)
    requires Step(s, act, s') && t in s'.runs
    ensures t in s.runs ==> s'.runs[t].epoch == s.runs[t].epoch
    ensures PastClear(s'.runs[t].stage) ==>
              t in s.runs && (act == TryClearAuth(t) || PastClear(s.runs[t].stage) || s.runs[t].stage.Duplicate?)
    ensures s'.runs[t].stage.Duplicate? ==>
              t in s.runs && (s.runs[t].epoch <= s'.doneThrough || s.runs[t].stage.Duplicate?)
    ensures s.doneThrough <= s'.doneThrough
  {
    hide ValidSession, PrincipalOf, SshClosedOnce, Locked, SealedVault, SessionsClosedFor;
    hide ReauthMarkedIfEpoch, ClearsEpoch,
      SessionInstalled, LoggedOut, NativeCleared, Visible, BindingOf;
  }

  lemma DoneStaysDead(s: State, act: Action, s': State)
    requires Step(s, act, s') && SnapshotsPast(s) && DoneIsDead(s)
    ensures DoneIsDead(s')
  {
    hide Step;
    DeadStaysDead(s, act, s', s.doneThrough);
    ClearOrMark(s, act, s');
    forall t | t in s'.runs
      ensures PastClear(s'.runs[t].stage) ==> Dead(s', s'.runs[t].epoch)
      ensures s'.runs[t].stage.Duplicate? ==> s'.runs[t].epoch <= s'.doneThrough
    {
      StageStep(s, act, s', t);
      if t in s.runs && PastClear(s.runs[t].stage) {
        DeadStaysDead(s, act, s', s.runs[t].epoch);
      }
    }
  }

  lemma WatermarksStayOrdered(s: State, act: Action, s': State)
    requires Step(s, act, s') && SnapshotsPast(s) && WatermarksOrdered(s)
    ensures WatermarksOrdered(s')
  {
    hide ValidSession, PrincipalOf, SshClosedOnce, Locked, SealedVault, SessionsClosedFor;
  }

  lemma LockStaysExclusive(s: State, act: Action, s': State)
    requires Step(s, act, s') && LockExclusive(s)
    ensures LockExclusive(s')
  {
    hide ValidSession, PrincipalOf, SshClosedOnce, Locked, SealedVault, SessionsClosedFor, ReauthMarkedIfEpoch, ClearsEpoch,
      SessionInstalled, LoggedOut, NativeCleared, Visible, BindingOf;
  }

  lemma BodiesStayIncreasing(s: State, act: Action, s': State)
    requires Step(s, act, s') && LockExclusive(s) && BodiesIncrease(s)
    ensures BodiesIncrease(s')
  {
    LockStaysExclusive(s, act, s');
    if act.ReadDone? {
      ReadDoneKeepsBodies(s, act.t, s');
    } else {
      OtherStepKeepsBodies(s, act, s');
    }
  }

  lemma ReadDoneEffect(s: State, t: Thread, s': State)
    requires Step(s, ReadDone(t), s')
    ensures t in s.runs && s.runs[t].stage == Entered
    ensures var stage := if s.doneThrough >= s.runs[t].epoch then Duplicate else Raising;
            && s'.runs == s.runs[t := Run401(s.runs[t].epoch, stage)]
            && s'.bodies == s.bodies + (if stage == Raising then [s.runs[t].epoch] else [])
            && s'.doneThrough == s.doneThrough && s'.lockHolder == s.lockHolder
  {
    hide ValidSession, PrincipalOf;
  }

  lemma ReadDoneKeepsBodies(s: State, t: Thread, s': State)
    requires Step(s, ReadDone(t), s') && LockExclusive(s) && BodiesIncrease(s)
    ensures BodiesIncrease(s')
  {
    hide Step, Increasing;
    ReadDoneEffect(s, t, s');
    assert s.lockHolder == Some(t) && !HolderInBody(s);
    forall u | u in s.runs && u != t ensures !InBody(s.runs[u].stage) && s'.runs[u] == s.runs[u] {
      assert s.lockHolder != Some(u);
    }
    forall i | 0 <= i < |s.bodies| ensures s.bodies[i] <= s.doneThrough {
    }
    if s.doneThrough < s.runs[t].epoch {
      AppendedIncreases(s.bodies, s.runs[t].epoch, s.doneThrough);
      assert s'.lockHolder == Some(t) && HolderInBody(s');
      forall i | 0 <= i < |s'.bodies|
        ensures s'.bodies[i] <= s'.doneThrough || (i == |s'.bodies| - 1 && HolderInBody(s'))
      {
      }
    } else {
      assert s'.bodies == s.bodies;
    }
  }

  lemma AppendedIncreases(epochs: seq<nat>, epoch: nat, bound: nat)
    requires Increasing(epochs) && bound < epoch && forall i :: 0 <= i < |epochs| ==> epochs[i] <= bound
    ensures Increasing(epochs + [epoch])
  {
  }

  // What a step other than ReadDone may do to a run that is in its body.
  predicate BodyMoves(s: State, act: Action, s': State, t: Thread) {
    && (t in s.runs ==> t in s'.runs && s'.runs[t].epoch == s.runs[t].epoch)
    && (t in s.runs && InBody(s.runs[t].stage) && !(t in s'.runs && InBody(s'.runs[t].stage)) ==> act == MarkDone(t))
    && (t in s'.runs && InBody(s'.runs[t].stage) ==> t in s.runs && InBody(s.runs[t].stage))
  }

  lemma BodyStep(s: State, act: Action, s': State, t: Thread)
    requires Step(s, act, s') && !act.ReadDone?
    ensures BodyMoves(s, act, s', t)
  {
    hide ValidSession, PrincipalOf, SshClosedOnce, Locked, SealedVault, SessionsClosedFor, ReauthMarkedIfEpoch, ClearsEpoch,
      SessionInstalled, LoggedOut, NativeCleared, Visible, BindingOf;
  }

  lemma BodyStepMarks(s: State, act: Action, s': State)
    requires Step(s, act, s') && !act.ReadDone?
    ensures s'.bodies == s.bodies
    ensures !act.MarkDone? ==> s'.doneThrough == s.doneThrough
    ensures act.MarkDone? ==> act.t in s.runs && InBody(s.runs[act.t].stage) && act.t in s'.runs && !InBody(s'.runs[act.t].stage)
                              && s'.doneThrough == Max(s.doneThrough, s.runs[act.t].epoch)
  {
    hide ValidSession, PrincipalOf, SshClosedOnce, Locked, SealedVault, SessionsClosedFor, ReauthMarkedIfEpoch, ClearsEpoch,
      SessionInstalled, LoggedOut, NativeCleared, Visible, BindingOf;
  }

  lemma OtherStepKeepsBodies(s: State, act: Action, s': State)
    requires Step(s, act, s') && !act.ReadDone? && LockExclusive(s) && BodiesIncrease(s) && LockExclusive(s')
    ensures BodiesIncrease(s')
  {
    hide Step, BodyMoves;
    BodyStepMarks(s, act, s');
    forall t ensures BodyMoves(s, act, s', t) {
      BodyStep(s, act, s', t);
    }
    BodiesFrame(s, act, s');
  }

  lemma BodiesFrame(s: State, act: Action, s': State)
    requires LockExclusive(s) && BodiesIncrease(s) && LockExclusive(s') && s'.bodies == s.bodies
    requires !act.MarkDone? ==> s'.doneThrough == s.doneThrough
    requires act.MarkDone? ==> act.t in s.runs && InBody(s.runs[act.t].stage) && act.t in s'.runs && !InBody(s'.runs[act.t].stage)
                               && s'.doneThrough == Max(s.doneThrough, s.runs[act.t].epoch)
    requires forall t :: BodyMoves(s, act, s', t)
    ensures BodiesIncrease(s')
  {
    forall t | t in s'.runs && InBody(s'.runs[t].stage)
      ensures s'.bodies != [] && s'.bodies[|s'.bodies| - 1] == s'.runs[t].epoch > s'.doneThrough
    {
      assert BodyMoves(s, act, s', t);
    }
    if HolderInBody(s) {
      var h := s.lockHolder.value;
      assert BodyMoves(s, act, s', h);
      assert InBody(s.runs[h].stage);
    }
  }

  lemma StepKeepsInv(s: State, act: Action, s': State)
    requires Step(s, act, s') && Inv(s)
    ensures Inv(s')
  {
    hide Step, SnapshotsPast, DoneIsDead, WatermarksOrdered, LockExclusive, BodiesIncrease;
    SnapshotsStayPast(s, act, s');
    DoneStaysDead(s, act, s');
    WatermarksStayOrdered(s, act, s');
    LockStaysExclusive(s, act, s');
    BodiesStayIncreasing(s, act, s');
  }

  lemma {:induction false} RunKeepsInv(states: seq<State>, acts: seq<Action>, n: nat)
    requires IsRun(states, acts) && n <= |acts|
    ensures Inv(states[n])
  {
    if n > 0 {
      hide Step, Inv;
      RunKeepsInv(states, acts, n - 1);
      assert Step(states[n - 1], acts[n - 1], states[n]);
      StepKeepsInv(states[n - 1], acts[n - 1], states[n]);
    }
  }

  lemma {:induction false} DeadForever(states: seq<State>, acts: seq<Action>, i: nat, j: nat, x: nat)
    requires IsRun(states, acts) && i <= j <= |acts| && Dead(states[i], x)
    ensures Dead(states[j], x)
  {
    if i < j {
      hide Step, Dead;
      DeadForever(states, acts, i, j - 1, x);
      assert Step(states[j - 1], acts[j - 1], states[j]);
      DeadStaysDead(states[j - 1], acts[j - 1], states[j], x);
    }
  }

  // Once a 401 for epoch e has returned, whether its body ran or it was deduplicated
  // by a watermark, no session of an epoch up to e is ever visible again.
  lemma ReturnedEpochNeverLivesAgain(states: seq<State>, acts: seq<Action>, i: nat, j: nat, t: Thread)
    requires IsRun(states, acts) && i <= j <= |acts|
    requires t in states[i].runs && states[i].runs[t].stage.Returned?
    ensures Visible(states[j]).Some? ==> Visible(states[j]).value.epoch > states[i].runs[t].epoch
  {
    hide Step;
    RunKeepsInv(states, acts, i);
    DeadForever(states, acts, i, j, states[i].runs[t].epoch);
  }

  // A 401 never clears a session newer than its own epoch, and it takes away the
  // session of its own epoch whenever that one is still there.
  lemma ClearTakesOwnEpochOnly(states: seq<State>, acts: seq<Action>, i: nat, t: Thread)
    requires IsRun(states, acts) && i < |acts| && acts[i] == TryClearAuth(t)
    ensures t in states[i].runs
    ensures var e := states[i].runs[t].epoch;
            && (Visible(states[i]).Some? && Visible(states[i]).value.epoch > e ==>
                  Visible(states[i + 1]) == Visible(states[i]) && states[i + 1].runs[t].stage == Finishing)
            && (Visible(states[i]).Some? && Visible(states[i]).value.epoch == e ==>
                  Visible(states[i + 1]).None? && states[i + 1].runs[t].stage == CuttingSsh)
            && !(Visible(states[i]).Some? && Visible(states[i]).value.epoch < e)
  {
    hide ValidSession, PrincipalOf;
    assert Step(states[i], acts[i], states[i + 1]);
    RunKeepsInv(states, acts, i);
  }

  lemma StepRaisesWatermarks(s: State, act: Action, s': State)
    requires Step(s, act, s')
    ensures s.doneThrough <= s'.doneThrough && s.cancelledThrough <= s'.cancelledThrough
  {
    hide ValidSession, PrincipalOf;
  }

  // The watermarks only grow, the done one never overtakes the cancel one, and the
  // cancel one never overtakes the epoch of the store: no call of a session that
  // was installed after everything cancelled so far is cancelled by its epoch.
  lemma {:induction false} WatermarksStayBehind(states: seq<State>, acts: seq<Action>, i: nat, j: nat)
    requires IsRun(states, acts) && i <= j <= |acts|
    ensures states[i].doneThrough <= states[j].doneThrough && states[i].cancelledThrough <= states[j].cancelledThrough
    ensures states[j].doneThrough <= states[j].cancelledThrough <= states[j].mem.sessionEpoch
    ensures Visible(states[j]).Some? ==> states[j].doneThrough < Visible(states[j]).value.epoch
  {
    hide Step, ValidSession;
    RunKeepsInv(states, acts, j);
    if i < j {
      WatermarksStayBehind(states, acts, i, j - 1);
      assert Step(states[j - 1], acts[j - 1], states[j]);
      StepRaisesWatermarks(states[j - 1], acts[j - 1], states[j]);
    }
  }

  // The install of a session cancels just the epochs below its own, and nothing else moves.
  lemma InstallCancelsBelow(s: State, epoch: nat, s': State, older: nat)
    requires Step(s, CancelBefore(epoch), s')
    ensures s'.cancelledThrough >= older <==> s.cancelledThrough >= older || older < epoch
    ensures s' == s.(cancelledThrough := s'.cancelledThrough)
  {
  }

  // Under any interleaving the bodies run for strictly growing epochs above 0, each
  // epoch at most once, and never two at a time.
  lemma BodiesRunOncePerEpoch(states: seq<State>, acts: seq<Action>, n: nat)
    requires IsRun(states, acts) && n <= |acts|
    ensures forall i, j :: 0 <= i < j < |states[n].bodies| ==> 0 < states[n].bodies[i] < states[n].bodies[j]
    ensures forall t, u :: && t in states[n].runs && u in states[n].runs
                           && InBody(states[n].runs[t].stage) && InBody(states[n].runs[u].stage)
                           ==> t == u
  {
    hide Step;
    RunKeepsInv(states, acts, n);
  }

  // ---- cutoffs and newer sessions ----

  predicate EndsSession(act: Action) {
    act.LogoutAuth? || act.ClearAuth? || act.Poison?
  }

  // A login completed after step c whose session nothing has ended before step n.
  ghost predicate LoggedInSince(acts: seq<Action>, c: nat, n: nat) {
    exists k :: c < k < n <= |acts| && acts[k].Login? && forall m :: k < m < n ==> !EndsSession(acts[m])
  }

  predicate Cutting(stage: Stage) {
    stage.CuttingSsh? || stage.LockingGate? || stage.SealingVault? || stage.Emitting?
  }

  lemma CuttingStep(s: State, act: Action, s': State, t: Thread)
    requires Step(s, act, s') && Inv(s) && t in s'.runs && Cutting(s'.runs[t].stage) && act != TryClearAuth(t)
    ensures t in s.runs && Cutting(s.runs[t].stage) && s'.runs[t].epoch == s.runs[t].epoch
    ensures act.Login? ==> (Visible(s').Some? <==> !s.poisoned) && s'.poisoned == s.poisoned
    ensures EndsSession(act) ==> Visible(s').None?
    ensures !act.Login? && !EndsSession(act) ==> Visible(s') == Visible(s) && s'.poisoned == s.poisoned
  {
    hide SnapshotsPast, DoneIsDead, WatermarksOrdered, BodiesIncrease;
    hide ValidSession, SshClosedOnce, Locked, SealedVault, SessionsClosedFor;
    if act.Login? {
      ValidSessionHasPrincipal(act.session);
    }
  }

  lemma ClearHappensOnce(s: State, act: Action, s': State, t: Thread)
    requires Step(s, act, s') && t in s.runs && PastClear(s.runs[t].stage)
    ensures act != TryClearAuth(t) && t in s'.runs && PastClear(s'.runs[t].stage)
  {
    hide ValidSession, PrincipalOf, SshClosedOnce, Locked, SealedVault, SessionsClosedFor, ReauthMarkedIfEpoch, ClearsEpoch,
      SessionInstalled, LoggedOut, NativeCleared, Visible, BindingOf;
  }

  lemma {:induction false} StaysPastClear(states: seq<State>, acts: seq<Action>, c: nat, n: nat, t: Thread)
    requires IsRun(states, acts) && c < n <= |acts| && acts[c] == TryClearAuth(t)
    ensures t in states[n].runs && PastClear(states[n].runs[t].stage)
  {
    if c + 1 == n {
      assert Step(states[c], acts[c], states[n]);
    } else {
      hide Step;
      StaysPastClear(states, acts, c, n - 1, t);
      assert Step(states[n - 1], acts[n - 1], states[n]);
      ClearHappensOnce(states[n - 1], acts[n - 1], states[n], t);
    }
  }

  lemma ClearLeavesNoSession(s: State, s': State, t: Thread)
    requires Step(s, TryClearAuth(t), s') && t in s'.runs && Cutting(s'.runs[t].stage)
    ensures Visible(s').None?
  {
  }

  lemma {:induction false} CutoffsFollowLogins(states: seq<State>, acts: seq<Action>, c: nat, n: nat, t: Thread)
    requires IsRun(states, acts) && c < n <= |acts| && acts[c] == TryClearAuth(t)
    requires t in states[n].runs && Cutting(states[n].runs[t].stage)
    ensures Visible(states[n]).Some? <==> LoggedInSince(acts, c, n)
    ensures states[n].poisoned ==> !LoggedInSince(acts, c, n)
  {
    hide Step, Inv, LoggedInSince, Cutting, PastClear, Visible, EndsSession;
    var s, act, s' := states[n - 1], acts[n - 1], states[n];
    assert Step(s, act, s');
    if c + 1 == n {
      ClearLeavesNoSession(s, s', t);
      NotYetLoggedIn(acts, c);
    } else {
      StaysPastClear(states, acts, c, n - 1, t);
      ClearHappensOnce(s, act, s', t);
      RunKeepsInv(states, acts, n - 1);
      CuttingStep(s, act, s', t);
      CutoffsFollowLogins(states, acts, c, n - 1, t);
      LoggedInOneMore(acts, c, n);
      StepPoison(s, act, s');
    }
  }

  lemma NotYetLoggedIn(acts: seq<Action>, c: nat)
    ensures !LoggedInSince(acts, c, c + 1)
  {
  }

  lemma StepPoison(s: State, act: Action, s': State)
    requires Step(s, act, s')
    ensures s.poisoned ==> s'.poisoned && !act.Login?
    ensures s'.poisoned && !s.poisoned ==> act.Poison? && EndsSession(act)
  {
    hide ValidSession, PrincipalOf;
  }

  // The cutoffs of a 401 (SSH generation, gate, vault, event) meet a visible session
  // exactly when a login was completed after this run's own clear and nothing has
  // ended it since; without such a login they meet none at all.
  lemma CutoffsMeetOnlyLaterLogins(states: seq<State>, acts: seq<Action>, c: nat, n: nat, t: Thread)
    requires IsRun(states, acts) && c < n <= |acts| && acts[c] == TryClearAuth(t)
    requires t in states[n].runs && Cutting(states[n].runs[t].stage)
    ensures Visible(states[n]).Some? <==> LoggedInSince(acts, c, n)
    ensures Visible(states[n]).Some? ==> Visible(states[n]).value.epoch > states[n].runs[t].epoch
  {
    hide Step;
    CutoffsFollowLogins(states, acts, c, n, t);
    RunKeepsInv(states, acts, n);
  }

  lemma LoggedInOneMore(acts: seq<Action>, c: nat, n: nat)
    requires c + 1 < n <= |acts|
    ensures LoggedInSince(acts, c, n) <==>
              acts[n - 1].Login? || (LoggedInSince(acts, c, n - 1) && !EndsSession(acts[n - 1]))
  {
    if LoggedInSince(acts, c, n - 1) && !EndsSession(acts[n - 1]) {
      var k :| c < k < n - 1 && acts[k].Login? && forall m :: k < m < n - 1 ==> !EndsSession(acts[m]);
      assert acts[k].Login? && forall m :: k < m < n ==> !EndsSession(acts[m]);
    }
    if LoggedInSince(acts, c, n) && !acts[n - 1].Login? {
      var k :| c < k < n && acts[k].Login? && forall m :: k < m < n ==> !EndsSession(acts[m]);
      assert k < n - 1 && !EndsSession(acts[n - 1]);
    }
  }

  // Such a login can happen: the 401 of an old session then closes the SSH
  // authority of the new one, whose auth session stays.
  lemma CutoffsCanMeetNewerSession(first: NativeSession, second: NativeSession)
    returns (states: seq<State>, acts: seq<Action>)
    requires ValidSession(first) && ValidSession(second)
    ensures IsRun(states, acts) && acts != [] && acts[|acts| - 1] == CutSsh(0)
    ensures var s, s' := states[|acts| - 1], states[|acts|];
            && 0 in s.runs && s.runs[0].epoch == 1
            && Visible(s).Some? && Visible(s).value.epoch == 2 + 1 && Visible(s') == Visible(s)
            && s'.security.sshGeneration == s.security.sshGeneration + 1
  {
    hide ValidSession;
    ValidSessionHasPrincipal(first);
    ValidSessionHasPrincipal(second);
    hide PrincipalOf;
    var s1 := INIT.(mem := SessionInstalled(EMPTY_MEMORY, first));
    var s2 := s1.(snapshots := {1});
    var s3 := s2.(runs := map[0 := Run401(1, Waiting)]);
    var s4 := Move(s3, 0, Entered).(lockHolder := Some(0));
    var s5 := Move(s4, 0, Raising).(bodies := [1]);
    var s6 := Move(s5, 0, Clearing).(cancelledThrough := 1);
    var s7 := Move(s6, 0, CuttingSsh).(mem := ReauthMarkedIfEpoch(s6.mem, 1));
    var s8 := s7.(mem := SessionInstalled(s7.mem, second));
    var s9 := Move(s8, 0, LockingGate).(security := SshClosedOnce(s8.security));
    states := [INIT, s1, s2, s3, s4, s5, s6, s7, s8, s9];
    acts := [Login(first), Snapshot, Receive401(0, 1), Acquire(0), ReadDone(0), RaiseCancel(0), TryClearAuth(0),
             Login(second), CutSsh(0)];
  }

  // ---- the steps make up the whole call ----

  // The parts of the state that the sequential account of a 401 speaks of.
  function Sequential(s: State): World {
    World(Control(0, s.cancelledThrough, 0, s.doneThrough), s.mem, s.security, [])
  }

  ghost predicate IsPath(states: seq<State>, acts: seq<Action>) {
    |states| == |acts| + 1 && forall i :: 0 <= i < |acts| ==> Step(states[i], acts[i], states[i + 1])
  }

  // A 401 that nothing disturbs does to auth store, watermarks, SSH generation and
  // vault exactly what run_401_for_auth_epoch does as one call.
  lemma UndisturbedStepsAreOneCall(s: State, t: Thread, claimed: bool)
    returns (states: seq<State>, acts: seq<Action>)
    requires At(s, t, Waiting) && s.lockHolder.None?
    ensures IsPath(states, acts) && states[0] == s
    ensures var e, s' := s.runs[t].epoch, states[|acts|];
            var expected := Invalidation.Run401(Sequential(s), Request(e, s.poisoned, claimed));
            && t in s'.runs && s'.runs[t] == Run401(e, Returned(s.doneThrough < e)) && s'.lockHolder.None?
            && s'.mem == expected.mem && s'.security == expected.security
            && s'.cancelledThrough == expected.control.cancelledThrough
            && s'.doneThrough == expected.control.doneThrough
  {
    hide PrincipalOf, ValidSession, Step;
    var e := s.runs[t].epoch;
    if s.doneThrough >= e {
      states, acts := DuplicateSteps(s, t);
    } else {
      var prefix, prefixActs := EnterBody(s, t);
      var s3 := prefix[3];
      var rest, restActs := FinishBodyFrom(s3, t, claimed);
      states := prefix[..3] + rest;
      acts := prefixActs + restActs;
    }
  }

  lemma DuplicateSteps(s: State, t: Thread) returns (states: seq<State>, acts: seq<Action>)
    requires At(s, t, Waiting) && s.lockHolder.None? && s.doneThrough >= s.runs[t].epoch
    ensures IsPath(states, acts) && |acts| == 4 && states[0] == s
    ensures states[4] == Move(s, t, Returned(false)).(cancelledThrough := Max(s.cancelledThrough, s.runs[t].epoch))
  {
    hide PrincipalOf, ValidSession, Max;
    var s1 := Move(s, t, Entered).(lockHolder := Some(t));
    var s2 := Move(s1, t, Duplicate);
    var s3 := Move(s2, t, Releasing(false)).(cancelledThrough := Max(s.cancelledThrough, s.runs[t].epoch));
    var s4 := Move(s3, t, Returned(false)).(lockHolder := None);
    states, acts := [s, s1, s2, s3, s4], [Acquire(t), ReadDone(t), RaiseCancel(t), Release(t)];
  }

  lemma EnterBody(s: State, t: Thread) returns (states: seq<State>, acts: seq<Action>)
    requires At(s, t, Waiting) && s.lockHolder.None? && s.doneThrough < s.runs[t].epoch
    ensures IsPath(states, acts) && |acts| == 3 && states[0] == s
    ensures states[3] == Move(s, t, Clearing).(lockHolder := Some(t), bodies := s.bodies + [s.runs[t].epoch],
                                               cancelledThrough := Max(s.cancelledThrough, s.runs[t].epoch))
  {
    hide PrincipalOf, ValidSession, Max;
    var s1 := Move(s, t, Entered).(lockHolder := Some(t));
    var s2 := Move(s1, t, Raising).(bodies := s.bodies + [s.runs[t].epoch]);
    var s3 := Move(s2, t, Clearing).(cancelledThrough := Max(s.cancelledThrough, s.runs[t].epoch));
    states, acts := [s, s1, s2, s3], [Acquire(t), ReadDone(t), RaiseCancel(t)];
  }

  lemma FinishBodyFrom(s: State, t: Thread, claimed: bool) returns (states: seq<State>, acts: seq<Action>)
    requires At(s, t, Clearing) && s.lockHolder == Some(t)
    ensures IsPath(states, acts) && states[0] == s
    ensures var e := s.runs[t].epoch;
            var cut := AppliesCutoffs(s.mem, Request(e, s.poisoned, claimed));
            states[|acts|] == Move(s, t, Returned(true)).(
              mem := if s.poisoned then s.mem else ReauthMarkedIfEpoch(s.mem, e),
              security := if cut then CutAndSeal(s.security, claimed) else s.security,
              doneThrough := Max(s.doneThrough, e), lockHolder := None)
  {
    hide PrincipalOf, ValidSession, Max;
    var e := s.runs[t].epoch;
    var mem := if s.poisoned then s.mem else ReauthMarkedIfEpoch(s.mem, e);
    if AppliesCutoffs(s.mem, Request(e, s.poisoned, claimed)) {
      var s1 := Move(s, t, CuttingSsh).(mem := mem);
      assert Step(s, TryClearAuth(t), s1);
      hide Step;
      states, acts := FinishWithCutoffs(s1, t, claimed);
    } else {
      var s1 := Move(s, t, Finishing).(mem := mem);
      assert Step(s, TryClearAuth(t), s1);
      hide Step;
      states, acts := FinishDone(s1, t);
    }
    states, acts := [s] + states, [TryClearAuth(t)] + acts;
  }

  lemma FinishWithCutoffs(s: State, t: Thread, claimed: bool) returns (states: seq<State>, acts: seq<Action>)
    requires At(s, t, CuttingSsh) && s.lockHolder == Some(t)
    ensures IsPath(states, acts) && states[0] == s
    ensures states[|acts|] == Move(s, t, Returned(true)).(
              security := CutAndSeal(s.security, claimed), doneThrough := Max(s.doneThrough, s.runs[t].epoch), lockHolder := None)
  {
    hide PrincipalOf, ValidSession, Max, SshClosedOnce, Locked, SealedVault, SessionsClosedFor, BareSealed;
    var s1 := Move(s, t, LockingGate).(security := SshClosedOnce(s.security));
    var s2 := Move(s1, t, SealingVault).(security := Locked(s1.security));
    assert Step(s, CutSsh(t), s1) && Step(s1, LockGate(t), s2);
    hide Step;
    var rest, restActs := FinishWithSeal(s2, t, claimed);
    states := [s, s1] + rest;
    acts := [CutSsh(t), LockGate(t)] + restActs;
  }

  lemma FinishWithSeal(s: State, t: Thread, claimed: bool) returns (states: seq<State>, acts: seq<Action>)
    requires At(s, t, SealingVault) && s.lockHolder == Some(t)
    ensures IsPath(states, acts) && states[0] == s && |acts| == 4
    ensures states[4] == Move(s, t, Returned(true)).(
              security := if claimed then SealedVault(SessionsClosedFor(s.security)) else s.security,
              doneThrough := Max(s.doneThrough, s.runs[t].epoch), lockHolder := None)
  {
    hide PrincipalOf, ValidSession, Max, SshClosedOnce, Locked, SealedVault, SessionsClosedFor;
    var s1 := Move(s, t, Emitting).(security := if claimed then SealedVault(SessionsClosedFor(s.security)) else s.security);
    assert Step(s, SealVault(t, claimed), s1);
    hide Step;
    var rest, restActs := FinishBody(s1, t);
    states := [s] + rest;
    acts := [SealVault(t, claimed)] + restActs;
  }

  lemma FinishBody(s: State, t: Thread) returns (states: seq<State>, acts: seq<Action>)
    requires At(s, t, Emitting) && s.lockHolder == Some(t)
    ensures IsPath(states, acts) && states[0] == s && |acts| == 3
    ensures states[3] == Move(s, t, Returned(true)).(doneThrough := Max(s.doneThrough, s.runs[t].epoch), lockHolder := None)
  {
    hide PrincipalOf, ValidSession, Max;
    var s1 := Move(s, t, Finishing);
    assert Step(s, EmitInvalidated(t), s1);
    hide Step;
    states, acts := FinishDone(s1, t);
    states, acts := [s] + states, [EmitInvalidated(t)] + acts;
  }

  lemma FinishDone(s: State, t: Thread) returns (states: seq<State>, acts: seq<Action>)
    requires At(s, t, Finishing) && s.lockHolder == Some(t)
    ensures IsPath(states, acts) && states[0] == s && |acts| == 2
    ensures states[2] == Move(s, t, Returned(true)).(doneThrough := Max(s.doneThrough, s.runs[t].epoch), lockHolder := None)
  {
    hide PrincipalOf, ValidSession, Max;
    var s1 := Move(s, t, Releasing(true)).(doneThrough := Max(s.doneThrough, s.runs[t].epoch));
    var s2 := Move(s1, t, Returned(true)).(lockHolder := None);
    states, acts := [s, s1, s2], [MarkDone(t), Release(t)];
  }
}
