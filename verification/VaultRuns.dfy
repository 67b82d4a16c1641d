// The seals of VaultLifecycle in all interleavings: several threads in idle, sleep,
// resume, exit, user-lock and logout paths at once, against unlocks and other SSH
// closes. One action is one atomic operation on the cutoff, one access to the vault
// state or one step of the sealing gate.
module VaultRuns {
  import opened Wrappers
  import opened LocalSsh
  import V = VaultLifecycle

  type Thread = nat

  // Logout: cut, then lock_with_reason; a session install and a 401 do the same.
  // BareSeal: lock_with_reason alone, as every binding check of the vault that fails.
  datatype Path = Idle | Sleep | Resume | Exit | UserLock | Logout | BareSeal

  datatype Ended = Sealed | NotNeeded | Failed

  datatype Stage =
    | Swapping            // exit_done swap next
    | ExitProbing         // exit's own look at the vault
    | Reading             // user lock reads the SSH generation
    | CutClosing          // logout's SSH close, then
    | CutLocking          // its gate lock
    | Probing             // seal_if_unlocked looks before it claims
    | Claiming
    | Rechecking          // sealing gate held from here
    | PreClosing          // pre_seal: SSH close, then
    | PreLocking          // gate lock
    | ClosingSessions
    | Sealing
    | Releasing(r: Ended)
    | Comparing           // user lock compares generations
    | FailClosing
    | FailLocking
    | EnsureLocking       // nothing sealed, lock the gate only
    | Returned(r: Ended)

  // start: the SSH generation at the call, or at the user lock's own read. bumps and
  // locked: what this run itself did to the cutoff. acted: an exit that won the swap.
  datatype Run = Run(path: Path, stage: Stage, start: nat, bumps: nat, locked: bool, acted: bool)

  datatype Shared =
    Shared(generation: nat, cutoffLocked: bool, unlockedFor: Option<AuthBinding>, gate: Option<Thread>, exitDone: bool)

  datatype State = State(shared: Shared, runs: map<Thread, Run>)

  const INIT := State(Shared(0, true, None, None, false), map[])

  // What a step meets: how a claim ends, whether the idle deadline still stands,
  // whether the seal fails before or after pre_seal.
  datatype Choice = Choice(claim: V.Claim, due: bool, failsBefore: bool, failsAfter: bool)

  datatype Action =
    | Call(t: Thread, path: Path)
    | Advance(t: Thread, choice: Choice)
    | OpenVault(binding: AuthBinding)               // an unlock, which the gate keeps out of a seal
    | NotifyUnlocked
    | OtherClose | OtherLock

  predicate Unconditional(path: Path) {
    path.Logout? || path.BareSeal?
  }

  function FirstStage(path: Path): Stage {
    match path
    case Idle => Claiming
    case Sleep => Probing
    case Resume => Probing
    case Exit => Swapping
    case UserLock => Reading
    case Logout => CutClosing
    case BareSeal => Claiming
  }

  // Where a seal attempt's outcome leads.
  function After(path: Path, r: Ended): Stage {
    match r
    case Sealed => Returned(Sealed)
    case Failed => if Unconditional(path) then Returned(Failed) else if path.UserLock? then Comparing else FailClosing
    case NotNeeded => if path.Resume? || path.Exit? || path.UserLock? then EnsureLocking else Returned(NotNeeded)
  }

  // A run and the shared state after one of its steps.
  datatype Moved = Moved(run: Run, shared: Shared)

  function To(run: Run, s: Shared, stage: Stage): Moved {
    Moved(run.(stage := stage), s)
  }

  function Bumped(run: Run, s: Shared, stage: Stage): Moved {
    Moved(run.(stage := stage, bumps := run.bumps + 1), s.(generation := s.generation + 1))
  }

  function LockedBy(run: Run, s: Shared, stage: Stage): Moved {
    Moved(run.(stage := stage, locked := true), s.(cutoffLocked := true))
  }

  // A blocking claim waits for the gate; only the idle claim gives up on a busy one.
  predicate CanMove(run: Run, s: Shared, c: Choice) {
    && !run.stage.Returned?
    && (run.stage.Claiming? ==> c.claim.ClaimFails? || (c.claim.Granted? && s.gate.None?) || (c.claim.Busy? && run.path.Idle?))
  }

  function Claimed(run: Run, s: Shared, t: Thread, c: Choice): Moved {
    match c.claim
    case Granted => To(run, s.(gate := Some(t)), if Unconditional(run.path) then ClosingSessions else Rechecking)
    case Busy => To(run, s, After(run.path, NotNeeded))
    case ClaimFails => To(run, s, After(run.path, Failed))
  }

  function Next(run: Run, s: Shared, t: Thread, c: Choice): Moved {
    match run.stage
    case Swapping =>
      if s.exitDone then To(run, s, Returned(NotNeeded))
      else Moved(run.(stage := ExitProbing, acted := true), s.(exitDone := true))
    case ExitProbing => To(run, s, if s.unlockedFor.Some? then Probing else EnsureLocking)
    case Reading => Moved(run.(stage := Probing, start := s.generation), s)
    case CutClosing => Bumped(run, s, CutLocking)
    case CutLocking => LockedBy(run, s, Claiming)
    case Probing => To(run, s, if s.unlockedFor.Some? then Claiming else After(run.path, NotNeeded))
    case Claiming => Claimed(run, s, t, c)
    case Rechecking =>
      To(run, s, if s.unlockedFor.None? || (run.path.Idle? && !c.due) then Releasing(NotNeeded)
                 else if c.failsBefore then Releasing(Failed)
                 else PreClosing)
    case PreClosing => Bumped(run, s, PreLocking)
    case PreLocking => LockedBy(run, s, ClosingSessions)
    case ClosingSessions => To(run, s, Sealing)
    case Sealing =>
      if c.failsAfter then To(run, s, Releasing(Failed)) else To(run, s.(unlockedFor := None), Releasing(Sealed))
    case Releasing(r) => To(run, s.(gate := None), After(run.path, r))
    case Comparing => To(run, s, if s.generation == run.start then FailClosing else FailLocking)
    case FailClosing => Bumped(run, s, FailLocking)
    case FailLocking => LockedBy(run, s, Returned(Failed))
    case EnsureLocking => LockedBy(run, s, Returned(NotNeeded))
    case Returned(_) => Moved(run, s)
  }

  predicate Step(s: State, act: Action, s': State) {
    match act
    case Call(t, path) =>
      t !in s.runs && s' == s.(runs := s.runs[t := Run(path, FirstStage(path), s.shared.generation, 0, false, false)])
    case Advance(t, c) =>
      && t in s.runs && CanMove(s.runs[t], s.shared, c)
      && s' == State(Next(s.runs[t], s.shared, t, c).shared, s.runs[t := Next(s.runs[t], s.shared, t, c).run])
    case OpenVault(binding) => s.shared.gate.None? && s' == s.(shared := s.shared.(unlockedFor := Some(binding)))
    case NotifyUnlocked => s' == s.(shared := s.shared.(cutoffLocked := false))
    case OtherClose => s' == s.(shared := s.shared.(generation := s.shared.generation + 1))
    case OtherLock => s' == s.(shared := s.shared.(cutoffLocked := true))
  }

  ghost predicate IsRun(states: seq<State>, acts: seq<Action>) {
    && |states| == |acts| + 1 && states[0] == INIT
    && forall i :: 0 <= i < |acts| ==> Step(states[i], acts[i], states[i + 1])
  }

  function StepsLeft(stage: Stage): nat {
    match stage
    case Swapping => 14
    case ExitProbing => 13
    case Reading => 13
    case CutClosing => 13
    case CutLocking => 12
    case Probing => 12
    case Claiming => 11
    case Rechecking => 10
    case PreClosing => 9
    case PreLocking => 8
    case ClosingSessions => 7
    case Sealing => 6
    case Releasing(_) => 5
    case Comparing => 4
    case FailClosing => 3
    case FailLocking => 2
    case EnsureLocking => 1
    case Returned(_) => 0
  }

  predicate HoldsGate(stage: Stage) {
    || stage.Rechecking? || stage.PreClosing? || stage.PreLocking? || stage.ClosingSessions? || stage.Sealing?
    || stage.Releasing?
  }

  // Past the recheck: the vault has been found unlocked under the gate.
  predicate Committed(run: Run) {
    && !Unconditional(run.path)
    && (run.stage.PreClosing? || run.stage.PreLocking? || run.stage.ClosingSessions? || run.stage.Sealing?)
  }

  predicate Released(run: Run, r: Ended) {
    match r
    case Sealed => run.path.BareSeal? || (run.bumps == 1 && run.locked)
    case NotNeeded => run.bumps == 0 && !Unconditional(run.path)
    case Failed => run.bumps <= 1
  }

  predicate FailedBy(run: Run) {
    run.bumps <= 2 && if run.path.UserLock? then run.bumps <= 1 else 1 <= run.bumps
  }

  predicate Over(run: Run, r: Ended) {
    match r
    case Sealed => Released(run, r)
    case NotNeeded => run.bumps == 0
    case Failed => Unconditional(run.path) || (run.locked && FailedBy(run))
  }

  // What a run has done to the cutoff by the time it is where it is.
  predicate Ledger(run: Run) {
    match run.stage
    case Swapping => run.bumps == 0 && run.path.Exit?
    case ExitProbing => run.bumps == 0 && run.path.Exit?
    case Reading => run.bumps == 0 && run.path.UserLock?
    case Probing => run.bumps == 0 && !Unconditional(run.path)
    case Claiming => if run.path.Logout? then run.bumps == 1 && run.locked else run.bumps == 0
    case CutClosing => run.bumps == 0 && run.path.Logout?
    case CutLocking => run.bumps == 1 && run.path.Logout?
    case Rechecking => run.bumps == 0 && !Unconditional(run.path)
    case PreClosing => run.bumps == 0 && !Unconditional(run.path)
    case PreLocking => run.bumps == 1 && !Unconditional(run.path)
    case ClosingSessions => Released(run, Sealed)
    case Sealing => Released(run, Sealed)
    case Releasing(r) => Released(run, r) && run.bumps <= 1
    case Comparing => run.bumps <= 1 && run.path.UserLock?
    case FailClosing => !Unconditional(run.path) && run.bumps <= 1
    case FailLocking => !Unconditional(run.path) && FailedBy(run)
    case EnsureLocking => run.bumps == 0 && !Unconditional(run.path)
    case Returned(r) => Over(run, r)
  }

  // A run's own closes are in the generation, and a failed user lock has seen it move;
  // one that is about to close again has not closed before.
  predicate Counted(run: Run, s: Shared) {
    && run.start + run.bumps <= s.generation && (run.path.BareSeal? ==> run.bumps == 0)
    && (run.path.UserLock? && run.stage.FailClosing? ==> run.bumps == 0)
    && (run.path.UserLock? && (run.stage.FailLocking? || run.stage == Returned(Failed)) ==> run.start < s.generation)
  }

  predicate Tracked(run: Run, s: Shared) {
    Ledger(run) && Counted(run, s)
  }

  lemma EarlyMoveKeepsLedger(run: Run, s: Shared, t: Thread, c: Choice)
    requires CanMove(run, s, c) && Tracked(run, s) && StepsLeft(run.stage) > 10
    ensures Tracked(Next(run, s, t, c).run, Next(run, s, t, c).shared)
  {
    hide HoldsGate;
  }

  lemma GatedMoveKeepsLedger(run: Run, s: Shared, t: Thread, c: Choice)
    requires CanMove(run, s, c) && Tracked(run, s) && HoldsGate(run.stage)
    ensures Tracked(Next(run, s, t, c).run, Next(run, s, t, c).shared)
  {
    hide StepsLeft;
  }

  lemma LateMoveKeepsLedger(run: Run, s: Shared, t: Thread, c: Choice)
    requires CanMove(run, s, c) && Tracked(run, s) && StepsLeft(run.stage) < 5
    ensures Tracked(Next(run, s, t, c).run, Next(run, s, t, c).shared)
  {
    hide HoldsGate;
  }

  lemma MoveKeepsLedger(run: Run, s: Shared, t: Thread, c: Choice)
    requires CanMove(run, s, c) && Tracked(run, s)
    ensures Tracked(Next(run, s, t, c).run, Next(run, s, t, c).shared)
  {
    GateStages(run.stage);
    hide Next, Tracked, CanMove, StepsLeft, HoldsGate;
    if StepsLeft(run.stage) > 10 {
      EarlyMoveKeepsLedger(run, s, t, c);
    } else if HoldsGate(run.stage) {
      GatedMoveKeepsLedger(run, s, t, c);
    } else {
      LateMoveKeepsLedger(run, s, t, c);
    }
  }

  lemma GateStages(stage: Stage)
    ensures HoldsGate(stage) <==> 5 <= StepsLeft(stage) <= 10
  {
  }

  lemma MoveFrame(run: Run, s: Shared, t: Thread, c: Choice)
    requires CanMove(run, s, c)
    ensures var m := Next(run, s, t, c);
            && s.generation <= m.shared.generation && m.run.path == run.path
            && (m.shared.unlockedFor != s.unlockedFor ==> run.stage.Sealing?)
            && (m.shared.gate != s.gate ==> if s.gate.None? then m.shared.gate == Some(t) else HoldsGate(run.stage))
            && (s.cutoffLocked ==> m.shared.cutoffLocked)
            && (s.exitDone ==> m.shared.exitDone)
            && (m.run.acted != run.acted ==> m.run.acted && !s.exitDone && m.shared.exitDone && run.stage.Swapping?)
            && (m.run.stage == Returned(NotNeeded) || !m.run.stage.Swapping?)
            && (run.stage.Swapping? && !m.run.acted && !run.acted ==> m.run.stage == Returned(NotNeeded))
  {
  }

  predicate Gated(run: Run, s: Shared, t: Thread) {
    (HoldsGate(run.stage) <==> s.gate == Some(t)) && (Committed(run) ==> s.unlockedFor.Some?)
  }

  lemma GatedMoveKeepsGate(run: Run, s: Shared, t: Thread, c: Choice)
    requires CanMove(run, s, c) && Gated(run, s, t) && HoldsGate(run.stage)
    ensures Gated(Next(run, s, t, c).run, Next(run, s, t, c).shared, t)
  {
  }

  lemma OtherMoveKeepsGate(run: Run, s: Shared, t: Thread, c: Choice)
    requires CanMove(run, s, c) && Gated(run, s, t) && !HoldsGate(run.stage)
    ensures Gated(Next(run, s, t, c).run, Next(run, s, t, c).shared, t)
  {
  }

  lemma MoveKeepsGate(run: Run, s: Shared, t: Thread, c: Choice)
    requires CanMove(run, s, c) && Gated(run, s, t)
    ensures Gated(Next(run, s, t, c).run, Next(run, s, t, c).shared, t)
  {
    hide Next, Gated, CanMove, HoldsGate;
    if HoldsGate(run.stage) {
      GatedMoveKeepsGate(run, s, t, c);
    } else {
      OtherMoveKeepsGate(run, s, t, c);
    }
  }

  ghost predicate RunsOk(s: State) {
    forall t :: t in s.runs ==> Tracked(s.runs[t], s.shared)
  }

  ghost predicate GateOk(s: State) {
    && (s.shared.gate.Some? ==> s.shared.gate.value in s.runs)
    && (forall t :: t in s.runs ==> (HoldsGate(s.runs[t].stage) <==> s.shared.gate == Some(t)))
    && (forall t :: t in s.runs && Committed(s.runs[t]) ==> s.shared.unlockedFor.Some?)
  }

  ghost predicate ExitOnce(s: State) {
    && (forall t :: t in s.runs && s.runs[t].acted ==> s.shared.exitDone)
    && (forall t, u :: t in s.runs && u in s.runs && s.runs[t].acted && s.runs[u].acted ==> t == u)
    && (forall t :: t in s.runs && s.runs[t].path.Exit? && !s.runs[t].acted ==>
          s.runs[t].stage.Swapping? || s.runs[t].stage == Returned(NotNeeded))
  }

  lemma StepKeepsRuns(s: State, act: Action, s': State)
    requires Step(s, act, s') && RunsOk(s)
    ensures RunsOk(s')
  {
    if act.Advance? {
      MoveFrame(s.runs[act.t], s.shared, act.t, act.choice);
      MoveKeepsLedger(s.runs[act.t], s.shared, act.t, act.choice);
      hide Next, Ledger, CanMove;
    }
  }

  lemma StepKeepsGate(s: State, act: Action, s': State)
    requires Step(s, act, s') && GateOk(s)
    ensures GateOk(s')
  {
    if act.Advance? {
      MoveFrame(s.runs[act.t], s.shared, act.t, act.choice);
      MoveKeepsGate(s.runs[act.t], s.shared, act.t, act.choice);
      hide Next, CanMove;
      forall u | u in s.runs && u != act.t
        ensures HoldsGate(s'.runs[u].stage) <==> s'.shared.gate == Some(u)
        ensures Committed(s'.runs[u]) ==> s'.shared.unlockedFor.Some?
      {
        assert s'.runs[u] == s.runs[u];
        assert HoldsGate(s.runs[u].stage) <==> s.shared.gate == Some(u);
        assert HoldsGate(s.runs[act.t].stage) <==> s.shared.gate == Some(act.t);
      }
    }
  }

  lemma StepKeepsExitOnce(s: State, act: Action, s': State)
    requires Step(s, act, s') && ExitOnce(s)
    ensures ExitOnce(s')
  {
    if act.Advance? {
      MoveFrame(s.runs[act.t], s.shared, act.t, act.choice);
      hide Next;
    }
  }

  ghost predicate Inv(s: State) {
    RunsOk(s) && GateOk(s) && ExitOnce(s)
  }

  lemma {:induction false} RunKeepsInv(states: seq<State>, acts: seq<Action>, n: nat)
    requires IsRun(states, acts) && n <= |acts|
    ensures Inv(states[n])
  {
    if n > 0 {
      hide Step, RunsOk, GateOk, ExitOnce;
      RunKeepsInv(states, acts, n - 1);
      assert Step(states[n - 1], acts[n - 1], states[n]);
      StepKeepsRuns(states[n - 1], acts[n - 1], states[n]);
      StepKeepsGate(states[n - 1], acts[n - 1], states[n]);
      StepKeepsExitOnce(states[n - 1], acts[n - 1], states[n]);
    }
  }

  // ---- main results ----

  // In every interleaving a path that seals the vault holds the gate alone. It has
  // itself closed SSH, exactly once, and locked the cutoff, exactly when it is not a bare
  // seal; then every generation captured before its call is dead by now. A lifecycle
  // path or user lock finds the vault still unlocked.
  lemma SealFollowsOwnCut(states: seq<State>, acts: seq<Action>, n: nat, t: Thread)
    requires IsRun(states, acts) && n <= |acts|
    requires t in states[n].runs && states[n].runs[t].stage.Sealing?
    ensures var s, run := states[n], states[n].runs[t];
            && s.shared.gate == Some(t) && (forall u :: u in s.runs && HoldsGate(s.runs[u].stage) ==> u == t)
            && (!Unconditional(run.path) ==> s.shared.unlockedFor.Some?)
            && (run.bumps == 1 && run.locked <==> !run.path.BareSeal?)
            && (run.path.BareSeal? ==> run.bumps == 0)
            && (!run.path.BareSeal? ==> run.start < s.shared.generation)
  {
    hide Step;
    RunKeepsInv(states, acts, n);
  }

  // A bare seal can close an unlocked vault with the cutoff open and no generation
  // moved at all.
  lemma BareSealWithoutCut(binding: AuthBinding) returns (states: seq<State>, acts: seq<Action>)
    ensures IsRun(states, acts) && acts != []
    ensures var s, s' := states[|acts| - 1].shared, states[|acts|].shared;
            && s.unlockedFor == Some(binding) && s'.unlockedFor.None?
            && !s.cutoffLocked && s.generation == s'.generation == 0
  {
    var c := Choice(V.Granted, true, false, false);
    var open := Shared(0, false, Some(binding), None, false);
    var held := open.(gate := Some(0));
    var run := Run(BareSeal, Claiming, 0, 0, false, false);
    var s1 := State(Shared(0, true, Some(binding), None, false), map[]);
    var s2 := State(open, map[]);
    var s3 := State(open, map[0 := run]);
    var s4 := State(held, map[0 := run.(stage := ClosingSessions)]);
    var s5 := State(held, map[0 := run.(stage := Sealing)]);
    var s6 := State(held.(unlockedFor := None), map[0 := run.(stage := Releasing(Sealed))]);
    states := [INIT, s1, s2, s3, s4, s5, s6];
    acts := [OpenVault(binding), NotifyUnlocked, Call(0, BareSeal), Advance(0, c), Advance(0, c), Advance(0, c)];
  }

  // ---- the cutoff at the moment of a seal ----

  predicate LocksCutoff(s: State, act: Action) {
    || act.OtherLock?
    || (act.Advance? && act.t in s.runs
        && (s.runs[act.t].stage.CutLocking? || s.runs[act.t].stage.PreLocking? || s.runs[act.t].stage.FailLocking?
            || s.runs[act.t].stage.EnsureLocking?))
  }

  lemma StepSetsCutoff(s: State, act: Action, s': State)
    requires Step(s, act, s')
    ensures s'.shared.cutoffLocked <==> LocksCutoff(s, act) || (s.shared.cutoffLocked && !act.NotifyUnlocked?)
  {
  }

  // An unlock notification from step i on that no lock has followed before step n.
  ghost predicate ReopenedSince(states: seq<State>, acts: seq<Action>, i: nat, n: nat)
    requires |states| == |acts| + 1 && n <= |acts|
  {
    exists k :: i <= k < n && acts[k].NotifyUnlocked? && forall m :: k < m < n ==> !LocksCutoff(states[m], acts[m])
  }

  lemma ReopenedOneMore(states: seq<State>, acts: seq<Action>, i: nat, n: nat)
    requires |states| == |acts| + 1 && i < n <= |acts|
    ensures ReopenedSince(states, acts, i, n) <==>
              acts[n - 1].NotifyUnlocked? || (ReopenedSince(states, acts, i, n - 1) && !LocksCutoff(states[n - 1], acts[n - 1]))
  {
    if ReopenedSince(states, acts, i, n - 1) && !LocksCutoff(states[n - 1], acts[n - 1]) {
      var k :| i <= k < n - 1 && acts[k].NotifyUnlocked? && forall m :: k < m < n - 1 ==> !LocksCutoff(states[m], acts[m]);
      assert acts[k].NotifyUnlocked? && forall m :: k < m < n ==> !LocksCutoff(states[m], acts[m]);
    }
    if ReopenedSince(states, acts, i, n) && !acts[n - 1].NotifyUnlocked? {
      var k :| i <= k < n && acts[k].NotifyUnlocked? && forall m :: k < m < n ==> !LocksCutoff(states[m], acts[m]);
      assert k < n - 1 && !LocksCutoff(states[n - 1], acts[n - 1]);
    }
  }

  // From a locked cutoff on, it is open exactly when it was reopened and not locked again.
  lemma {:induction false} OpenIffReopened(states: seq<State>, acts: seq<Action>, i: nat, n: nat)
    requires IsRun(states, acts) && i <= n <= |acts| && states[i].shared.cutoffLocked
    ensures !states[n].shared.cutoffLocked <==> ReopenedSince(states, acts, i, n)
  {
    if i < n {
      hide Step, LocksCutoff, ReopenedSince;
      OpenIffReopened(states, acts, i, n - 1);
      assert Step(states[n - 1], acts[n - 1], states[n]);
      StepSetsCutoff(states[n - 1], acts[n - 1], states[n]);
      ReopenedOneMore(states, acts, i, n);
      NotifyIsNoLock(states[n - 1], acts[n - 1]);
    }
  }

  lemma NotifyIsNoLock(s: State, act: Action)
    ensures act.NotifyUnlocked? ==> !LocksCutoff(s, act)
  {
  }

  // Step c is thread t's own lock on its way to a seal.
  predicate OwnLock(states: seq<State>, acts: seq<Action>, c: nat, t: Thread)
    requires |states| == |acts| + 1
  {
    && c < |acts| && acts[c].Advance? && acts[c].t == t && t in states[c].runs
    && (states[c].runs[t].stage.CutLocking? || states[c].runs[t].stage.PreLocking?)
  }

  // Before its seal is over a run has locked only at such a step.
  predicate Underway(stage: Stage) {
    !stage.Returned? && StepsLeft(stage) >= 5
  }

  lemma LockedFlagStep(s: State, act: Action, s': State, t: Thread)
    requires Step(s, act, s') && t in s'.runs && Underway(s'.runs[t].stage) && s'.runs[t].locked
    ensures t in s.runs
    ensures || (act.Advance? && act.t == t && (s.runs[t].stage.CutLocking? || s.runs[t].stage.PreLocking?))
            || (s.runs[t].locked && Underway(s.runs[t].stage))
  {
    if act.Advance? && act.t == t {
      var run := s.runs[t];
      StepsRunOut(run, s.shared, t, act.choice);
      LockedFlagMove(run, s.shared, t, act.choice);
    }
  }

  lemma LockedFlagMove(run: Run, s: Shared, t: Thread, c: Choice)
    requires !run.stage.Returned?
    ensures Next(run, s, t, c).run.locked ==>
              run.locked || run.stage.CutLocking? || run.stage.PreLocking? || run.stage.FailLocking? || run.stage.EnsureLocking?
  {
  }

  lemma {:induction false} OwnLockExists(states: seq<State>, acts: seq<Action>, n: nat, t: Thread) returns (c: nat)
    requires IsRun(states, acts) && n <= |acts|
    requires t in states[n].runs && Underway(states[n].runs[t].stage) && states[n].runs[t].locked
    ensures c < n && OwnLock(states, acts, c, t)
  {
    var s, act := states[n - 1], acts[n - 1];
    assert Step(s, act, states[n]);
    LockedFlagStep(s, act, states[n], t);
    if t in s.runs && s.runs[t].locked && Underway(s.runs[t].stage) {
      hide Step;
      c := OwnLockExists(states, acts, n - 1, t);
    } else {
      c := n - 1;
    }
  }

  // A path that seals and is no bare seal has locked the cutoff itself before, and at
  // the moment of its seal the cutoff is open exactly when an unlock notification came
  // after that lock and no lock after the notification.
  lemma CutoffAtSeal(states: seq<State>, acts: seq<Action>, n: nat, t: Thread)
    requires IsRun(states, acts) && n <= |acts|
    requires t in states[n].runs && states[n].runs[t].stage.Sealing? && !states[n].runs[t].path.BareSeal?
    ensures exists c :: 0 <= c < n && OwnLock(states, acts, c, t)
    ensures forall c :: 0 <= c < n && OwnLock(states, acts, c, t) ==>
              (!states[n].shared.cutoffLocked <==> ReopenedSince(states, acts, c + 1, n))
  {
    hide Step, ReopenedSince, LocksCutoff, OwnLock;
    SealFollowsOwnCut(states, acts, n, t);
    var c := OwnLockExists(states, acts, n, t);
    forall c: nat | c < n && OwnLock(states, acts, c, t)
      ensures !states[n].shared.cutoffLocked <==> ReopenedSince(states, acts, c + 1, n)
    {
      OwnLockLocks(states, acts, c, t);
      OpenIffReopened(states, acts, c + 1, n);
    }
  }

  lemma OwnLockLocks(states: seq<State>, acts: seq<Action>, c: nat, t: Thread)
    requires IsRun(states, acts) && c < |acts| && OwnLock(states, acts, c, t)
    ensures states[c + 1].shared.cutoffLocked
  {
    assert Step(states[c], acts[c], states[c + 1]);
  }

  lemma ExtendRun(states: seq<State>, acts: seq<Action>, act: Action, s': State)
    requires IsRun(states, acts) && Step(states[|acts|], act, s')
    ensures IsRun(states + [s'], acts + [act])
  {
    hide Step;
    var longer, more := states + [s'], acts + [act];
    forall i | 0 <= i < |more| ensures Step(longer[i], more[i], longer[i + 1]) {
      if i < |acts| {
        assert Step(states[i], acts[i], states[i + 1]);
      }
    }
  }

  lemma SleepCommits(binding: AuthBinding, c: Choice) returns (states: seq<State>, acts: seq<Action>)
    requires c == Choice(V.Granted, true, false, false)
    ensures IsRun(states, acts)
    ensures states[|acts|]
         == State(Shared(0, true, Some(binding), Some(0), false), map[0 := Run(Sleep, PreClosing, 0, 0, false, false)])
  {
    var open := Shared(0, true, Some(binding), None, false);
    var held := open.(gate := Some(0));
    var run := Run(Sleep, Probing, 0, 0, false, false);
    var go := Advance(0, c);
    states := [INIT, State(open, map[]), State(open, map[0 := run]), State(open, map[0 := run.(stage := Claiming)]),
               State(held, map[0 := run.(stage := Rechecking)])];
    acts := [OpenVault(binding), Call(0, Sleep), go, go];
    var next := State(held, map[0 := run.(stage := PreClosing)]);
    assert Step(states[4], go, next);
    hide Step;
    ExtendRun(states, acts, go, next);
    states, acts := states + [next], acts + [go];
  }

  // It can be open: a sleep seals an unlocked vault just after a late notification.
  lemma SleepSealsWithCutoffOpen(binding: AuthBinding) returns (states: seq<State>, acts: seq<Action>)
    ensures IsRun(states, acts) && acts != []
    ensures var s, s' := states[|acts| - 1], states[|acts|];
            && 0 in s.runs && s.runs[0].path.Sleep? && s.runs[0].stage.Sealing?
            && s.shared.unlockedFor == Some(binding) && s'.shared.unlockedFor.None? && !s.shared.cutoffLocked
  {
    var c := Choice(V.Granted, true, false, false);
    var go := Advance(0, c);
    states, acts := SleepCommits(binding, c);
    var s0 := states[|acts|];
    var cut := s0.shared.(generation := 1);
    var done := Run(Sleep, ClosingSessions, 0, 1, true, false);
    var s1 := State(cut, map[0 := Run(Sleep, PreLocking, 0, 1, false, false)]);
    var s2 := State(cut, map[0 := done]);
    var s3 := State(cut.(cutoffLocked := false), map[0 := done]);
    var s4 := State(s3.shared, map[0 := done.(stage := Sealing)]);
    var s5 := State(s3.shared.(unlockedFor := None), map[0 := done.(stage := Releasing(Sealed))]);
    assert Step(s0, go, s1) && Step(s1, go, s2) && Step(s2, NotifyUnlocked, s3) && Step(s3, go, s4) && Step(s4, go, s5);
    hide Step, IsRun;
    states, acts := ExtendedBy(states, acts, go, s1);
    states, acts := ExtendedBy(states, acts, go, s2);
    states, acts := ExtendedBy(states, acts, NotifyUnlocked, s3);
    states, acts := ExtendedBy(states, acts, go, s4);
    states, acts := ExtendedBy(states, acts, go, s5);
  }

  lemma ExtendedBy(states: seq<State>, acts: seq<Action>, act: Action, s': State)
    returns (longer: seq<State>, more: seq<Action>)
    requires IsRun(states, acts) && Step(states[|acts|], act, s')
    ensures IsRun(longer, more) && more != [] && |longer| == |more| + 1
    ensures longer[|more|] == s' && longer[|more| - 1] == states[|acts|]
  {
    hide Step;
    ExtendRun(states, acts, act, s');
    longer, more := states + [s'], acts + [act];
  }

  // How a lifecycle path or user lock may have ended, whatever ran beside it: sealed
  // after exactly one own SSH close; not needed with none; failed with the cutoff
  // locked by itself and the generation moved since its call: at most one own close
  // for a user lock, one or two for the others.
  lemma EndedRunsAreAccounted(states: seq<State>, acts: seq<Action>, n: nat, t: Thread)
    requires IsRun(states, acts) && n <= |acts|
    requires t in states[n].runs && states[n].runs[t].stage.Returned? && !Unconditional(states[n].runs[t].path)
    ensures var s, run := states[n], states[n].runs[t];
            && (run.stage.r.Sealed? ==> run.bumps == 1 && run.locked && run.start < s.shared.generation)
            && (run.stage.r.NotNeeded? ==> run.bumps == 0)
            && (run.stage.r.Failed? ==>
                  run.locked && run.start < s.shared.generation
                  && if run.path.UserLock? then run.bumps <= 1 else 1 <= run.bumps <= 2)
  {
    hide Step;
    RunKeepsInv(states, acts, n);
  }

  // Exit acts at most once, however many exit requests race.
  lemma OneExitActs(states: seq<State>, acts: seq<Action>, n: nat, t: Thread, u: Thread)
    requires IsRun(states, acts) && n <= |acts|
    requires t in states[n].runs && u in states[n].runs && states[n].runs[t].path.Exit? && states[n].runs[u].path.Exit?
    requires !states[n].runs[t].stage.Swapping? && !states[n].runs[u].stage.Swapping? && t != u
    ensures states[n].runs[t] == states[n].runs[t].(stage := Returned(NotNeeded), bumps := 0, acted := false)
            || states[n].runs[u] == states[n].runs[u].(stage := Returned(NotNeeded), bumps := 0, acted := false)
  {
    hide Step;
    RunKeepsInv(states, acts, n);
  }

  // The cutoff is open after a lock only if an unlock notification came since: no
  // lifecycle path, logout or user lock ever opens it.
  lemma OnlyNotifyOpensCutoff(states: seq<State>, acts: seq<Action>, i: nat, j: nat)
    requires IsRun(states, acts) && i <= j <= |acts| && states[i].shared.cutoffLocked
    requires forall k :: i <= k < j ==> !acts[k].NotifyUnlocked?
    ensures states[j].shared.cutoffLocked
  {
    hide Step;
    OpenIffReopened(states, acts, i, j);
  }

  // ---- one thread alone ----

  lemma StepsRunOut(run: Run, s: Shared, t: Thread, c: Choice)
    requires !run.stage.Returned?
    ensures StepsLeft(Next(run, s, t, c).run.stage) < StepsLeft(run.stage)
  {
  }

  // What a run comes to when nothing disturbs it.
  function Finished(m: Moved, t: Thread, c: Choice): Moved
    decreases StepsLeft(m.run.stage)
  {
    if m.run.stage.Returned? then m
    else
      StepsRunOut(m.run, m.shared, t, c);
      Finished(Next(m.run, m.shared, t, c), t, c)
  }

  lemma FinishedStep(m: Moved, t: Thread, c: Choice)
    requires !m.run.stage.Returned?
    ensures Finished(m, t, c) == Finished(Next(m.run, m.shared, t, c), t, c)
  {
    hide Next, StepsLeft;
  }

  // The part of the state that VaultLifecycle speaks of.
  function SecurityOf(s: Shared): V.Security {
    V.Security(s.generation, s.cutoffLocked, s.unlockedFor, [])
  }

  function EnvOf(path: Path, c: Choice): V.SealEnv {
    V.SealEnv(c.claim, path.Idle? && !c.due, c.failsBefore, c.failsAfter)
  }

  function EndedOf(r: Result<V.SealAttempt, V.VaultError>): Ended {
    match r
    case Err(_) => Failed
    case Ok(attempt) => if attempt.Sealed? then Sealed else NotNeeded
  }

  predicate EndsAs(m: Moved, v: V.Security, r: Ended) {
    && m.shared.generation == v.sshGeneration && m.shared.cutoffLocked == v.cutoffLocked
    && m.shared.unlockedFor == v.unlockedFor && m.shared.gate.None? && m.run.stage == Returned(r)
  }

  predicate Alone(path: Path) {
    !Unconditional(path)
  }

  // An exit that has won the swap and found the vault unlocked goes on like a resume.
  function OneCall(path: Path, v: V.Security, env: V.SealEnv): (V.Security, Result<V.SealAttempt, V.VaultError>)
    requires Alone(path)
  {
    match path
    case Idle => V.OnIdleTick(v, env)
    case Sleep => V.OnSystemSleep(v, env)
    case Resume => V.OnResume(v, env)
    case Exit => V.OnResume(v, env)
    case UserLock => V.UserVaultLock(v, env, 0)
  }

  // The shared state once an attempt's outcome has been handled.
  function Settled(run: Run, s: Shared, r: Ended): Shared {
    match r
    case Sealed => s
    case NotNeeded => if run.path.Resume? || run.path.Exit? || run.path.UserLock? then s.(cutoffLocked := true) else s
    case Failed =>
      s.(cutoffLocked := true,
         generation := if run.path.UserLock? && s.generation != run.start then s.generation else s.generation + 1)
  }

  lemma FinishLast(m: Moved, t: Thread, c: Choice)
    requires m.run.stage.FailLocking? || m.run.stage.EnsureLocking?
    ensures Finished(m, t, c)
         == LockedBy(m.run, m.shared, if m.run.stage.FailLocking? then Returned(Failed) else Returned(NotNeeded))
  {
    FinishedStep(m, t, c);
  }

  lemma FinishClosing(m: Moved, t: Thread, c: Choice)
    requires m.run.stage.FailClosing?
    ensures var b := Bumped(m.run, m.shared, FailLocking);
            Finished(m, t, c) == LockedBy(b.run, b.shared, Returned(Failed))
  {
    FinishedStep(m, t, c);
    hide Finished;
    FinishLast(Bumped(m.run, m.shared, FailLocking), t, c);
  }

  lemma FinishAfter(m: Moved, t: Thread, c: Choice, r: Ended)
    requires Alone(m.run.path) && m.run.stage == After(m.run.path, r)
    ensures Finished(m, t, c).shared == Settled(m.run, m.shared, r) && Finished(m, t, c).run.stage == Returned(r)
  {
    if m.run.stage.Comparing? {
      FinishedStep(m, t, c);
      var m1 := Next(m.run, m.shared, t, c);
      hide Finished, Next;
      if m1.run.stage.FailClosing? {
        FinishClosing(m1, t, c);
      } else {
        FinishLast(m1, t, c);
      }
    } else if m.run.stage.FailClosing? {
      FinishClosing(m, t, c);
    } else if m.run.stage.EnsureLocking? {
      FinishLast(m, t, c);
    }
  }

  // How an attempt that got the gate ends.
  function Attempt(run: Run, s: Shared, c: Choice): Ended {
    if s.unlockedFor.None? || (run.path.Idle? && !c.due) then NotNeeded
    else if c.failsBefore || c.failsAfter then Failed
    else Sealed
  }

  // The run and the shared state when it has released the gate.
  function Attempted(run: Run, s: Shared, c: Choice): Moved {
    var r := Attempt(run, s, c);
    var free := s.(gate := None);
    if r.NotNeeded? || c.failsBefore then Moved(run.(stage := After(run.path, r)), free)
    else
      Moved(run.(stage := After(run.path, r), bumps := run.bumps + 1, locked := true),
            free.(generation := s.generation + 1, cutoffLocked := true, unlockedFor := if r.Failed? then s.unlockedFor else None))
  }

  // pre_seal, session close, seal and release.
  lemma FinishCommitted(m: Moved, t: Thread, c: Choice)
    requires m.run.stage.PreClosing?
    ensures var r := if c.failsAfter then Failed else Sealed;
            var s := m.shared;
            Finished(m, t, c) == Finished(
              Moved(m.run.(stage := After(m.run.path, r), bumps := m.run.bumps + 1, locked := true),
                    s.(generation := s.generation + 1, cutoffLocked := true, gate := None,
                       unlockedFor := if c.failsAfter then s.unlockedFor else None)), t, c)
  {
    var m2 := Bumped(m.run, m.shared, PreLocking);
    var m3 := LockedBy(m2.run, m2.shared, ClosingSessions);
    var m4 := To(m3.run, m3.shared, Sealing);
    FinishedStep(m, t, c);
    FinishedStep(m2, t, c);
    FinishedStep(m3, t, c);
    hide Finished;
    FinishSealing(m4, t, c);
  }

  lemma FinishSealing(m: Moved, t: Thread, c: Choice)
    requires m.run.stage.Sealing?
    ensures var r := if c.failsAfter then Failed else Sealed;
            Finished(m, t, c) == Finished(
              Moved(m.run.(stage := After(m.run.path, r)),
                    m.shared.(gate := None, unlockedFor := if c.failsAfter then m.shared.unlockedFor else None)), t, c)
  {
    var m1 := Next(m.run, m.shared, t, c);
    FinishedStep(m, t, c);
    FinishedStep(m1, t, c);
  }

  lemma FinishAttempt(m: Moved, t: Thread, c: Choice)
    requires m.run.stage.Rechecking?
    ensures Finished(m, t, c) == Finished(Attempted(m.run, m.shared, c), t, c)
  {
    var m1 := Next(m.run, m.shared, t, c);
    FinishedStep(m, t, c);
    hide Finished;
    if m1.run.stage.PreClosing? {
      FinishCommitted(m1, t, c);
    } else {
      FinishedStep(m1, t, c);
    }
  }

  // m is where the operation of VaultLifecycle ends from s.
  predicate IsOneCall(path: Path, s: Shared, c: Choice, m: Moved)
    requires Alone(path)
  {
    var (v, r) := OneCall(path, SecurityOf(s), EnvOf(path, c));
    EndsAs(m, v, EndedOf(r))
  }

  lemma FinishClaim(m: Moved, t: Thread, c: Choice)
    requires m.run.stage.Claiming? && m.shared.gate.None? && Alone(m.run.path) && m.run.start == m.shared.generation
    requires (c.claim.Busy? ==> m.run.path.Idle?) && (m.run.path.Idle? || m.shared.unlockedFor.Some?)
    ensures IsOneCall(m.run.path, m.shared, c, Finished(m, t, c))
  {
    FinishedStep(m, t, c);
    ClaimIsNext(m, t, c);
    hide Finished, Next, IsOneCall, Claimed;
    if c.claim.Granted? {
      FinishGranted(m, t, c);
    } else {
      FinishRefused(m, t, c);
    }
  }

  lemma FinishRefused(m: Moved, t: Thread, c: Choice)
    requires m.run.stage.Claiming? && m.shared.gate.None? && Alone(m.run.path) && m.run.start == m.shared.generation
    requires !c.claim.Granted? && (c.claim.Busy? ==> m.run.path.Idle?) && (m.run.path.Idle? || m.shared.unlockedFor.Some?)
    ensures IsOneCall(m.run.path, m.shared, c, Finished(Claimed(m.run, m.shared, t, c), t, c))
  {
    hide Finished, Next;
    FinishAfter(Claimed(m.run, m.shared, t, c), t, c, if c.claim.Busy? then NotNeeded else Failed);
  }

  lemma ClaimIsNext(m: Moved, t: Thread, c: Choice)
    requires m.run.stage.Claiming?
    ensures Next(m.run, m.shared, t, c) == Claimed(m.run, m.shared, t, c)
  {
  }

  lemma FinishGranted(m: Moved, t: Thread, c: Choice)
    requires m.run.stage.Claiming? && m.shared.gate.None? && Alone(m.run.path) && m.run.start == m.shared.generation
    requires c.claim.Granted? && (m.run.path.Idle? || m.shared.unlockedFor.Some?)
    ensures IsOneCall(m.run.path, m.shared, c, Finished(Claimed(m.run, m.shared, t, c), t, c))
  {
    var m1 := Claimed(m.run, m.shared, t, c);
    var m2, r := Attempted(m1.run, m1.shared, c), Attempt(m1.run, m1.shared, c);
    hide Finished, Settled, OneCall, SecurityOf, EnvOf, EndedOf, Attempt;
    FinishAttempt(m1, t, c);
    FinishAfter(m2, t, c, r);
    AttemptIsOneCall(m.run, m.shared, t, c);
  }

  // The shared state and the result of a granted claim, in one go.
  predicate GrantedIsOneCall(run: Run, s: Shared, t: Thread, c: Choice)
    requires Alone(run.path)
  {
    var m1 := Claimed(run, s, t, c);
    var m2 := Attempted(m1.run, m1.shared, c);
    var ended := Settled(m2.run, m2.shared, Attempt(m1.run, m1.shared, c));
    var (v, r) := OneCall(run.path, SecurityOf(s), EnvOf(run.path, c));
    && ended.generation == v.sshGeneration && ended.cutoffLocked == v.cutoffLocked
    && ended.unlockedFor == v.unlockedFor && ended.gate.None?
    && EndedOf(r) == Attempt(m1.run, m1.shared, c)
  }

  lemma SkippedIsOneCall(run: Run, s: Shared, t: Thread, c: Choice)
    requires c.claim.Granted? && Alone(run.path) && run.start == s.generation && (run.path.Idle? || s.unlockedFor.Some?)
    requires s.gate.None? && (Attempt(run, s, c).NotNeeded? || c.failsBefore)
    ensures GrantedIsOneCall(run, s, t, c)
  {
  }

  lemma CommittedIsOneCall(run: Run, s: Shared, t: Thread, c: Choice)
    requires c.claim.Granted? && Alone(run.path) && run.start == s.generation && (run.path.Idle? || s.unlockedFor.Some?)
    requires s.gate.None? && !Attempt(run, s, c).NotNeeded? && !c.failsBefore
    ensures GrantedIsOneCall(run, s, t, c)
  {
  }

  lemma AttemptIsOneCall(run: Run, s: Shared, t: Thread, c: Choice)
    requires c.claim.Granted? && Alone(run.path) && run.start == s.generation && (run.path.Idle? || s.unlockedFor.Some?)
    requires s.gate.None?
    ensures GrantedIsOneCall(run, s, t, c)
  {
    hide GrantedIsOneCall, Attempt;
    if Attempt(run, s, c).NotNeeded? || c.failsBefore {
      SkippedIsOneCall(run, s, t, c);
    } else {
      CommittedIsOneCall(run, s, t, c);
    }
  }

  lemma FinishProbing(m: Moved, t: Thread, c: Choice)
    requires m.run.stage.Probing? && m.shared.gate.None? && Alone(m.run.path) && !m.run.path.Idle?
    requires m.run.start == m.shared.generation && !c.claim.Busy?
    ensures IsOneCall(m.run.path, m.shared, c, Finished(m, t, c))
  {
    var m1 := Next(m.run, m.shared, t, c);
    FinishedStep(m, t, c);
    hide Finished;
    if m.shared.unlockedFor.Some? {
      FinishClaim(m1, t, c);
    } else {
      FinishAfter(m1, t, c, NotNeeded);
    }
  }

  // The operations of VaultLifecycle, for every path.
  function WholeCall(path: Path, s: Shared, c: Choice): (V.Security, Ended) {
    var v, granted := SecurityOf(s), c.claim.Granted? && !c.failsAfter;
    match path
    case Exit => var (v', r) := V.OnProcessExit(v, s.exitDone, EnvOf(path, c)); (v', EndedOf(r))
    case Logout => (V.CutAndSeal(v, granted), if granted then Sealed else Failed)
    case BareSeal => (V.BareSealed(v, granted), if granted then Sealed else Failed)
    case _ => var (v', r) := OneCall(path, v, EnvOf(path, c)); (v', EndedOf(r))
  }

  predicate IsWholeCall(path: Path, s: Shared, c: Choice, m: Moved) {
    EndsAs(m, WholeCall(path, s, c).0, WholeCall(path, s, c).1)
  }

  lemma {:induction false} FinishedExit(m: Moved, t: Thread, c: Choice)
    ensures Finished(m, t, c).shared.exitDone == (m.shared.exitDone || m.run.stage.Swapping?)
    decreases StepsLeft(m.run.stage)
  {
    if m.run.stage.Returned? {
      FinishReturned(m, t, c);
    } else {
      FinishedStep(m, t, c);
      StepsRunOut(m.run, m.shared, t, c);
      var m1 := Next(m.run, m.shared, t, c);
      hide Finished;
      FinishedExit(m1, t, c);
    }
  }

  function Called(path: Path, s: Shared): Moved {
    Moved(Run(path, FirstStage(path), s.generation, 0, false, false), s)
  }

  lemma FinishUnconditional(m: Moved, t: Thread, c: Choice)
    requires m.run.stage.Claiming? && m.shared.gate.None? && Unconditional(m.run.path) && !c.claim.Busy?
    ensures var granted := c.claim.Granted? && !c.failsAfter;
            var f := Finished(m, t, c);
            && f.shared == (if granted then m.shared.(unlockedFor := None) else m.shared)
            && f.run.stage == Returned(if granted then Sealed else Failed)
  {
    var m1 := Claimed(m.run, m.shared, t, c);
    FinishedStep(m, t, c);
    ClaimIsNext(m, t, c);
    if c.claim.Granted? {
      var m2 := To(m1.run, m1.shared, Sealing);
      FinishedStep(m1, t, c);
      hide Finished;
      FinishSealing(m2, t, c);
      FinishReturned(Moved(m2.run.(stage := After(m2.run.path, if c.failsAfter then Failed else Sealed)),
                           m2.shared.(gate := None, unlockedFor := if c.failsAfter then m2.shared.unlockedFor else None)), t, c);
    } else {
      FinishReturned(m1, t, c);
    }
  }

  lemma FinishReturned(m: Moved, t: Thread, c: Choice)
    requires m.run.stage.Returned?
    ensures Finished(m, t, c) == m
  {
  }

  lemma FinishLogout(s: Shared, t: Thread, c: Choice)
    requires s.gate.None? && !c.claim.Busy?
    ensures IsWholeCall(Logout, s, c, Finished(Called(Logout, s), t, c))
  {
    var m := Called(Logout, s);
    var m1 := Bumped(m.run, m.shared, CutLocking);
    var m2 := LockedBy(m1.run, m1.shared, Claiming);
    FinishedStep(m, t, c);
    FinishedStep(m1, t, c);
    hide Finished;
    FinishUnconditional(m2, t, c);
  }

  lemma FinishExit(s: Shared, t: Thread, c: Choice)
    requires s.gate.None? && !c.claim.Busy?
    ensures IsWholeCall(Exit, s, c, Finished(Called(Exit, s), t, c))
  {
    var m := Called(Exit, s);
    var m1 := Next(m.run, m.shared, t, c);
    FinishedStep(m, t, c);
    if s.exitDone {
      FinishReturned(m1, t, c);
    } else {
      var m2 := Next(m1.run, m1.shared, t, c);
      FinishedStep(m1, t, c);
      hide Finished;
      if s.unlockedFor.Some? {
        FinishProbing(m2, t, c);
      } else {
        FinishLast(m2, t, c);
      }
    }
  }

  // The steps of any path that nothing disturbs add up to its operation in
  // VaultLifecycle: same generation, cutoff, vault, exit mark and result. (Only an idle path can
  // meet a busy gate; nothing waits when the thread is alone.)
  lemma UndisturbedPathIsOneCall(s: Shared, t: Thread, path: Path, c: Choice)
    requires s.gate.None? && (c.claim.Busy? ==> path.Idle?)
    ensures IsWholeCall(path, s, c, Finished(Called(path, s), t, c))
    ensures Finished(Called(path, s), t, c).shared.exitDone == (s.exitDone || path.Exit?)
  {
    var m := Called(path, s);
    FinishedExit(m, t, c);
    match path
    case Exit => FinishExit(s, t, c);
    case Logout => FinishLogout(s, t, c);
    case BareSeal =>
      hide Finished;
      FinishUnconditional(m, t, c);
    case Idle =>
      hide Finished;
      FinishClaim(m, t, c);
    case UserLock =>
      FinishedStep(m, t, c);
      hide Finished;
      FinishProbing(m.(run := m.run.(stage := Probing)), t, c);
    case _ =>
      hide Finished;
      FinishProbing(m, t, c);
  }

  // ---- the undisturbed steps are steps of a run ----

  predicate QuietGate(m: Moved, t: Thread) {
    m.shared.gate == if HoldsGate(m.run.stage) then Some(t) else None
  }

  lemma QuietMove(m: Moved, t: Thread, c: Choice)
    requires QuietGate(m, t) && !m.run.stage.Returned?
    requires c.claim.Busy? ==> m.run.path.Idle?
    ensures CanMove(m.run, m.shared, c)
    ensures QuietGate(Next(m.run, m.shared, t, c), t) && Next(m.run, m.shared, t, c).run.path == m.run.path
  {
  }

  // With the gate free at the call, each of its own steps is one the thread can take then,
  // a refused idle claim included.
  ghost predicate GoesThrough(m: Moved, t: Thread, c: Choice)
    decreases StepsLeft(m.run.stage)
  {
    m.run.stage.Returned?
    || (CanMove(m.run, m.shared, c)
        && (StepsRunOut(m.run, m.shared, t, c); GoesThrough(Next(m.run, m.shared, t, c), t, c)))
  }

  lemma {:induction false} QuietGoesThrough(m: Moved, t: Thread, c: Choice)
    requires QuietGate(m, t) && (c.claim.Busy? ==> m.run.path.Idle?)
    ensures GoesThrough(m, t, c)
    decreases StepsLeft(m.run.stage)
  {
    if !m.run.stage.Returned? {
      StepsRunOut(m.run, m.shared, t, c);
      QuietMove(m, t, c);
      var m1 := Next(m.run, m.shared, t, c);
      hide Next, CanMove, QuietGate;
      QuietGoesThrough(m1, t, c);
    }
  }

  lemma UndisturbedPathGoesThrough(s: Shared, t: Thread, path: Path, c: Choice)
    requires s.gate.None? && (c.claim.Busy? ==> path.Idle?)
    ensures GoesThrough(Called(path, s), t, c)
  {
    QuietGoesThrough(Called(path, s), t, c);
  }

  // ---- what a user lock compares with ----

  lemma MoveSetsStart(run: Run, s: Shared, t: Thread, c: Choice)
    ensures Next(run, s, t, c).run.start == if run.stage.Reading? then s.generation else run.start
    ensures !Next(run, s, t, c).run.stage.Reading? || run.stage.Reading?
    ensures run.stage.Reading? ==> !Next(run, s, t, c).run.stage.Reading?
  {
  }

  // The generation that a user lock compares with in the end is the one it read itself, at
  // its first step, whatever moved the generation between its call and that step.
  lemma {:induction false} UserLockComparesItsReading(states: seq<State>, acts: seq<Action>, k: nat, n: nat, t: Thread)
    requires IsRun(states, acts) && k < n <= |acts| && acts[k].Advance? && acts[k].t == t
    requires t in states[k].runs && states[k].runs[t].stage.Reading?
    ensures t in states[n].runs && states[n].runs[t].start == states[k].shared.generation && !states[n].runs[t].stage.Reading?
  {
    var s, act := states[n - 1], acts[n - 1];
    assert Step(s, act, states[n]);
    if k < n - 1 {
      UserLockComparesItsReading(states, acts, k, n - 1, t);
    }
    if act.Advance? && act.t == t {
      MoveSetsStart(s.runs[t], s.shared, t, act.choice);
    }
    hide Next, CanMove;
  }
}
