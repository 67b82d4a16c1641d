// src-tauri/src/vault_os_sleep.rs, ObserverHealth, against notify_vault_unlocked of
// src-tauri/src/cloud_bridge.rs, in all interleavings. One action is one mutex
// operation or one atomic store.
module ObserverLatch {
  import opened VaultLifecycle

  type Thread = nat

  datatype Phase =
    | Unlocking        // notify_vault_unlocked called, latch mutex not yet taken
    | Checking         // run_if_healthy holds the mutex
    | Allowed          // found healthy, op (unlocking the cutoff) next, mutex still held
    | Opened           // op ran, mutex still held
    | UnlockDone
    | Failing          // mark_unhealthy_then called, mutex not yet taken
    | Marking          // holds the mutex
    | Marked           // healthy is false, mutex still held
    | Released         // mutex released, after() (the lock) next
    | LockDone

  datatype State = State(healthy: bool, cutoffLocked: bool, holder: set<Thread>, threads: map<Thread, Phase>)

  const INIT := State(true, true, {}, map[])

  datatype Action =
    | CallNotify(t: Thread) | CallMark(t: Thread)
    | Acquire(t: Thread) | Check(t: Thread) | RunOp(t: Thread) | Mark(t: Thread) | Release(t: Thread)
    | RunAfter(t: Thread)
    | LockCutoff  // any other lock of the cutoff: seal, logout, 401, sleep

  predicate At(s: State, t: Thread, p: Phase) {
    t in s.threads && s.threads[t] == p
  }

  function Move(s: State, t: Thread, p: Phase): State {
    s.(threads := s.threads[t := p])
  }

  predicate Step(s: State, act: Action, s': State) {
    match act
    case CallNotify(t) => t !in s.threads && s' == Move(s, t, Unlocking)
    case CallMark(t) => t !in s.threads && s' == Move(s, t, Failing)
    case Acquire(t) =>
      s.holder == {} && (At(s, t, Unlocking) || At(s, t, Failing))
      && s' == Move(s, t, if At(s, t, Unlocking) then Checking else Marking).(holder := {t})
    case Check(t) =>
      At(s, t, Checking)
      && s' == if s.healthy then Move(s, t, Allowed) else Move(s, t, UnlockDone).(holder := s.holder - {t})
    case RunOp(t) => At(s, t, Allowed) && s' == Move(s, t, Opened).(cutoffLocked := false)
    case Mark(t) => At(s, t, Marking) && s' == Move(s, t, Marked).(healthy := false)
    case Release(t) =>
      (At(s, t, Opened) || At(s, t, Marked))
      && s' == Move(s, t, if At(s, t, Opened) then UnlockDone else Released).(holder := s.holder - {t})
    case RunAfter(t) => At(s, t, Released) && s' == Move(s, t, LockDone).(cutoffLocked := true)
    case LockCutoff => s' == s.(cutoffLocked := true)
  }

  ghost predicate IsRun(states: seq<State>, acts: seq<Action>) {
    && |states| == |acts| + 1 && states[0] == INIT
    && forall i :: 0 <= i < |acts| ==> Step(states[i], acts[i], states[i + 1])
  }

  predicate InCriticalSection(p: Phase) {
    p.Checking? || p.Allowed? || p.Opened? || p.Marking? || p.Marked?
  }

  ghost predicate Inv(s: State) {
    && (forall t :: t in s.holder <==> t in s.threads && InCriticalSection(s.threads[t]))
    && (forall t, u :: t in s.holder && u in s.holder ==> t == u)
    && (forall t :: t in s.threads && s.threads[t].Allowed? ==> s.healthy)
    && (forall t :: t in s.threads && (s.threads[t].Marked? || s.threads[t].Released? || s.threads[t].LockDone?) ==> !s.healthy)
    && (forall t :: t in s.threads && s.threads[t].LockDone? ==> s.cutoffLocked)
  }

  lemma StepKeepsInv(s: State, act: Action, s': State)
    requires Step(s, act, s') && Inv(s)
    ensures Inv(s')
  {
  }

  lemma {:induction false} RunKeepsInv(states: seq<State>, acts: seq<Action>, n: nat)
    requires IsRun(states, acts) && n <= |acts|
    ensures Inv(states[n])
  {
    if n > 0 {
      RunKeepsInv(states, acts, n - 1);
      assert Step(states[n - 1], acts[n - 1], states[n]);
      StepKeepsInv(states[n - 1], acts[n - 1], states[n]);
    }
  }

  lemma {:induction false} LockDoneStays(states: seq<State>, acts: seq<Action>, i: nat, j: nat, t: Thread)
    requires IsRun(states, acts) && i <= j <= |acts| && At(states[i], t, LockDone)
    ensures At(states[j], t, LockDone)
  {
    if i < j {
      LockDoneStays(states, acts, i, j - 1, t);
      assert Step(states[j - 1], acts[j - 1], states[j]);
    }
  }

  // Once the lock that follows an observer failure has been done, the cutoff is
  // locked in every later state, whatever unlocks were under way or come later.
  lemma LockAfterFailureIsFinal(states: seq<State>, acts: seq<Action>, i: nat, j: nat, t: Thread)
    requires IsRun(states, acts) && i < j <= |acts| && acts[i] == RunAfter(t)
    ensures states[j].cutoffLocked && !states[j].healthy
  {
    assert Step(states[i], acts[i], states[i + 1]);
    LockDoneStays(states, acts, i + 1, j, t);
    RunKeepsInv(states, acts, j);
  }

  // A notification that nothing disturbs opens the cutoff exactly while the observers are
  // healthy.
  lemma UndisturbedNotify(s: State, t: Thread) returns (states: seq<State>)
    requires s.holder == {} && t !in s.threads
    ensures |states| == (if s.healthy then 6 else 4) && states[0] == s
    ensures Step(states[0], CallNotify(t), states[1]) && Step(states[1], Acquire(t), states[2])
    ensures Step(states[2], Check(t), states[3])
    ensures s.healthy ==> Step(states[3], RunOp(t), states[4]) && Step(states[4], Release(t), states[5])
    ensures states[|states| - 1]
         == State(s.healthy, s.cutoffLocked && !s.healthy, {}, s.threads[t := UnlockDone])
  {
    var s1 := Move(s, t, Unlocking);
    var s2 := Move(s1, t, Checking).(holder := {t});
    var end := State(s.healthy, s.cutoffLocked && !s.healthy, {}, s.threads[t := UnlockDone]);
    assert Move(s2, t, UnlockDone).threads == end.threads;
    if s.healthy {
      var s3 := Move(s2, t, Allowed);
      var s4 := Move(s3, t, Opened).(cutoffLocked := false);
      assert Move(s4, t, UnlockDone).threads == end.threads;
      states := [s, s1, s2, s3, s4, end];
    } else {
      states := [s, s1, s2, end];
    }
  }

  // An observer failure that nothing disturbs closes the latch and locks the cutoff.
  lemma UndisturbedMark(s: State, t: Thread) returns (states: seq<State>)
    requires s.holder == {} && t !in s.threads
    ensures |states| == 6 && states[0] == s && states[5] == State(false, true, {}, s.threads[t := LockDone])
    ensures Step(states[0], CallMark(t), states[1]) && Step(states[1], Acquire(t), states[2]) && Step(states[2], Mark(t), states[3])
    ensures Step(states[3], Release(t), states[4]) && Step(states[4], RunAfter(t), states[5])
  {
    var s1 := Move(s, t, Failing);
    var s2 := Move(s1, t, Marking).(holder := {t});
    var s3 := Move(s2, t, Marked).(healthy := false);
    var s4 := Move(s3, t, Released).(holder := {});
    var s5 := State(false, true, {}, s.threads[t := LockDone]);
    assert Move(s4, t, LockDone).threads == s5.threads;
    states := [s, s1, s2, s3, s4, s5];
  }

  class ObserverHealth {
    var healthy: bool

    constructor ()
      ensures healthy
    {
      healthy := true;
    }

    // run_if_healthy with the operation that notify_vault_unlocked passes.
    method NotifyVaultUnlocked(cutoff: SecurityCutoff) returns (allowed: bool)
      modifies cutoff
      ensures allowed == healthy && cutoff.sshGeneration == old(cutoff.sshGeneration)
      ensures cutoff.vaultLocked == (old(cutoff.vaultLocked) && !healthy)
    {
      if !healthy {
        return false;
      }
      cutoff.UnlockVaultForTask8();
      return true;
    }

    // mark_unhealthy_then, its callback locking the cutoff.
    method MarkUnhealthyThenLock(cutoff: SecurityCutoff)
      modifies this, cutoff
      ensures !healthy && cutoff.vaultLocked && cutoff.sshGeneration == old(cutoff.sshGeneration)
    {
      healthy := false;
      cutoff.LockVault();
    }
  }
}
