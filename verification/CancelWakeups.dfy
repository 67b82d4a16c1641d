// src-tauri/src/cloud_transport/lifecycle.rs: cancelled_token against cancel_auth_epoch
// and cancel_all. The two atomics and the watch channel are read and written one at a
// time, so a cancel may fall between any two of a waiter's steps.
module CancelWakeups {
  import opened Wrappers
  import opened AuthSession
  import opened Invalidation
  import opened VaultLifecycle

  type Thread = nat

  datatype Waiter =
    | Subscribing                // before cancel_tx.subscribe()
    | Checking(seen: nat)        // is_cancelled_token: the global generation next
    | CheckingEpoch(seen: nat)   // the watermark next
    | Parked(seen: nat)          // in rx.changed()
    | Woken                      // returned

  // A canceller that has raised its counter still has to notify.
  datatype State = State(
    control: Control,
    tokens: map<Thread, WaitToken>,
    waiters: map<Thread, Waiter>,
    notifying: set<Thread>)

  const INIT := State(NEW_CONTROL, map[], map[], {})

  datatype Action =
    | StartWait(t: Thread, authEpoch: Option<nat>)
    | Advance(t: Thread)                   // the waiter's own next step
    | RaiseEpoch(c: Thread, epoch: nat)    // fetch_max of cancel_auth_epoch
    | RaiseGlobal(c: Thread)               // fetch_add of cancel_all
    | Notify(c: Thread)                    // send_modify

  // changed() resolves only on a version the receiver has not seen.
  predicate CanAdvance(c: Control, w: Waiter) {
    !w.Woken? && (w.Parked? ==> w.seen != c.cancelVersion)
  }

  function Next(c: Control, token: WaitToken, w: Waiter): Waiter {
    match w
    case Subscribing => Checking(c.cancelVersion)
    case Checking(seen) => if c.globalCancelGen != token.startGlobal then Woken else CheckingEpoch(seen)
    case CheckingEpoch(seen) =>
      if token.authEpoch.Some? && c.cancelledThrough >= token.authEpoch.value then Woken else Parked(seen)
    case Parked(seen) => Checking(c.cancelVersion)
    case Woken => Woken
  }

  predicate Step(s: State, act: Action, s': State) {
    match act
    case StartWait(t, authEpoch) =>
      t !in s.waiters
      && s' == s.(waiters := s.waiters[t := Subscribing],
                  tokens := s.tokens[t := WaitToken(authEpoch, s.control.globalCancelGen)])
    case Advance(t) =>
      t in s.waiters && t in s.tokens && CanAdvance(s.control, s.waiters[t])
      && s' == s.(waiters := s.waiters[t := Next(s.control, s.tokens[t], s.waiters[t])])
    case RaiseEpoch(c, epoch) =>
      c !in s.notifying
      && s' == s.(control := s.control.(cancelledThrough := Max(s.control.cancelledThrough, epoch)),
                  notifying := s.notifying + {c})
    case RaiseGlobal(c) =>
      c !in s.notifying
      && s' == s.(control := s.control.(globalCancelGen := s.control.globalCancelGen + 1), notifying := s.notifying + {c})
    case Notify(c) =>
      c in s.notifying
      && s' == s.(control := s.control.(cancelVersion := s.control.cancelVersion + 1), notifying := s.notifying - {c})
  }

  ghost predicate IsRun(states: seq<State>, acts: seq<Action>) {
    && |states| == |acts| + 1 && states[0] == INIT
    && forall i :: 0 <= i < |acts| ==> Step(states[i], acts[i], states[i + 1])
  }

  // The waiter has seen the current version, so only a further notify can wake it.
  predicate Current(s: State, t: Thread) {
    t in s.waiters && (s.waiters[t].CheckingEpoch? || s.waiters[t].Parked?) && s.waiters[t].seen == s.control.cancelVersion
  }

  ghost predicate Inv(s: State) {
    && s.waiters.Keys == s.tokens.Keys
    && (forall t :: t in s.waiters && (s.waiters[t].Checking? || s.waiters[t].CheckingEpoch? || s.waiters[t].Parked?) ==>
          s.waiters[t].seen <= s.control.cancelVersion)
    && (forall t :: Current(s, t) && s.control.globalCancelGen != s.tokens[t].startGlobal ==> s.notifying != {})
    && (forall t :: Current(s, t) && s.waiters[t].Parked? && IsCancelled(s.control, s.tokens[t]) ==> s.notifying != {})
    && (forall t :: t in s.tokens ==> s.tokens[t].startGlobal <= s.control.globalCancelGen)
  }

  lemma WaiterKeepsInv(s: State, act: Action, s': State)
    requires Step(s, act, s') && Inv(s) && (act.StartWait? || act.Advance?)
    ensures Inv(s')
  {
  }

  lemma CancellerKeepsInv(s: State, act: Action, s': State)
    requires Step(s, act, s') && Inv(s) && !act.StartWait? && !act.Advance?
    ensures Inv(s')
  {
    hide Next, CanAdvance;
  }

  lemma StepKeepsInv(s: State, act: Action, s': State)
    requires Step(s, act, s') && Inv(s)
    ensures Inv(s')
  {
    hide Step, Inv;
    if act.StartWait? || act.Advance? {
      WaiterKeepsInv(s, act, s');
    } else {
      CancellerKeepsInv(s, act, s');
    }
  }

  lemma {:induction false} RunKeepsInv(states: seq<State>, acts: seq<Action>, n: nat)
    requires IsRun(states, acts) && n <= |acts|
    ensures Inv(states[n])
  {
    if n > 0 {
      RunKeepsInv(states, acts, n - 1);
      assert Step(states[n - 1], acts[n - 1], states[n]);
      StepKeepsInv(states[n - 1], acts[n - 1], states[n]);
    }
  }

  // No lost wakeup: a waiter whose token is cancelled and that cannot go on is about
  // to be notified, since some canceller has raised a counter and still has its
  // notify to do.
  lemma NoLostWakeup(states: seq<State>, acts: seq<Action>, n: nat, t: Thread)
    requires IsRun(states, acts) && n <= |acts|
    requires t in states[n].waiters && t in states[n].tokens && IsCancelled(states[n].control, states[n].tokens[t])
    requires !CanAdvance(states[n].control, states[n].waiters[t])
    ensures states[n].waiters[t] == Woken || states[n].notifying != {}
  {
    RunKeepsInv(states, acts, n);
  }

  // A cancelled token stays cancelled.
  lemma {:induction false} CancelIsFinal(states: seq<State>, acts: seq<Action>, i: nat, j: nat, t: Thread)
    requires IsRun(states, acts) && i <= j <= |acts|
    requires t in states[i].tokens && IsCancelled(states[i].control, states[i].tokens[t])
    ensures t in states[j].tokens && states[j].tokens[t] == states[i].tokens[t]
    ensures IsCancelled(states[j].control, states[j].tokens[t])
  {
    if i < j {
      CancelIsFinal(states, acts, i, j - 1, t);
      RunKeepsInv(states, acts, j - 1);
      assert Step(states[j - 1], acts[j - 1], states[j]);
    }
  }

  // The waiter is never stuck and returns within three steps of its own.
  predicate ReturnsSoon(c: Control, token: WaitToken, w: Waiter) {
    var w1 := Next(c, token, w);
    var w2 := Next(c, token, w1);
    && (w == Woken || CanAdvance(c, w)) && (w1 == Woken || CanAdvance(c, w1)) && (w2 == Woken || CanAdvance(c, w2))
    && Next(c, token, w2) == Woken
  }

  // Once every canceller has notified, a cancelled waiter is never stuck and returns
  // within three steps of its own, from wherever it stands.
  lemma CancelledWaiterReturns(states: seq<State>, acts: seq<Action>, n: nat, t: Thread)
    requires IsRun(states, acts) && n <= |acts|
    requires t in states[n].waiters && t in states[n].tokens
    requires IsCancelled(states[n].control, states[n].tokens[t]) && states[n].notifying == {}
    ensures ReturnsSoon(states[n].control, states[n].tokens[t], states[n].waiters[t])
  {
    RunKeepsInv(states, acts, n);
  }

  // As steps of a run: with no notify outstanding a cancelled waiter gets out by itself.
  lemma CancelledWaiterGetsOut(states: seq<State>, acts: seq<Action>, n: nat, t: Thread) returns (path: seq<State>)
    requires IsRun(states, acts) && n <= |acts|
    requires t in states[n].waiters && t in states[n].tokens
    requires IsCancelled(states[n].control, states[n].tokens[t]) && states[n].notifying == {}
    ensures 1 <= |path| <= 4 && path[0] == states[n]
    ensures forall i :: 0 <= i < |path| - 1 ==> Step(path[i], Advance(t), path[i + 1])
    ensures path[|path| - 1] == states[n].(waiters := states[n].waiters[t := Woken])
  {
    CancelledWaiterReturns(states, acts, n, t);
    var s := states[n];
    var w := s.waiters[t];
    var w1 := Next(s.control, s.tokens[t], w);
    var w2 := Next(s.control, s.tokens[t], w1);
    var end := s.(waiters := s.waiters[t := Woken]);
    var s1, s2 := s.(waiters := s.waiters[t := w1]), s.(waiters := s.waiters[t := w2]);
    assert s2.waiters == s1.waiters[t := w2] && end.waiters == s1.waiters[t := Woken] == s2.waiters[t := Woken];
    assert s.waiters[t := w] == s.waiters;
    path := if w.Woken? then [s] else if w1.Woken? then [s, end] else if w2.Woken? then [s, s1, end] else [s, s1, s2, end];
  }

  // And nobody gets out otherwise: a waiter has returned only if its token is cancelled,
  // and a parked one moves only on a version it has not seen.
  lemma {:induction false} OnlyCancelledReturn(states: seq<State>, acts: seq<Action>, n: nat, t: Thread)
    requires IsRun(states, acts) && n <= |acts| && t in states[n].waiters && states[n].waiters[t].Woken?
    ensures t in states[n].tokens && IsCancelled(states[n].control, states[n].tokens[t])
  {
    if n > 0 {
      RunKeepsInv(states, acts, n - 1);
      assert Step(states[n - 1], acts[n - 1], states[n]);
      if t in states[n - 1].waiters && states[n - 1].waiters[t].Woken? {
        OnlyCancelledReturn(states, acts, n - 1, t);
        CancelIsFinal(states, acts, n - 1, n, t);
      }
    }
  }

  lemma ParkedMovesOnNewVersion(s: State, s': State, t: Thread)
    requires Step(s, Advance(t), s') && s.waiters[t].Parked?
    ensures s.waiters[t].seen != s.control.cancelVersion && s'.waiters[t] == Checking(s.control.cancelVersion)
  {
  }

  // ---- the calls that cancel, and their waiters ----

  // cancel_auth_epoch as one call is its raise followed by its own notify, nothing else.
  lemma EpochCancelIsRaiseAndNotify(s: State, s': State, c: Thread, epoch: nat)
    requires c !in s.notifying
    ensures (exists mid :: Step(s, RaiseEpoch(c, epoch), mid) && Step(mid, Notify(c), s'))
            <==> s' == s.(control := EpochCancelled(s.control, epoch))
  {
    var mid := s.(control := s.control.(cancelledThrough := Max(s.control.cancelledThrough, epoch)),
                  notifying := s.notifying + {c});
    assert Step(s, RaiseEpoch(c, epoch), mid);
    assert s.notifying + {c} - {c} == s.notifying;
    assert Step(mid, Notify(c), s') <==> s' == s.(control := EpochCancelled(s.control, epoch));
  }

  // cancel_all likewise.
  lemma GlobalCancelIsRaiseAndNotify(s: State, s': State, c: Thread)
    requires c !in s.notifying
    ensures (exists mid :: Step(s, RaiseGlobal(c), mid) && Step(mid, Notify(c), s'))
            <==> s' == s.(control := AllCancelled(s.control))
  {
    var mid := s.(control := s.control.(globalCancelGen := s.control.globalCancelGen + 1), notifying := s.notifying + {c});
    assert Step(s, RaiseGlobal(c), mid);
    assert s.notifying + {c} - {c} == s.notifying;
    assert Step(mid, Notify(c), s') <==> s' == s.(control := AllCancelled(s.control));
  }

  // Wherever a waiter stands, it has seen no version that is still to come.
  predicate SeenAtMost(w: Waiter, version: nat) {
    w.Checking? || w.CheckingEpoch? || w.Parked? ==> w.seen <= version
  }

  // After a 401, deduplicated or not, every call of its epoch or an older one returns
  // cancelled within three of its own steps, even one that was parked before.
  lemma Run401Wakes(world: World, req: Request, token: WaitToken, w: Waiter)
    requires token.authEpoch.Some? && token.authEpoch.value <= req.epoch && SeenAtMost(w, world.control.cancelVersion)
    ensures IsCancelled(Run401(world, req).control, token) && ReturnsSoon(Run401(world, req).control, token, w)
  {
    hide ReauthMarkedIfEpoch, CutAndSeal, AppliesCutoffs;
  }

  // After a logout every call that was made before it does.
  lemma SecureLogoutWakes(world: World, poisoned: bool, claimed: bool, token: WaitToken, w: Waiter)
    requires token.startGlobal <= world.control.globalCancelGen && SeenAtMost(w, world.control.cancelVersion)
    ensures var c := SecureLogout(world, poisoned, claimed).control;
            IsCancelled(c, token) && ReturnsSoon(c, token, w)
  {
    hide LoggedOut, CutAndSeal;
  }

  // After the install of a session every call of an older login does.
  lemma SessionInstallWakes(world: World, claimed: bool, token: WaitToken, w: Waiter)
    requires BindingOf(world.mem).Some? && token.authEpoch.Some? && token.authEpoch.value < BindingOf(world.mem).value.epoch
    requires SeenAtMost(w, world.control.cancelVersion)
    ensures var c := SessionInstallCut(world, false, claimed).control;
            IsCancelled(c, token) && ReturnsSoon(c, token, w)
  {
    hide PrincipalOf, CutAndSeal;
  }
}
