// src-tauri/src/local_ssh/connect.rs, EstablishedLocalSsh: who gets the russh handle
// when closers and the transport call at the same time. One action is one atomic swap
// or one mutex section.
module HandleOwnership {
  type Thread = nat

  datatype Call = DisconnectNow | TakeForTransport

  datatype Phase =
    | Called(call: Call)
    | Won(call: Call)          // the swap found closed unset, handle mutex next
    | Owner(call: Call)        // took the handle: disconnects it, or gives it to the actor
    | WentEmpty(call: Call)    // returned without a handle

  datatype State = State(closed: bool, slotFull: bool, disconnects: nat, threads: map<Thread, Phase>)

  const INIT := State(false, true, 0, map[])

  datatype Action = Enter(t: Thread, call: Call) | Swap(t: Thread) | Take(t: Thread)

  predicate Step(s: State, act: Action, s': State) {
    match act
    case Enter(t, call) => t !in s.threads && s' == s.(threads := s.threads[t := Called(call)])
    case Swap(t) =>
      t in s.threads && s.threads[t].Called?
      && s' == s.(closed := true,
                  threads := s.threads[t := if s.closed then WentEmpty(s.threads[t].call) else Won(s.threads[t].call)])
    case Take(t) =>
      t in s.threads && s.threads[t].Won?
      && var call := s.threads[t].call;
         s' == s.(slotFull := false,
                  disconnects := if s.slotFull && call.DisconnectNow? then s.disconnects + 1 else s.disconnects,
                  threads := s.threads[t := if s.slotFull then Owner(call) else WentEmpty(call)])
  }

  ghost predicate IsRun(states: seq<State>, acts: seq<Action>) {
    && |states| == |acts| + 1 && states[0] == INIT
    && forall i :: 0 <= i < |acts| ==> Step(states[i], acts[i], states[i + 1])
  }

  predicate HasTurn(p: Phase) {
    p.Won? || p.Owner?
  }

  // At most one thread ever gets past the swap, and it owns the handle once the slot
  // is empty.
  ghost predicate Inv(s: State) {
    && (s.closed <==> exists t :: t in s.threads && HasTurn(s.threads[t]))
    && (forall t, u :: t in s.threads && u in s.threads && HasTurn(s.threads[t]) && HasTurn(s.threads[u]) ==> t == u)
    && (forall t :: t in s.threads && s.threads[t].Won? ==> s.slotFull && s.disconnects == 0)
    && (forall t :: t in s.threads && s.threads[t].Owner? ==>
          !s.slotFull && s.disconnects == (if s.threads[t].call.DisconnectNow? then 1 else 0))
    && (!s.closed ==> s.slotFull && s.disconnects == 0)
  }

  lemma StepKeepsInv(s: State, act: Action, s': State)
    requires Step(s, act, s') && Inv(s)
    ensures Inv(s')
  {
    match act
    case Enter(t, call) =>
      if s.closed {
        var u :| u in s.threads && HasTurn(s.threads[u]);
        assert u in s'.threads && HasTurn(s'.threads[u]);
      }
    case Swap(t) =>
      if s.closed {
        var u :| u in s.threads && HasTurn(s.threads[u]);
        assert u in s'.threads && HasTurn(s'.threads[u]);
      } else {
        assert t in s'.threads && HasTurn(s'.threads[t]);
      }
    case Take(t) =>
      assert t in s.threads && HasTurn(s.threads[t]);
      assert t in s'.threads && HasTurn(s'.threads[t]);
  }

  lemma {:induction false} RunKeepsInv(states: seq<State>, acts: seq<Action>, n: nat)
    requires IsRun(states, acts) && n <= |acts|
    ensures Inv(states[n])
  {
    if n > 0 {
      hide Step, Inv;
      RunKeepsInv(states, acts, n - 1);
      assert Step(states[n - 1], acts[n - 1], states[n]);
      StepKeepsInv(states[n - 1], acts[n - 1], states[n]);
    }
  }

  // The handle never is with two owners: it is in the slot, or with one closer that
  // counts one disconnect, or with the transport and then no closer ever disconnects.
  lemma HandleHasOneOwner(states: seq<State>, acts: seq<Action>, n: nat)
    requires IsRun(states, acts) && n <= |acts|
    ensures var s := states[n];
            && s.disconnects <= 1
            && (forall t, u :: t in s.threads && u in s.threads && s.threads[t].Owner? && s.threads[u].Owner? ==> t == u)
            && (s.slotFull <==> !exists t :: t in s.threads && s.threads[t].Owner?)
            && (s.disconnects == 1 <==> exists t :: t in s.threads && s.threads[t] == Owner(DisconnectNow))
            && (!s.slotFull && s.disconnects == 0 <==> exists t :: t in s.threads && s.threads[t] == Owner(TakeForTransport))
  {
    hide Step;
    RunKeepsInv(states, acts, n);
    var s := states[n];
    if !s.slotFull {
      var t :| t in s.threads && HasTurn(s.threads[t]);
      assert s.threads[t].Owner?;
      assert s.threads[t] == Owner(DisconnectNow) || s.threads[t] == Owner(TakeForTransport);
    }
  }

  lemma OwnerStays(s: State, act: Action, s': State, t: Thread)
    requires Step(s, act, s') && t in s.threads && (s.threads[t].Owner? || s.threads[t].WentEmpty?)
    ensures t in s'.threads && s'.threads[t] == s.threads[t]
  {
  }

  // Whoever gets the handle keeps it, and a caller that went empty stays empty.
  lemma {:induction false} OutcomeIsFinal(states: seq<State>, acts: seq<Action>, m: nat, n: nat, t: Thread)
    requires IsRun(states, acts) && m <= n <= |acts|
    requires t in states[m].threads && (states[m].threads[t].Owner? || states[m].threads[t].WentEmpty?)
    ensures t in states[n].threads && states[n].threads[t] == states[m].threads[t]
  {
    if m < n {
      hide Step;
      OutcomeIsFinal(states, acts, m, n - 1, t);
      assert Step(states[n - 1], acts[n - 1], states[n]);
      OwnerStays(states[n - 1], acts[n - 1], states[n], t);
    }
  }

  // The first caller whose steps nothing disturbs gets the handle, and a closer counts its
  // disconnect; with the handle gone a caller goes empty and changes nothing else.
  lemma UndisturbedCall(states: seq<State>, acts: seq<Action>, n: nat, t: Thread, call: Call)
    returns (called: State, swapped: State, taken: State)
    requires IsRun(states, acts) && n <= |acts| && t !in states[n].threads
    ensures var s := states[n];
            && Step(s, Enter(t, call), called) && Step(called, Swap(t), swapped)
            && (!s.closed ==>
                  && Step(swapped, Take(t), taken)
                  && taken == State(true, false, if call.DisconnectNow? then 1 else 0, s.threads[t := Owner(call)]))
            && (s.closed ==> swapped == s.(threads := s.threads[t := WentEmpty(call)]))
  {
    var s := states[n];
    RunKeepsInv(states, acts, n);
    called := s.(threads := s.threads[t := Called(call)]);
    swapped := called.(closed := true, threads := called.threads[t := if s.closed then WentEmpty(call) else Won(call)]);
    taken := State(true, false, if call.DisconnectNow? then 1 else 0, s.threads[t := Owner(call)]);
    assert swapped.threads[t := Owner(call)] == taken.threads;
    assert swapped.threads == s.threads[t := if s.closed then WentEmpty(call) else Won(call)];
  }

  // Once some caller has returned and none is between its steps, exactly one has the handle.
  lemma RestHasOneOwner(states: seq<State>, acts: seq<Action>, n: nat, t: Thread)
    requires IsRun(states, acts) && n <= |acts| && t in states[n].threads
    requires forall u :: u in states[n].threads ==> states[n].threads[u].Owner? || states[n].threads[u].WentEmpty?
    ensures exists o :: o in states[n].threads && states[n].threads[o].Owner?
    ensures !states[n].slotFull
  {
    RunKeepsInv(states, acts, n);
    PastSwapIsClosed(states, acts, n, t);
    var s := states[n];
    var o :| o in s.threads && HasTurn(s.threads[o]);
    assert s.threads[o].Owner?;
  }

  lemma {:induction false} PastSwapIsClosed(states: seq<State>, acts: seq<Action>, n: nat, t: Thread)
    requires IsRun(states, acts) && n <= |acts| && t in states[n].threads && !states[n].threads[t].Called?
    ensures states[n].closed
  {
    if n > 0 {
      assert Step(states[n - 1], acts[n - 1], states[n]);
      RunKeepsInv(states, acts, n - 1);
      if t in states[n - 1].threads && !states[n - 1].threads[t].Called? {
        PastSwapIsClosed(states, acts, n - 1, t);
      }
    }
  }

  // ---- the object, called by one thread at a time ----

  class EstablishedLocalSsh {
    var handle: bool          // the slot holds the handle
    var closed: bool
    var disconnects: nat

    ghost predicate Valid()
      reads this
    {
      (closed ==> !handle) && (!closed ==> handle && disconnects == 0) && disconnects <= 1
    }

    constructor ()
      ensures Valid() && handle && !closed && disconnects == 0
    {
      handle, closed, disconnects := true, false, 0;
    }

    method Disconnect()
      requires Valid()
      modifies this
      ensures Valid() && closed && !handle
      ensures disconnects == if old(closed) then old(disconnects) else 1
    {
      var was := closed;
      closed := true;
      if was {
        return;
      }
      var taken := handle;
      handle := false;
      if !taken {
        return;
      }
      disconnects := disconnects + 1;
    }

    method TakeHandleForTransport() returns (taken: bool)
      requires Valid()
      modifies this
      ensures Valid() && closed && !handle && disconnects == old(disconnects)
      ensures taken <==> !old(closed)
    {
      var was := closed;
      closed := true;
      if was {
        return false;
      }
      taken := handle;
      handle := false;
    }
  }
}
