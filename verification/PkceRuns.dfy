// All interleavings of login begins, deep-link callbacks, pending timers, expiry,
// logout and 401 clears over one AuthStore (src-tauri/src/auth/mod.rs). One action
// is one section under the store's mutex; the HTTP exchange of a callback lies
// between two of its sections, and clocks read by callbacks are arbitrary.
module PkceRuns {
  import opened Wrappers
  import opened LocalSsh
  import opened AuthSession

  datatype Login = Login(state: string, verifier: string)

  // An exchange request, tagged with the pending login it was made from.
  datatype Request = Request(generation: nat, state: string, verifier: string)

  datatype BeginPhase = Preparing | Opening(generation: nat)
  datatype CallbackPhase = Arrived(now: Instant) | Exchanging

  datatype State = State(
    mem: AuthMemory,
    begins: map<nat, BeginPhase>,
    callbacks: map<nat, CallbackPhase>,
    timers: set<nat>,             // armed, by pending generation
    installed: seq<Login>,        // every pending login ever installed, by generation from 1
    requests: seq<Request>)       // every exchange request ever made

  const INIT := State(EMPTY_MEMORY, map[], map[], {}, [], [])

  datatype Action =
    | BeginLogin(b: nat)
    | BeginRandomFails(b: nat)
    | BeginInstalls(b: nat, state: string, verifier: string, expiresAt: Instant)
    | BeginOpens(b: nat, armTimer: bool)
    | BeginFails(b: nat)
    | TimerFires(generation: nat)
    | CallbackArrives(c: nat, now: Instant)
    | CallbackRejected(c: nat)
    | CallbackError(c: nat, state: string)
    | CallbackCode(c: nat, state: string)
    | ExchangeEnds(c: nat, response: Option<NativeSession>)
    | Logout
    | ClearNative
    | MarkReauthIfEpoch(epoch: nat)

  ghost predicate Step(s: State, act: Action, s': State) {
    match act
    case BeginLogin(b) =>
      b !in s.begins && s' == s.(mem := BeginStarted(s.mem), begins := s.begins[b := Preparing])
    case BeginRandomFails(b) =>
      b in s.begins && s.begins[b].Preparing? && s' == s.(begins := s.begins - {b})
    case BeginInstalls(b, state, verifier, expiresAt) =>
      b in s.begins && s.begins[b].Preparing?
      && var mem := PendingInstalled(s.mem, state, verifier, expiresAt);
         s' == s.(mem := mem, begins := s.begins[b := Opening(mem.pendingGeneration)],
                  installed := s.installed + [Login(state, verifier)])
    case BeginOpens(b, armTimer) =>
      b in s.begins && s.begins[b].Opening?
      && s' == s.(begins := s.begins - {b}, timers := s.timers + if armTimer then {s.begins[b].generation} else {})
    case BeginFails(b) =>
      b in s.begins && s.begins[b].Opening? && s' == s.(mem := PendingCleared(s.mem), begins := s.begins - {b})
    case TimerFires(generation) =>
      generation in s.timers && s' == s.(mem := TimerFired(s.mem, generation), timers := s.timers - {generation})
    case CallbackArrives(c, now) =>
      c !in s.callbacks && s' == s.(mem := Expired(s.mem, now), callbacks := s.callbacks[c := Arrived(now)])
    case CallbackRejected(c) =>
      c in s.callbacks && s.callbacks[c].Arrived? && s' == s.(callbacks := s.callbacks - {c})
    case CallbackError(c, state) =>
      c in s.callbacks && s.callbacks[c].Arrived?
      && s' == s.(mem := ErrorCallback(s.mem, state, s.callbacks[c].now).0, callbacks := s.callbacks - {c})
    case CallbackCode(c, state) =>
      c in s.callbacks && s.callbacks[c].Arrived?
      && var (mem, taken) := CodeCallback(s.mem, state, s.callbacks[c].now);
         s' == if taken.Err? then s.(mem := mem, callbacks := s.callbacks - {c})
               else s.(mem := mem, callbacks := s.callbacks[c := Exchanging],
                       requests := s.requests + [Request(taken.value.generation, state, taken.value.codeVerifier)])
    case ExchangeEnds(c, response) =>
      c in s.callbacks && s.callbacks[c].Exchanging?
      && s' == s.(mem := if response.Some? && ValidSession(response.value)
                         then SessionInstalled(s.mem, response.value) else s.mem,
                  callbacks := s.callbacks - {c})
    case Logout => s' == s.(mem := LoggedOut(s.mem))
    case ClearNative => s' == s.(mem := NativeCleared(s.mem))
    case MarkReauthIfEpoch(epoch) => s' == s.(mem := ReauthMarkedIfEpoch(s.mem, epoch))
  }

  ghost predicate IsRun(states: seq<State>, acts: seq<Action>) {
    && |states| == |acts| + 1 && states[0] == INIT
    && forall i :: 0 <= i < |acts| ==> Step(states[i], acts[i], states[i + 1])
  }

  // A request carries the verifier of the very login whose state it answers.
  predicate MadeFrom(r: Request, installed: seq<Login>) {
    1 <= r.generation <= |installed| && installed[r.generation - 1] == Login(r.state, r.verifier)
  }

  ghost predicate PendingUnused(s: State) {
    s.mem.pending.Some? ==>
      var p := s.mem.pending.value;
      && MadeFrom(Request(p.generation, p.state, p.codeVerifier), s.installed)
      && forall i :: 0 <= i < |s.requests| ==> s.requests[i].generation != p.generation
  }

  ghost predicate RequestsDistinct(s: State) {
    && (forall i :: 0 <= i < |s.requests| ==> MadeFrom(s.requests[i], s.installed) && s.requests[i].state in s.mem.usedStates)
    && (forall i, j :: 0 <= i < j < |s.requests| ==>
          s.requests[i].state != s.requests[j].state && s.requests[i].generation != s.requests[j].generation)
  }

  ghost predicate SessionValid(s: State) {
    s.mem.session.Some? ==> ValidSession(s.mem.session.value)
  }

  // Generations count installed logins; a pending login is always the latest one, and a
  // begin whose browser is being opened knows the generation it installed.
  predicate GenerationsOk(s: State) {
    && |s.installed| == s.mem.pendingGeneration
    && (s.mem.pending.Some? ==> s.mem.pending.value.generation == s.mem.pendingGeneration)
    && (forall b :: b in s.begins && s.begins[b].Opening? ==> 1 <= s.begins[b].generation <= s.mem.pendingGeneration)
  }

  ghost predicate Inv(s: State) {
    GenerationsOk(s) && PendingUnused(s) && RequestsDistinct(s) && SessionValid(s)
  }

  lemma GenerationsStayOk(s: State, act: Action, s': State)
    requires Step(s, act, s') && GenerationsOk(s)
    ensures GenerationsOk(s')
  {
    hide ValidSession;
  }

  lemma SessionStaysValid(s: State, act: Action, s': State)
    requires Step(s, act, s') && SessionValid(s)
    ensures SessionValid(s')
  {
    hide ValidSession;
  }

  // What a step does to requests and installed logins.
  lemma RequestStep(s: State, act: Action, s': State)
    requires Step(s, act, s')
    ensures s.installed <= s'.installed && s.mem.usedStates <= s'.mem.usedStates
    ensures !act.CallbackCode? ==> s'.requests == s.requests
    ensures act.CallbackCode? && s'.requests != s.requests ==>
              && s.mem.pending.Some? && s'.mem.pending.None? && act.state !in s.mem.usedStates && act.state in s'.mem.usedStates
              && s.mem.pending.value.state == act.state && s'.installed == s.installed
              && var p := s.mem.pending.value; s'.requests == s.requests + [Request(p.generation, p.state, p.codeVerifier)]
    ensures s'.mem.pending.Some? && s'.mem.pending != s.mem.pending ==>
              && act.BeginInstalls? && s'.requests == s.requests
              && s'.mem.pending == Some(PendingPkce(act.state, act.verifier, s.mem.pendingGeneration + 1, act.expiresAt))
              && s'.installed == s.installed + [Login(act.state, act.verifier)]
  {
    hide ValidSession;
  }

  lemma RequestsStayDistinct(s: State, act: Action, s': State)
    requires Step(s, act, s') && PendingUnused(s) && RequestsDistinct(s)
    ensures RequestsDistinct(s')
  {
    RequestStep(s, act, s');
    hide Step;
    forall i | 0 <= i < |s.requests| ensures MadeFrom(s.requests[i], s'.installed) {
      assert MadeFrom(s.requests[i], s.installed);
    }
  }

  lemma PendingStaysUnused(s: State, act: Action, s': State)
    requires Step(s, act, s') && GenerationsOk(s) && PendingUnused(s) && RequestsDistinct(s)
    ensures PendingUnused(s')
  {
    RequestStep(s, act, s');
    hide Step;
    forall i | 0 <= i < |s.requests| ensures s.requests[i].generation <= s.mem.pendingGeneration {
      assert MadeFrom(s.requests[i], s.installed);
    }
  }

  lemma StepKeepsInv(s: State, act: Action, s': State)
    requires Step(s, act, s') && Inv(s)
    ensures Inv(s')
  {
    hide Step, GenerationsOk, PendingUnused, RequestsDistinct, SessionValid;
    GenerationsStayOk(s, act, s');
    PendingStaysUnused(s, act, s');
    RequestsStayDistinct(s, act, s');
    SessionStaysValid(s, act, s');
  }

  lemma {:induction false} RunKeepsInv(states: seq<State>, acts: seq<Action>, n: nat)
    requires IsRun(states, acts) && n <= |acts|
    ensures Inv(states[n])
  {
    if n > 0 {
      hide Step, Inv;
      RunKeepsInv(states, acts, n - 1);
      assert Step(states[n - 1], acts[n - 1], states[n]);
      StepKeepsInv(states[n - 1], acts[n - 1], states[n]);
    }
  }

  // Over all interleavings a state value is exchanged at most once, and always with
  // the code verifier that was generated together with it.
  lemma StateExchangedAtMostOnce(states: seq<State>, acts: seq<Action>, n: nat)
    requires IsRun(states, acts) && n <= |acts|
    ensures forall i, j :: 0 <= i < j < |states[n].requests| ==>
              states[n].requests[i].state != states[n].requests[j].state
    ensures forall i :: 0 <= i < |states[n].requests| ==> MadeFrom(states[n].requests[i], states[n].installed)
  {
    hide Step;
    RunKeepsInv(states, acts, n);
  }

  lemma {:induction false} Pigeonhole(xs: seq<nat>, m: nat)
    requires forall i :: 0 <= i < |xs| ==> 1 <= xs[i] <= m
    requires forall i, j :: 0 <= i < j < |xs| ==> xs[i] != xs[j]
    ensures |xs| <= m
    decreases m
  {
    if xs == [] {
    } else if i :| 0 <= i < |xs| && xs[i] == m {
      Pigeonhole(xs[..i] + xs[i + 1..], m - 1);
    } else {
      assert 1 <= xs[0] <= m;
      Pigeonhole(xs, m - 1);
    }
  }

  // Exchanges, together with a login still pending, never exceed installed logins.
  lemma ExchangesNeverExceedLogins(states: seq<State>, acts: seq<Action>, n: nat)
    requires IsRun(states, acts) && n <= |acts|
    ensures |states[n].requests| + (if states[n].mem.pending.Some? then 1 else 0) <= |states[n].installed|
  {
    hide ValidSession, Step;
    RunKeepsInv(states, acts, n);
    var s := states[n];
    var spent := seq(|s.requests|, i requires 0 <= i < |s.requests| => s.requests[i].generation);
    if s.mem.pending.Some? {
      spent := spent + [s.mem.pending.value.generation];
    }
    Pigeonhole(spent, |s.installed|);
  }

  // Exactly these actions end or replace a pending login p.
  predicate Ends(s: State, act: Action, p: PendingPkce) {
    match act
    case BeginLogin(_) => true
    case BeginInstalls(_, _, _, _) => true
    case BeginFails(_) => true
    case TimerFires(generation) => generation == p.generation
    case CallbackArrives(_, now) => now >= p.expiresAt
    case CallbackError(_, state) => state == p.state && state !in s.mem.usedStates
    case CallbackCode(c, state) =>
      state !in s.mem.usedStates
      && (state == p.state || (c in s.callbacks && s.callbacks[c].Arrived? && s.callbacks[c].now >= p.expiresAt))
    case Logout => true
    case ClearNative => true
    case MarkReauthIfEpoch(epoch) => ClearsEpoch(s.mem, epoch)
    case _ => false
  }

  lemma StepEndsPending(s: State, act: Action, s': State, p: PendingPkce)
    requires Step(s, act, s') && Inv(s) && s.mem.pending == Some(p)
    ensures s'.mem.pending != Some(p) <==> Ends(s, act, p)
  {
    hide ValidSession, RequestsDistinct, PendingUnused, SessionValid;
  }

  // A pending login lives on through any stretch of a run without such an action;
  // in particular no callback with a wrong state, no replay and no other login's
  // timer touches it before it expires.
  lemma {:induction false} PendingSurvives(states: seq<State>, acts: seq<Action>, i: nat, j: nat, p: PendingPkce)
    requires IsRun(states, acts) && i <= j <= |acts|
    requires states[i].mem.pending == Some(p)
    requires forall k :: i <= k < j ==> !Ends(states[k], acts[k], p)
    ensures states[j].mem.pending == Some(p)
  {
    hide Step, Ends, Inv;
    if i < j {
      PendingSurvives(states, acts, i, j - 1, p);
      RunKeepsInv(states, acts, j - 1);
      assert Step(states[j - 1], acts[j - 1], states[j]);
      StepEndsPending(states[j - 1], acts[j - 1], states[j], p);
    }
  }

  // What a callback with a code does: it makes an exchange request exactly when its state
  // is the pending login's, never spent and not expired by its own clock; then the login is
  // taken, its state spent and its own verifier sent.
  lemma CodeCallbackMeans(s: State, c: nat, state: string, s': State)
    requires Step(s, CallbackCode(c, state), s')
    ensures var now, p := s.callbacks[c].now, s.mem.pending;
            var live := p.Some? && p.value.state == state && state !in s.mem.usedStates && now < p.value.expiresAt;
            && s'.requests == s.requests + (if live then [Request(p.value.generation, state, p.value.codeVerifier)] else [])
            && (live ==> s'.mem == s.mem.(pending := None, usedStates := s.mem.usedStates + {state}) && s'.callbacks[c] == Exchanging)
            && (!live ==> s'.mem.usedStates == s.mem.usedStates && c !in s'.callbacks
                          && s'.mem == s.mem.(pending := s'.mem.pending))
  {
    assert s.requests + [] == s.requests;
  }

  // With an error instead the login is given up under the same conditions, without a request.
  lemma ErrorCallbackMeans(s: State, c: nat, state: string, s': State)
    requires Step(s, CallbackError(c, state), s')
    ensures var now, p := s.callbacks[c].now, s.mem.pending;
            var hit := p.Some? && p.value.state == state && state !in s.mem.usedStates;
            && s'.requests == s.requests && s'.mem.pending == (if hit then None else p)
            && s'.mem == s.mem.(pending := s'.mem.pending, usedStates := s'.mem.usedStates)
            && s'.mem.usedStates == s.mem.usedStates + (if hit && now < p.value.expiresAt then {state} else {})
  {
    assert s.mem.usedStates + {} == s.mem.usedStates;
  }

  // ---- failed begins ----

  // A login was installed in the run before step n that is newer than generation g.
  ghost predicate InstalledAfter(states: seq<State>, acts: seq<Action>, g: nat, n: nat)
    requires |states| == |acts| + 1 && n <= |acts|
  {
    exists k :: 0 <= k < n && acts[k].BeginInstalls? && states[k + 1].mem.pendingGeneration > g
  }

  lemma StepRaisesGeneration(s: State, act: Action, s': State)
    requires Step(s, act, s')
    ensures s'.mem.pendingGeneration == s.mem.pendingGeneration + (if act.BeginInstalls? then 1 else 0)
  {
    hide ValidSession;
  }

  lemma {:induction false} GenerationCountsInstalls(states: seq<State>, acts: seq<Action>, g: nat, n: nat)
    requires IsRun(states, acts) && n <= |acts|
    ensures InstalledAfter(states, acts, g, n) <==> g < states[n].mem.pendingGeneration
  {
    if n > 0 {
      hide Step;
      GenerationCountsInstalls(states, acts, g, n - 1);
      assert Step(states[n - 1], acts[n - 1], states[n]);
      StepRaisesGeneration(states[n - 1], acts[n - 1], states[n]);
      if InstalledAfter(states, acts, g, n) && !acts[n - 1].BeginInstalls? {
        var k :| 0 <= k < n && acts[k].BeginInstalls? && states[k + 1].mem.pendingGeneration > g;
        assert k < n - 1;
      }
      if InstalledAfter(states, acts, g, n - 1) {
        var k :| 0 <= k < n - 1 && acts[k].BeginInstalls? && states[k + 1].mem.pendingGeneration > g;
        assert acts[k].BeginInstalls?;
      }
    }
  }

  // A begin that fails to open the browser clears whatever login is pending. What it
  // clears is its own login exactly when no other was installed since; otherwise it
  // takes away the newest one, which another begin installed.
  lemma FailedBeginTakesForeignLogin(states: seq<State>, acts: seq<Action>, n: nat, b: nat)
    requires IsRun(states, acts) && n < |acts| && acts[n] == BeginFails(b) && states[n].mem.pending.Some?
    ensures b in states[n].begins && states[n].begins[b].Opening? && states[n + 1].mem.pending.None?
    ensures var own, taken := states[n].begins[b].generation, states[n].mem.pending.value.generation;
            && (taken != own <==> own < states[n].mem.pendingGeneration)
            && (taken != own <==> InstalledAfter(states, acts, own, n))
            && taken == states[n].mem.pendingGeneration
  {
    assert Step(states[n], acts[n], states[n + 1]);
    hide Step, PendingUnused, RequestsDistinct, SessionValid, InstalledAfter;
    RunKeepsInv(states, acts, n);
    GenerationCountsInstalls(states, acts, states[n].begins[b].generation, n);
  }

  // It can happen: two begins one after the other, and the first one's browser fails.
  lemma SecondLoginIsTaken(first: Login, second: Login, deadline: Instant) returns (states: seq<State>, acts: seq<Action>)
    ensures IsRun(states, acts) && acts != [] && acts[|acts| - 1] == BeginFails(0)
    ensures var s, s' := states[|acts| - 1], states[|acts|];
            && s.mem.pending == Some(PendingPkce(second.state, second.verifier, 2, deadline))
            && s.begins == map[0 := Opening(1), 1 := Opening(2)] && s'.mem.pending.None?
  {
    var p1 := PendingPkce(first.state, first.verifier, 1, deadline);
    var p2 := PendingPkce(second.state, second.verifier, 2, deadline);
    var m1 := EMPTY_MEMORY.(pending := Some(p1), pendingGeneration := 1);
    var m2 := EMPTY_MEMORY.(pending := Some(p2), pendingGeneration := 2);
    var s1 := INIT.(begins := map[0 := Preparing]);
    var s2 := INIT.(mem := m1, begins := map[0 := Opening(1)], installed := [first]);
    var s3 := s2.(mem := m1.(pending := None), begins := map[0 := Opening(1), 1 := Preparing]);
    var s4 := s3.(mem := m2, begins := map[0 := Opening(1), 1 := Opening(2)], installed := [first, second]);
    var s5 := s4.(mem := m2.(pending := None), begins := map[1 := Opening(2)]);
    states := [INIT, s1, s2, s3, s4, s5];
    acts := [BeginLogin(0), BeginInstalls(0, first.state, first.verifier, deadline), BeginLogin(1),
             BeginInstalls(1, second.state, second.verifier, deadline), BeginFails(0)];
    assert s4.begins - {0} == s5.begins;
  }

  // An installed session always has a principal, so it can be bound to.
  lemma InstalledSessionHasPrincipal(states: seq<State>, acts: seq<Action>, n: nat)
    requires IsRun(states, acts) && n <= |acts| && states[n].mem.session.Some?
    ensures BindingOf(states[n].mem).Some?
    ensures BindingOf(states[n].mem).value.epoch == states[n].mem.sessionEpoch
  {
    hide Step;
    RunKeepsInv(states, acts, n);
    ValidSessionHasPrincipal(states[n].mem.session.value);
  }

  lemma StepRaisesEpoch(s: State, act: Action, s': State)
    requires Step(s, act, s')
    ensures s.mem.sessionEpoch <= s'.mem.sessionEpoch
    ensures s.mem.sessionEpoch == s'.mem.sessionEpoch ==> s.mem.session == s'.mem.session
  {
    hide ValidSession;
  }

  // The session only ever changes together with its epoch, which never decreases:
  // an epoch names one session, so a binding that is still current is the same one.
  lemma {:induction false} EpochNamesSession(states: seq<State>, acts: seq<Action>, i: nat, j: nat)
    requires IsRun(states, acts) && i <= j <= |acts|
    ensures states[i].mem.sessionEpoch <= states[j].mem.sessionEpoch
    ensures states[i].mem.sessionEpoch == states[j].mem.sessionEpoch ==> states[i].mem.session == states[j].mem.session
  {
    hide Step;
    if i < j {
      EpochNamesSession(states, acts, i, j - 1);
      assert Step(states[j - 1], acts[j - 1], states[j]);
      StepRaisesEpoch(states[j - 1], acts[j - 1], states[j]);
    }
  }

  // ---- an ordinary login ----

  lemma UndisturbedBegin(s: State, b: nat, login: Login, expiresAt: Instant) returns (s1: State, s2: State, s3: State)
    requires b !in s.begins
    ensures Step(s, BeginLogin(b), s1) && Step(s1, BeginInstalls(b, login.state, login.verifier, expiresAt), s2)
    ensures Step(s2, BeginOpens(b, true), s3)
    ensures var g := s.mem.pendingGeneration + 1;
            s3 == s.(mem := s.mem.(pending := Some(PendingPkce(login.state, login.verifier, g, expiresAt)), reauthRequired := false,
                                   pendingGeneration := g),
                     installed := s.installed + [login], timers := s.timers + {g})
  {
    hide ValidSession;
    var g := s.mem.pendingGeneration + 1;
    s1 := s.(mem := s.mem.(pending := None, reauthRequired := false), begins := s.begins[b := Preparing]);
    s2 := s1.(mem := s1.mem.(pending := Some(PendingPkce(login.state, login.verifier, g, expiresAt)), pendingGeneration := g),
              begins := s1.begins[b := Opening(g)], installed := s.installed + [login]);
    s3 := s2.(begins := s.begins, timers := s.timers + {g});
    assert s2.begins - {b} == s.begins;
  }

  lemma UndisturbedCallback(s: State, c: nat, now: Instant, response: NativeSession) returns (s1: State, s2: State, s3: State)
    requires c !in s.callbacks && s.mem.pending.Some? && s.mem.pending.value.state !in s.mem.usedStates
    requires now < s.mem.pending.value.expiresAt && ValidSession(response)
    ensures Step(s, CallbackArrives(c, now), s1) && Step(s1, CallbackCode(c, s.mem.pending.value.state), s2)
    ensures Step(s2, ExchangeEnds(c, Some(response)), s3)
    ensures var p := s.mem.pending.value;
            s3 == s.(mem := AuthMemory(None, Some(response), s.mem.usedStates + {p.state}, false, s.mem.sessionEpoch + 1,
                                       s.mem.pendingGeneration),
                     requests := s.requests + [Request(p.generation, p.state, p.codeVerifier)])
  {
    hide ValidSession;
    var p := s.mem.pending.value;
    s1 := s.(callbacks := s.callbacks[c := Arrived(now)]);
    s2 := s1.(mem := s.mem.(pending := None, usedStates := s.mem.usedStates + {p.state}),
              callbacks := s1.callbacks[c := Exchanging],
              requests := s.requests + [Request(p.generation, p.state, p.codeVerifier)]);
    s3 := s2.(mem := AuthMemory(None, Some(response), s.mem.usedStates + {p.state}, false, s.mem.sessionEpoch + 1,
                                s.mem.pendingGeneration),
              callbacks := s.callbacks);
    assert s2.callbacks - {c} == s.callbacks;
  }

  // From any state a login whose steps nothing disturbs, answered in time with a
  // state never spent before and a valid session, makes one exchange request with the
  // verifier of this login and installs this session under the next epoch.
  lemma UndisturbedLogin(s: State, b: nat, c: nat, login: Login, expiresAt: Instant, now: Instant, response: NativeSession)
    returns (path: seq<State>)
    requires b !in s.begins && c !in s.callbacks
    requires login.state !in s.mem.usedStates && now < expiresAt && ValidSession(response)
    ensures |path| == 7 && path[0] == s
    ensures Step(path[0], BeginLogin(b), path[1])
    ensures Step(path[1], BeginInstalls(b, login.state, login.verifier, expiresAt), path[2])
    ensures Step(path[2], BeginOpens(b, true), path[3]) && Step(path[3], CallbackArrives(c, now), path[4])
    ensures Step(path[4], CallbackCode(c, login.state), path[5]) && Step(path[5], ExchangeEnds(c, Some(response)), path[6])
    ensures var s' := path[6];
            && s'.mem == AuthMemory(None, Some(response), s.mem.usedStates + {login.state}, false, s.mem.sessionEpoch + 1,
                                    s.mem.pendingGeneration + 1)
            && s'.requests == s.requests + [Request(s.mem.pendingGeneration + 1, login.state, login.verifier)]
            && s'.begins == s.begins && s'.callbacks == s.callbacks && s'.installed == s.installed + [login]
            && s'.timers == s.timers + {s.mem.pendingGeneration + 1}
  {
    hide *;
    var s1, s2, s3 := UndisturbedBegin(s, b, login, expiresAt);
    var s4, s5, s6 := UndisturbedCallback(s3, c, now, response);
    path := [s, s1, s2, s3, s4, s5, s6];
  }
}
