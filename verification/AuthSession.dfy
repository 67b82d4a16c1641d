// src-tauri/src/auth/session.rs and the store updates of src-tauri/src/auth/mod.rs.
// Each function on AuthMemory is one section run under the store's mutex; the
// class AuthStore is the store, its methods proved against these functions.
module AuthSession {
  import opened Wrappers
  import opened Text
  import opened LocalSsh

  // A point in time; deadlines are compared with it and nothing else.
  type Instant = int

  datatype AuthError =
    | Random | Http | InvalidDeepLink | StateMismatch | StateReplay | Exchange
    | InvalidSession | PendingExpired | AuthInternal

  datatype PendingPkce = PendingPkce(state: string, codeVerifier: string, generation: nat, expiresAt: Instant)

  datatype NativeSession = NativeSession(token: string, username: string, role: string, subject: string, tenantId: string)

  datatype AuthMemory = AuthMemory(
    pending: Option<PendingPkce>,
    session: Option<NativeSession>,
    usedStates: set<string>,
    reauthRequired: bool,
    sessionEpoch: nat,
    pendingGeneration: nat)

  const EMPTY_MEMORY := AuthMemory(None, None, {}, false, 0, 0)

  // principal_from_session
  function PrincipalOf(s: NativeSession): Option<NativePrincipal> {
    if Blank(s.tenantId) || Blank(s.username) || Blank(s.subject) || Blank(s.token) || Blank(s.role) then None
    else Some(NativePrincipal(Trim(s.tenantId), s.username, s.subject))
  }

  // auth_binding; native_auth_snapshot reads the same principal and epoch.
  function BindingOf(m: AuthMemory): Option<AuthBinding> {
    match m.session
    case None => None
    case Some(s) =>
      match PrincipalOf(s)
      case None => None
      case Some(p) => Some(AuthBinding(p, m.sessionEpoch))
  }

  predicate BindingCurrent(m: AuthMemory, principal: NativePrincipal, epoch: nat) {
    m.sessionEpoch == epoch && m.session.Some? && PrincipalOf(m.session.value) == Some(principal)
  }

  function NativeCleared(m: AuthMemory): AuthMemory {
    m.(pending := None, session := None, sessionEpoch := m.sessionEpoch + 1)
  }

  function PendingCleared(m: AuthMemory): AuthMemory {
    m.(pending := None)
  }

  function TimerFired(m: AuthMemory, generation: nat): AuthMemory {
    if m.pending.Some? && m.pending.value.generation == generation then PendingCleared(m) else m
  }

  function Expired(m: AuthMemory, now: Instant): AuthMemory {
    if m.pending.Some? && now >= m.pending.value.expiresAt then PendingCleared(m) else m
  }

  function PendingInstalled(m: AuthMemory, state: string, verifier: string, expiresAt: Instant): AuthMemory {
    var generation := m.pendingGeneration + 1;
    m.(pending := Some(PendingPkce(state, verifier, generation, expiresAt)), pendingGeneration := generation)
  }

  // mark_reauth_required_if_epoch: the new memory, and whether it cleared a session.
  predicate ClearsEpoch(m: AuthMemory, epoch: nat) {
    m.sessionEpoch == epoch && m.session.Some?
  }

  function ReauthMarkedIfEpoch(m: AuthMemory, epoch: nat): AuthMemory {
    if ClearsEpoch(m, epoch) then NativeCleared(m).(reauthRequired := true) else m
  }

  // The first section of every perform_begin_logto variant.
  function BeginStarted(m: AuthMemory): AuthMemory {
    m.(pending := None, reauthRequired := false)
  }

  function LoggedOut(m: AuthMemory): AuthMemory {
    NativeCleared(m).(reauthRequired := false)
  }

  // The section of perform_handle_deep_link_at for a callback that carries an error.
  function ErrorCallback(m: AuthMemory, state: string, now: Instant): (AuthMemory, AuthError) {
    if state in m.usedStates then (m, StateReplay)
    else if m.pending.Some? && m.pending.value.state == state then
      if now >= m.pending.value.expiresAt then (PendingCleared(m), PendingExpired)
      else (PendingCleared(m).(usedStates := m.usedStates + {state}), Exchange)
    else (m, StateMismatch)
  }

  // The first section for a callback that carries a code: on Ok the pending login
  // leaves the store, its verifier going into the exchange request.
  function CodeCallback(m: AuthMemory, state: string, now: Instant): (AuthMemory, Result<PendingPkce, AuthError>) {
    if state in m.usedStates then (m, Err(StateReplay))
    else if m.pending.None? then (m, Err(StateMismatch))
    else if now >= m.pending.value.expiresAt then (PendingCleared(m), Err(PendingExpired))
    else if m.pending.value.state != state then (m, Err(StateMismatch))
    else (PendingCleared(m).(usedStates := m.usedStates + {state}), Ok(m.pending.value))
  }

  // What each section answers: a spent state is a replay, a login past its deadline has
  // expired, and any state but the pending one's is a mismatch.
  lemma CallbackAnswers(m: AuthMemory, state: string, now: Instant)
    ensures var code, error := CodeCallback(m, state, now).1, ErrorCallback(m, state, now).1;
            var spent, due := state in m.usedStates, m.pending.Some? && now >= m.pending.value.expiresAt;
            var mine := m.pending.Some? && m.pending.value.state == state;
            && (code == Err(StateReplay) <==> spent) && (error == StateReplay <==> spent)
            && (code == Err(PendingExpired) <==> !spent && due) && (error == PendingExpired <==> !spent && mine && due)
            && (code == Err(StateMismatch) <==> !spent && !due && !mine) && (error == StateMismatch <==> !spent && !mine)
            && (code.Ok? <==> !spent && !due && mine) && (error == Exchange <==> !spent && mine && !due)
            && (code.Ok? ==> m.pending == Some(code.value))
  {
  }

  // validate_exchange_session
  predicate ValidSession(s: NativeSession) {
    !Blank(s.token) && !Blank(s.username) && !Blank(s.role) && !Blank(s.subject) && !Blank(s.tenantId)
  }

  // The second section of a code callback.
  function SessionInstalled(m: AuthMemory, s: NativeSession): AuthMemory {
    m.(session := Some(s), reauthRequired := false, sessionEpoch := m.sessionEpoch + 1)
  }

  datatype DeepLinkParams = DeepLinkParams(code: Option<string>, state: Option<string>, error: Option<string>)

  // A callback that may be exchanged: code, and the state of a pending login that is
  // neither expired nor spent.
  predicate AnswersPending(m: AuthMemory, params: Option<DeepLinkParams>, now: Instant) {
    && params.Some? && params.value.error.None? && params.value.code.Some? && m.pending.Some?
    && params.value.state == Some(m.pending.value.state) && m.pending.value.state !in m.usedStates
    && now < m.pending.value.expiresAt
  }

  function PendingSpent(m: AuthMemory): AuthMemory
    requires m.pending.Some?
  {
    m.(pending := None, usedStates := m.usedStates + {m.pending.value.state})
  }

  // Why a callback is refused: what it lacks, then a spent state, then a state that no
  // unexpired login waits for, then the provider's error or what went wrong afterwards.
  function DeepLinkError(params: Option<DeepLinkParams>, pending: Option<PendingPkce>, usedStates: set<string>,
                         response: Option<NativeSession>, now: Instant): AuthError
  {
    if params.None? || (params.value.error.None? && params.value.code.None?) then InvalidDeepLink
    else if params.value.state.None? || (params.value.error.Some? && params.value.state.value == "") then StateMismatch
    else if params.value.state.value in usedStates then StateReplay
    else if pending.None? || pending.value.expiresAt <= now || pending.value.state != params.value.state.value then StateMismatch
    else if params.value.error.Some? || response.None? then Exchange
    else InvalidSession
  }

  class AuthStore {
    var pending: Option<PendingPkce>
    var session: Option<NativeSession>
    var usedStates: set<string>
    var reauthRequired: bool
    var sessionEpoch: nat
    var pendingGeneration: nat

    function Memory(): AuthMemory
      reads this
    {
      AuthMemory(pending, session, usedStates, reauthRequired, sessionEpoch, pendingGeneration)
    }

    constructor ()
      ensures Memory() == EMPTY_MEMORY
    {
      pending, session, usedStates, reauthRequired, sessionEpoch, pendingGeneration := None, None, {}, false, 0, 0;
    }

    method ClearNative()
      modifies this
      ensures Memory() == NativeCleared(old(Memory()))
      ensures pending == None && session == None && sessionEpoch == old(sessionEpoch) + 1
      ensures unchanged(`usedStates) && unchanged(`reauthRequired) && unchanged(`pendingGeneration)
    {
      pending := None;
      session := None;
      sessionEpoch := sessionEpoch + 1;
    }

    method ClearPendingIfGeneration(generation: nat) returns (cleared: bool)
      modifies this`pending
      ensures Memory() == TimerFired(old(Memory()), generation)
      ensures cleared <==> old(pending).Some? && old(pending).value.generation == generation
      ensures pending == if cleared then None else old(pending)
    {
      cleared := pending.Some? && pending.value.generation == generation;
      if cleared {
        pending := None;
      }
    }

    method ExpireDuePending(now: Instant) returns (expired: bool)
      modifies this`pending
      ensures Memory() == Expired(old(Memory()), now)
      ensures expired <==> old(pending).Some? && now >= old(pending).value.expiresAt
      ensures pending == if expired then None else old(pending)
    {
      expired := pending.Some? && now >= pending.value.expiresAt;
      if expired {
        pending := None;
      }
    }

    method InstallPending(state: string, verifier: string, timeout: nat, now: Instant) returns (generation: nat)
      modifies this`pending, this`pendingGeneration
      ensures Memory() == PendingInstalled(old(Memory()), state, verifier, now + timeout)
      ensures generation == pendingGeneration == old(pendingGeneration) + 1
      ensures pending == Some(PendingPkce(state, verifier, generation, now + timeout))
    {
      pendingGeneration := pendingGeneration + 1;
      generation := pendingGeneration;
      pending := Some(PendingPkce(state, verifier, generation, now + timeout));
    }

    method NativeAuthBinding() returns (binding: Option<AuthBinding>)
      ensures binding == BindingOf(Memory())
      ensures binding.Some? ==> BindingCurrent(Memory(), binding.value.principal, binding.value.epoch)
      ensures binding.Some? <==> session.Some? && ValidSession(session.value)
      ensures binding.Some? ==>
                var s := session.value;
                && binding.value.epoch == sessionEpoch && binding.value.principal.tenantId == Trim(s.tenantId)
                && binding.value.principal.userId == s.username && binding.value.principal.subject == s.subject
    {
      if session.None? {
        return None;
      }
      var principal := PrincipalOf(session.value);
      if principal.None? || Blank(session.value.token) {
        return None;
      }
      return Some(AuthBinding(principal.value, sessionEpoch));
    }

    method MarkReauthRequiredIfEpoch(epoch: nat) returns (cleared: bool)
      modifies this
      ensures Memory() == ReauthMarkedIfEpoch(old(Memory()), epoch)
      ensures cleared <==> old(sessionEpoch) == epoch && old(session).Some?
      ensures cleared ==> pending == None && session == None && sessionEpoch == epoch + 1 && reauthRequired
                          && unchanged(`usedStates) && unchanged(`pendingGeneration)
      ensures !cleared ==> unchanged(this)
    {
      if sessionEpoch != epoch || session.None? {
        return false;
      }
      ClearNative();
      reauthRequired := true;
      return true;
    }

    // perform_begin_logto_with_timeout. verifier and state are what the random source
    // gives (None: it failed); browserOpened says whether fetching the config, building the
    // URL and opening the browser all succeeded.
    method PerformBeginLogto(verifier: Option<string>, state: Option<string>, browserOpened: bool, timeout: nat, now: Instant)
      returns (started: bool)
      modifies this
      ensures started <==> verifier.Some? && state.Some? && browserOpened
      ensures started ==> Memory() == PendingInstalled(BeginStarted(old(Memory())), state.value, verifier.value, now + timeout)
      ensures started ==>
                && pending == Some(PendingPkce(state.value, verifier.value, old(pendingGeneration) + 1, now + timeout))
                && pendingGeneration == old(pendingGeneration) + 1 && !reauthRequired
                && unchanged(`session) && unchanged(`usedStates) && unchanged(`sessionEpoch)
      ensures !started ==> pending == None && session == old(session) && sessionEpoch == old(sessionEpoch)
                           && usedStates == old(usedStates) && !reauthRequired
    {
      pending := None;
      reauthRequired := false;
      if verifier.None? || state.None? {
        return false;
      }
      var _ := InstallPending(state.value, verifier.value, timeout, now);
      if !browserOpened {
        pending := None;
        return false;
      }
      return true;
    }

    // perform_handle_deep_link_at with nothing running in between. response is what
    // the exchange and the parse of its body give (None: either failed).
    method PerformHandleDeepLink(params: Option<DeepLinkParams>, response: Option<NativeSession>, now: Instant)
      returns (r: Result<NativeSession, AuthError>)
      modifies this
      ensures r.Ok? <==> AnswersPending(old(Memory()), params, now) && response.Some? && ValidSession(response.value)
      ensures r.Ok? ==> r.value == response.value && Memory() == SessionInstalled(PendingSpent(old(Memory())), r.value)
      ensures r.Ok? ==> pending == None && session == Some(r.value) && sessionEpoch == old(sessionEpoch) + 1 && !reauthRequired
                        && usedStates == old(usedStates) + {old(pending).value.state} && unchanged(`pendingGeneration)
      ensures r.Err? ==> r.error == DeepLinkError(params, old(pending), old(usedStates), response, now)
      ensures r.Err? && AnswersPending(old(Memory()), params, now) ==> Memory() == PendingSpent(old(Memory()))
      ensures && params.Some? && (params.value.error.Some? || params.value.code.Some?) && old(pending).Some?
              && params.value.state == Some(old(pending).value.state) && old(pending).value.state !in old(usedStates)
              && now < old(pending).value.expiresAt && (params.value.error.Some? ==> params.value.state != Some(""))
              ==> pending == None && usedStates == old(usedStates) + {old(pending).value.state}
      ensures r.Err? ==> Memory() == old(Memory()).(pending := pending, usedStates := usedStates) && usedStates >= old(usedStates)
      ensures old(pending).Some? && now < old(pending).value.expiresAt
                && (params.None? || params.value.state != Some(old(pending).value.state))
              ==> Memory() == old(Memory())
      ensures old(pending).Some? && now >= old(pending).value.expiresAt ==> pending == None && usedStates == old(usedStates)
    {
      hide ValidSession;
      var _ := ExpireDuePending(now);
      if params.None? {
        return Err(InvalidDeepLink);
      }
      if params.value.error.Some? {
        if params.value.state.None? || params.value.state.value == "" {
          return Err(StateMismatch);
        }
        var e := RejectPending(params.value.state.value, now);
        return Err(e);
      }
      if params.value.code.None? {
        return Err(InvalidDeepLink);
      }
      if params.value.state.None? {
        return Err(StateMismatch);
      }
      var taken := TakePending(params.value.state.value, now);
      if taken.Err? {
        return Err(taken.error);
      }
      r := InstallExchanged(response);
    }

    // The exchange's answer: checked, and installed in the second section.
    method InstallExchanged(response: Option<NativeSession>) returns (r: Result<NativeSession, AuthError>)
      modifies this`session, this`reauthRequired, this`sessionEpoch
      ensures r == if response.None? then Err(Exchange)
                   else if ValidSession(response.value) then Ok(response.value) else Err(InvalidSession)
      ensures r.Ok? ==> session == Some(r.value) && !reauthRequired && sessionEpoch == old(sessionEpoch) + 1
      ensures r.Err? ==> unchanged(this)
    {
      if response.None? {
        return Err(Exchange);
      }
      var s := response.value;
      if Blank(s.token) || Blank(s.username) || Blank(s.role) || Blank(s.subject) || Blank(s.tenantId) {
        return Err(InvalidSession);
      }
      session := Some(s);
      reauthRequired := false;
      sessionEpoch := sessionEpoch + 1;
      return Ok(s);
    }

    method RejectPending(state: string, now: Instant) returns (e: AuthError)
      modifies this`pending, this`usedStates
      ensures (Memory(), e) == ErrorCallback(old(Memory()), state, now)
    {
      if state in usedStates {
        return StateReplay;
      }
      if pending.None? || pending.value.state != state {
        return StateMismatch;
      }
      if now >= pending.value.expiresAt {
        pending := None;
        return PendingExpired;
      }
      pending := None;
      usedStates := usedStates + {state};
      return Exchange;
    }

    method TakePending(state: string, now: Instant) returns (r: Result<PendingPkce, AuthError>)
      modifies this`pending, this`usedStates
      ensures (Memory(), r) == CodeCallback(old(Memory()), state, now)
    {
      if state in usedStates {
        return Err(StateReplay);
      }
      if pending.None? {
        return Err(StateMismatch);
      }
      var taken := pending.value;
      pending := None;
      if now >= taken.expiresAt {
        return Err(PendingExpired);
      }
      if taken.state != state {
        pending := Some(taken);
        return Err(StateMismatch);
      }
      usedStates := usedStates + {state};
      return Ok(taken);
    }

    method PerformLogout()
      modifies this
      ensures Memory() == LoggedOut(old(Memory()))
      ensures pending == None && session == None && sessionEpoch == old(sessionEpoch) + 1 && !reauthRequired
      ensures unchanged(`usedStates) && unchanged(`pendingGeneration)
    {
      ClearNative();
      reauthRequired := false;
    }
  }

  // A session accepted by the exchange checks always has a principal.
  lemma ValidSessionHasPrincipal(s: NativeSession)
    ensures ValidSession(s) <==> PrincipalOf(s).Some?
  {
  }
}
