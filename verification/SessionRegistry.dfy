// src-tauri/src/local_ssh/session.rs: the registry of live SSH sessions.
// Each function below is one section of code run under the registry mutex; the
// class at the end is the registry itself, its methods proved against them.
module SessionRegistry {
  import opened Wrappers
  import opened LocalSsh
  import Base64Url

  type SessionId = string

  // Identity of one SessionCloseHandle, fresh for every complete_established call.
  type Handle = nat

  datatype CredentialKey = CredentialKey(tenantId: string, subject: string, credentialId: string)

  function KeyOf(principal: NativePrincipal, credentialId: string): CredentialKey {
    CredentialKey(principal.tenantId, principal.subject, credentialId)
  }

  datatype Ticket = Ticket(
    principal: NativePrincipal, authEpoch: nat, serverId: string, credentialId: string,
    preparedSshGeneration: nat, registryGlobalGeneration: nat, credentialInvalidationEpoch: nat)

  datatype Authority = Authority(
    principal: NativePrincipal, epoch: nat, serverId: string, credentialId: string, sshGeneration: nat)

  datatype SessionRecord = SessionRecord(
    principal: NativePrincipal, epoch: nat, serverId: string, credentialId: string, sshGeneration: nat,
    registeredGlobalGeneration: nat, registeredCredentialEpoch: nat, sessionId: SessionId, close: Handle)
  {
    function Key(): CredentialKey { KeyOf(principal, credentialId) }
  }

  datatype OpenRequest = OpenRequest(serverId: string, credentialId: string)

  // RegistryInner.
  datatype Registry = Registry(
    sessions: map<SessionId, SessionRecord>,
    globalGeneration: nat,
    credentialEpochs: map<CredentialKey, nat>)
  {
    function CredentialEpoch(key: CredentialKey): nat {
      if key in credentialEpochs then credentialEpochs[key] else 0
    }

    // ensure_ticket_barriers_current
    predicate BarriersCurrent(principal: NativePrincipal, credentialId: string, generation: nat, epoch: nat) {
      globalGeneration == generation && CredentialEpoch(KeyOf(principal, credentialId)) == epoch
    }

    predicate TicketCurrent(t: Ticket) {
      BarriersCurrent(t.principal, t.credentialId, t.registryGlobalGeneration, t.credentialInvalidationEpoch)
    }

    // barriers_still_valid
    predicate RecordCurrent(rec: SessionRecord) {
      BarriersCurrent(rec.principal, rec.credentialId, rec.registeredGlobalGeneration, rec.registeredCredentialEpoch)
    }

    function Without(ids: set<SessionId>): Registry {
      this.(sessions := sessions - ids)
    }

    ghost predicate Keyed() {
      forall id :: id in sessions ==> sessions[id].sessionId == id
    }
  }

  const EMPTY_REGISTRY := Registry(map[], 0, map[])

  // begin_establishment, after the id, binding and unlocked checks.
  function TicketFor(reg: Registry, binding: AuthBinding, req: OpenRequest, sshGeneration: nat): Ticket {
    Ticket(binding.principal, binding.epoch, req.serverId, req.credentialId, sshGeneration,
           reg.globalGeneration, reg.CredentialEpoch(KeyOf(binding.principal, req.credentialId)))
  }

  predicate TicketMatchesAuthority(t: Ticket, a: Authority) {
    && t.principal == a.principal
    && t.authEpoch == a.epoch
    && t.serverId == a.serverId
    && t.credentialId == a.credentialId
    && t.preparedSshGeneration == a.sshGeneration
  }

  const MAX_SESSION_ID_ATTEMPTS: nat := 8

  type Buffer32 = b: seq<Base64Url.Byte> | |b| == 32 witness seq(32, _ => 0)

  // What the random source yields on one call: 32 bytes, or a failure.
  type Draw = Option<Buffer32>

  // mint_unique_session_id over the results of the next random calls.
  function MintSessionId(sessions: map<SessionId, SessionRecord>, draws: seq<Draw>): Option<SessionId> {
    if draws == [] || draws[0].None? then None
    else
      var id := Base64Url.Encode(draws[0].value);
      if id !in sessions then Some(id) else MintSessionId(sessions, draws[1..])
  }

  function RecordFor(t: Ticket, a: Authority, id: SessionId, close: Handle): SessionRecord {
    SessionRecord(a.principal, a.epoch, a.serverId, a.credentialId, a.sshGeneration,
                  t.registryGlobalGeneration, t.credentialInvalidationEpoch, id, close)
  }

  // insert_session: the error, or the id under which the record was inserted.
  function InsertOutcome(reg: Registry, t: Ticket, a: Authority, draws: seq<Draw>): Result<SessionId, LocalSshError> {
    if !reg.BarriersCurrent(a.principal, a.credentialId, t.registryGlobalGeneration, t.credentialInvalidationEpoch) then
      Err(SshCutoff)
    else
      match MintSessionId(reg.sessions, draws)
      case None => Err(Internal)
      case Some(id) => Ok(id)
  }

  function Inserted(reg: Registry, t: Ticket, a: Authority, id: SessionId, close: Handle): Registry {
    reg.(sessions := reg.sessions[id := RecordFor(t, a, id, close)])
  }

  // The mutex section of ensure_post_insert.
  function PostInsertCheck(reg: Registry, t: Ticket, id: SessionId): Check {
    if !reg.TicketCurrent(t) then Fail(SshCutoff)
    else if id !in reg.sessions then Fail(Internal)
    else
      var rec := reg.sessions[id];
      if && rec.principal == t.principal && rec.epoch == t.authEpoch && rec.serverId == t.serverId
         && rec.credentialId == t.credentialId && rec.sshGeneration == t.preparedSshGeneration
      then Pass else Fail(Internal)
  }

  // close_session: the ids it removes.
  function OwnedBy(reg: Registry, id: SessionId, binding: AuthBinding): set<SessionId> {
    if && id in reg.sessions
       && reg.sessions[id].principal == binding.principal && reg.sessions[id].epoch == binding.epoch
    then {id} else {}
  }

  // drain_invalid_sessions: binding and vault state were read before the lock, the
  // SSH generation once per record under it (liveGeneration holds those that matched).
  function Stale(reg: Registry, binding: Option<AuthBinding>, vaultOk: bool, liveGeneration: set<SessionId>): set<SessionId> {
    set id | id in reg.sessions && IsStale(reg, binding, vaultOk, liveGeneration, id)
  }

  predicate IsStale(reg: Registry, binding: Option<AuthBinding>, vaultOk: bool, liveGeneration: set<SessionId>, id: SessionId)
    requires id in reg.sessions
  {
    var rec := reg.sessions[id];
    || binding.None?
    || rec.principal != binding.value.principal || rec.epoch != binding.value.epoch
    || id !in liveGeneration || !vaultOk || !reg.RecordCurrent(rec)
  }

  // close_all_sessions
  function AllClosed(reg: Registry): Registry {
    Registry(map[], reg.globalGeneration + 1, reg.credentialEpochs)
  }

  // close_sessions_for_credential
  function WithKey(reg: Registry, key: CredentialKey): set<SessionId> {
    set id | id in reg.sessions && reg.sessions[id].Key() == key
  }

  function CredentialClosed(reg: Registry, key: CredentialKey): Registry {
    reg.Without(WithKey(reg, key)).(credentialEpochs := reg.credentialEpochs[key := reg.CredentialEpoch(key) + 1])
  }

  // drained lists the records of the given ids, each once, in some order.
  ghost predicate IsDrainOf(drained: seq<SessionRecord>, reg: Registry, ids: set<SessionId>) {
    && (forall i :: 0 <= i < |drained| ==>
          drained[i].sessionId in ids && drained[i].sessionId in reg.sessions
          && reg.sessions[drained[i].sessionId] == drained[i])
    && (forall i, j :: 0 <= i < j < |drained| ==> drained[i].sessionId != drained[j].sessionId)
    && (forall id :: id in ids ==> exists i :: 0 <= i < |drained| && drained[i].sessionId == id)
  }

  function Handles(drained: seq<SessionRecord>): seq<Handle> {
    seq(|drained|, i requires 0 <= i < |drained| => drained[i].close)
  }

  // A draw whose id is already taken, so that minting tries the next one.
  predicate Collides(sessions: map<SessionId, SessionRecord>, draw: Draw) {
    draw.Some? && Base64Url.Encode(draw.value) in sessions
  }

  // Minting uses the first draw that does not collide: it fails when there is
  // none or when the random source failed on it, and otherwise the id is new.
  lemma {:induction false} MintSessionIdUsesFirstFreeDraw(sessions: map<SessionId, SessionRecord>, draws: seq<Draw>, k: nat)
    requires k <= |draws| && forall j :: 0 <= j < k ==> Collides(sessions, draws[j])
    requires k < |draws| ==> !Collides(sessions, draws[k])
    ensures MintSessionId(sessions, draws)
         == if k < |draws| && draws[k].Some? then Some(Base64Url.Encode(draws[k].value)) else None
    ensures MintSessionId(sessions, draws).Some? ==> MintSessionId(sessions, draws).value !in sessions
  {
    hide Base64Url.Encode;
    if k > 0 {
      assert Collides(sessions, draws[0]);
      forall j | 0 <= j < k - 1 ensures Collides(sessions, draws[1..][j]) {
        assert draws[1..][j] == draws[j + 1];
      }
      MintSessionIdUsesFirstFreeDraw(sessions, draws[1..], k - 1);
    }
  }

  lemma {:induction false} MintSessionIdIsFresh(sessions: map<SessionId, SessionRecord>, draws: seq<Draw>)
    ensures MintSessionId(sessions, draws).Some? ==> MintSessionId(sessions, draws).value !in sessions
  {
    hide Base64Url.Encode;
    if draws != [] {
      MintSessionIdIsFresh(sessions, draws[1..]);
    }
  }

  // When authorize lets a caller with this binding use session id.
  predicate Authorizes(reg: Registry, id: SessionId, binding: Option<AuthBinding>, vaultOk: bool,
                       liveGeneration: set<SessionId>, unlocked: Check, sshGeneration: nat)
  {
    && binding.Some? && unlocked.Pass? && vaultOk
    && id in reg.sessions && id in liveGeneration
    && reg.sessions[id].principal == binding.value.principal
    && reg.sessions[id].epoch == binding.value.epoch
    && reg.sessions[id].sshGeneration == sshGeneration
  }

  // ensure_live_authority, the check before and after an insert.
  function LiveAuthority(current: Option<AuthBinding>, expected: AuthBinding, unlocked: Check, generation: nat,
                         captured: nat): Check
  {
    if current.None? then Fail(Unauthenticated)
    else if current.value != expected then Fail(BindingMismatch)
    else if unlocked.Fail? then unlocked
    else if generation != captured then Fail(SshCutoff)
    else Pass
  }

  // It passes exactly for the login that is current, with vault and cutoff unlocked and the
  // SSH generation unmoved, and otherwise fails with the first thing that is wrong.
  lemma LiveAuthorityMeans(current: Option<AuthBinding>, expected: AuthBinding, unlocked: Check, generation: nat, captured: nat)
    ensures var r := LiveAuthority(current, expected, unlocked, generation, captured);
            && (r.Pass? <==> current == Some(expected) && unlocked.Pass? && generation == captured)
            && (r == Fail(Unauthenticated) <== current.None?)
            && (current.Some? && current.value != expected ==> r == Fail(BindingMismatch))
            && (current == Some(expected) && unlocked.Fail? ==> r == unlocked)
            && (current == Some(expected) && unlocked.Pass? && generation != captured ==> r == Fail(SshCutoff))
  {
  }

  // The post-insert section passes exactly when neither barrier moved and the record under
  // the id carries what the ticket was issued for.
  lemma PostInsertMeans(reg: Registry, t: Ticket, id: SessionId)
    ensures var key := CredentialKey(t.principal.tenantId, t.principal.subject, t.credentialId);
            var epoch := if key in reg.credentialEpochs then reg.credentialEpochs[key] else 0;
            var current := reg.globalGeneration == t.registryGlobalGeneration && epoch == t.credentialInvalidationEpoch;
            && (PostInsertCheck(reg, t, id).Pass? <==>
                  && current && id in reg.sessions && reg.sessions[id].principal == t.principal
                  && reg.sessions[id].epoch == t.authEpoch && reg.sessions[id].serverId == t.serverId
                  && reg.sessions[id].credentialId == t.credentialId
                  && reg.sessions[id].sshGeneration == t.preparedSshGeneration)
            && (PostInsertCheck(reg, t, id) == Fail(SshCutoff) <==> !current)
            && (PostInsertCheck(reg, t, id).Fail? && current ==> PostInsertCheck(reg, t, id) == Fail(Internal))
  {
  }

  // What close_session takes: the caller's own session and nothing else.
  lemma OwnedByMeans(reg: Registry, id: SessionId, binding: AuthBinding, x: SessionId)
    ensures x in OwnedBy(reg, id, binding) <==>
              && x == id && x in reg.sessions
              && reg.sessions[x].principal == binding.principal && reg.sessions[x].epoch == binding.epoch
  {
  }

  // What a drain takes: what is not the current login's, under an unlocked vault, of the
  // current SSH generation and behind both barriers.
  lemma StaleMeans(reg: Registry, binding: Option<AuthBinding>, vaultOk: bool, liveGeneration: set<SessionId>, id: SessionId)
    requires id in reg.sessions
    ensures var rec := reg.sessions[id];
            var key := CredentialKey(rec.principal.tenantId, rec.principal.subject, rec.credentialId);
            id !in Stale(reg, binding, vaultOk, liveGeneration) <==>
              && binding == Some(AuthBinding(rec.principal, rec.epoch)) && vaultOk && id in liveGeneration
              && rec.registeredGlobalGeneration == reg.globalGeneration
              && rec.registeredCredentialEpoch == (if key in reg.credentialEpochs then reg.credentialEpochs[key] else 0)
  {
  }

  // LocalSshSessionManager, its mutex sections and the callbacks made after unlock.
  class LocalSshSessionManager {
    var sessions: map<SessionId, SessionRecord>
    var globalGeneration: nat
    var credentialEpochs: map<CredentialKey, nat>
    var closed: seq<Handle>  // on_close calls, in order; close_invocations is its length

    function View(): Registry
      reads this
    {
      Registry(sessions, globalGeneration, credentialEpochs)
    }

    ghost predicate Valid()
      reads this
    {
      View().Keyed() && forall id :: id in sessions ==> View().RecordCurrent(sessions[id])
    }

    constructor ()
      ensures Valid() && View() == EMPTY_REGISTRY && closed == []
    {
      sessions, globalGeneration, credentialEpochs, closed := map[], 0, map[], [];
    }

    method InvokeCloseHandle(close: Handle)
      modifies this`closed
      ensures closed == old(closed) + [close]
    {
      closed := closed + [close];
    }

    // The caller supplies what the unlocked reads returned.
    method BeginEstablishment(req: OpenRequest, idsValid: bool, binding: Option<AuthBinding>,
                              sshGeneration: nat, unlocked: Check)
      returns (r: Result<Ticket, LocalSshError>)
      ensures r.Ok? <==> idsValid && binding.Some? && unlocked.Pass?
      ensures r.Ok? ==> r.value == TicketFor(View(), binding.value, req, sshGeneration)
      ensures r.Ok? ==> View().TicketCurrent(r.value)
      ensures r.Ok? ==> forall a :: TicketMatchesAuthority(r.value, a) <==>
                a == Authority(binding.value.principal, binding.value.epoch, req.serverId, req.credentialId, sshGeneration)
    {
      if !idsValid {
        return Err(InvalidInput);
      }
      if binding.None? {
        return Err(Unauthenticated);
      }
      if unlocked.Fail? {
        return Err(unlocked.error);
      }
      var key := KeyOf(binding.value.principal, req.credentialId);
      var epoch := if key in credentialEpochs then credentialEpochs[key] else 0;
      return Ok(Ticket(binding.value.principal, binding.value.epoch, req.serverId, req.credentialId,
                       sshGeneration, globalGeneration, epoch));
    }

    method MintUniqueSessionId(draws: seq<Draw>) returns (id: Option<SessionId>)
      requires |draws| == MAX_SESSION_ID_ATTEMPTS
      ensures id == MintSessionId(sessions, draws)
    {
      hide Base64Url.Encode, Base64Url.Decode;
      for k := 0 to MAX_SESSION_ID_ATTEMPTS
        invariant MintSessionId(sessions, draws) == MintSessionId(sessions, draws[k..])
      {
        if draws[k].None? {
          return None;
        }
        var minted := Base64Url.Base64UrlNoPad(draws[k].value);
        if minted !in sessions {
          return Some(minted);
        }
      }
      return None;
    }

    method InsertSession(t: Ticket, a: Authority, close: Handle, draws: seq<Draw>)
      returns (r: Result<SessionId, LocalSshError>)
      requires Valid() && TicketMatchesAuthority(t, a)
      requires |draws| == MAX_SESSION_ID_ATTEMPTS
      modifies this`sessions
      ensures Valid()
      ensures r == InsertOutcome(old(View()), t, a, draws)
      ensures r.Err? ==> View() == old(View())
      ensures r.Ok? ==> r.value !in old(sessions) && View() == Inserted(old(View()), t, a, r.value, close)
      ensures r.Ok? ==> sessions == old(sessions)[r.value := SessionRecord(a.principal, a.epoch, a.serverId, a.credentialId,
                a.sshGeneration, t.registryGlobalGeneration, t.credentialInvalidationEpoch, r.value, close)]
      ensures var key := CredentialKey(a.principal.tenantId, a.principal.subject, a.credentialId);
              r == Err(SshCutoff) <==>
                || t.registryGlobalGeneration != globalGeneration
                || t.credentialInvalidationEpoch != if key in credentialEpochs then credentialEpochs[key] else 0
      ensures r == Err(Internal) <==> r != Err(SshCutoff) && MintSessionId(old(sessions), draws).None?
      ensures r.Err? ==> r.error in {SshCutoff, Internal}
    {
      hide Base64Url.Encode;
      if globalGeneration != t.registryGlobalGeneration {
        return Err(SshCutoff);
      }
      var key := KeyOf(a.principal, a.credentialId);
      var epoch := if key in credentialEpochs then credentialEpochs[key] else 0;
      if epoch != t.credentialInvalidationEpoch {
        return Err(SshCutoff);
      }
      var minted := MintUniqueSessionId(draws);
      MintSessionIdIsFresh(sessions, draws);
      if minted.None? {
        return Err(Internal);
      }
      sessions := sessions[minted.value := RecordFor(t, a, minted.value, close)];
      return Ok(minted.value);
    }

    method EnsurePostInsert(t: Ticket, id: SessionId, live: Check) returns (r: Check)
      ensures r == if live.Fail? then live else PostInsertCheck(View(), t, id)
    {
      if live.Fail? {
        return live;
      }
      if globalGeneration != t.registryGlobalGeneration {
        return Fail(SshCutoff);
      }
      var key := KeyOf(t.principal, t.credentialId);
      var epoch := if key in credentialEpochs then credentialEpochs[key] else 0;
      if epoch != t.credentialInvalidationEpoch {
        return Fail(SshCutoff);
      }
      return PostInsertCheck(View(), t, id);
    }

    // One call with no other thread in between; SessionRegistryRuns has the rest.
    method CompleteEstablished(t: Ticket, a: Authority, close: Handle, live: Check, draws: seq<Draw>, liveAfter: Check)
      returns (r: Result<SessionId, LocalSshError>)
      requires Valid()
      requires |draws| == MAX_SESSION_ID_ATTEMPTS
      modifies this`sessions, this`closed
      ensures Valid()
      ensures r.Ok? <==> && TicketMatchesAuthority(t, a) && live.Pass? && liveAfter.Pass?
                         && InsertOutcome(old(View()), t, a, draws).Ok?
      ensures r.Ok? ==> && r.value !in old(sessions) && closed == old(closed)
                        && View() == Inserted(old(View()), t, a, r.value, close)
      ensures r.Err? ==> View() == old(View()) && closed == old(closed) + [close]
      ensures r.Err? ==> r.error == if !TicketMatchesAuthority(t, a) then BindingMismatch
                                    else if live.Fail? then live.error
                                    else if InsertOutcome(old(View()), t, a, draws).Err? then
                                      InsertOutcome(old(View()), t, a, draws).error
                                    else liveAfter.error
    {
      hide Base64Url.Encode;
      if !TicketMatchesAuthority(t, a) {
        InvokeCloseHandle(close);
        return Err(BindingMismatch);
      }
      if live.Fail? {
        InvokeCloseHandle(close);
        return Err(live.error);
      }
      var inserted := InsertSession(t, a, close, draws);
      if inserted.Err? {
        InvokeCloseHandle(close);
        return inserted;
      }
      var after := EnsurePostInsert(t, inserted.value, liveAfter);
      if after.Fail? {
        var removed := RemoveRaw(inserted.value);
        if removed.Some? {
          InvokeCloseHandle(removed.value.close);
        }
        return Err(after.error);
      }
      return inserted;
    }

    method RemoveRaw(id: SessionId) returns (removed: Option<SessionRecord>)
      requires Valid()
      modifies this`sessions
      ensures Valid() && View() == old(View()).Without({id})
      ensures removed == if id in old(sessions) then Some(old(sessions)[id]) else None
    {
      removed := if id in sessions then Some(sessions[id]) else None;
      sessions := sessions - {id};
    }

    // HashMap iteration order is unspecified, hence the choice of the next id.
    method Remove(ids: set<SessionId>) returns (drained: seq<SessionRecord>)
      requires View().Keyed() && ids <= sessions.Keys
      modifies this`sessions
      ensures View() == old(View()).Without(ids)
      ensures IsDrainOf(drained, old(View()), ids)
    {
      drained := [];
      ghost var was := View();
      var left := ids;
      while left != {}
        invariant left <= ids && IsDrainOf(drained, was, ids - left)
        invariant View() == was.Without(ids - left)
      {
        var id :| id in left;
        drained := drained + [sessions[id]];
        sessions := sessions - {id};
        left := left - {id};
        assert was.sessions - (ids - left) == sessions;
        assert drained[|drained| - 1].sessionId == id;
        forall x | x in ids - left ensures exists i :: 0 <= i < |drained| && drained[i].sessionId == x {
          if x != id {
            var i :| 0 <= i < |drained| - 1 && drained[..|drained| - 1][i].sessionId == x;
            assert drained[i].sessionId == x;
          }
        }
      }
      assert ids - left == ids;
    }

    method CloseAll(drained: seq<SessionRecord>)
      modifies this`closed
      ensures closed == old(closed) + Handles(drained)
    {
      for i := 0 to |drained|
        invariant closed == old(closed) + Handles(drained)[..i]
      {
        InvokeCloseHandle(drained[i].close);
        assert Handles(drained)[..i + 1] == Handles(drained)[..i] + [drained[i].close];
      }
      assert Handles(drained)[..|drained|] == Handles(drained);
    }

    method CloseAllSessions() returns (drained: seq<SessionRecord>)
      requires Valid()
      modifies this
      ensures Valid() && View() == AllClosed(old(View()))
      ensures sessions == map[] && globalGeneration == old(globalGeneration) + 1 && unchanged(`credentialEpochs)
      ensures IsDrainOf(drained, old(View()), old(sessions).Keys)
      ensures closed == old(closed) + Handles(drained)
    {
      globalGeneration := globalGeneration + 1;
      drained := Remove(sessions.Keys);
      CloseAll(drained);
    }

    method CloseSessionsForCredential(principal: NativePrincipal, credentialId: string)
      returns (drained: seq<SessionRecord>)
      requires Valid()
      modifies this
      ensures Valid() && View() == CredentialClosed(old(View()), KeyOf(principal, credentialId))
      ensures var key := CredentialKey(principal.tenantId, principal.subject, credentialId);
              var before := if key in old(credentialEpochs) then old(credentialEpochs)[key] else 0;
              && credentialEpochs == old(credentialEpochs)[key := before + 1]
              && unchanged(`globalGeneration)
      ensures forall id :: id in sessions <==>
                && id in old(sessions)
                && !(&& old(sessions)[id].principal.tenantId == principal.tenantId
                     && old(sessions)[id].principal.subject == principal.subject
                     && old(sessions)[id].credentialId == credentialId)
      ensures IsDrainOf(drained, old(View()), WithKey(old(View()), KeyOf(principal, credentialId)))
      ensures closed == old(closed) + Handles(drained)
    {
      var key := KeyOf(principal, credentialId);
      credentialEpochs := credentialEpochs[key := (if key in credentialEpochs then credentialEpochs[key] else 0) + 1];
      var ids := set id | id in sessions
                   && sessions[id].principal.tenantId == principal.tenantId
                   && sessions[id].principal.subject == principal.subject
                   && sessions[id].credentialId == credentialId;
      assert ids == WithKey(old(View()), key);
      drained := Remove(ids);
      CloseAll(drained);
    }

    method CloseSession(id: SessionId, binding: Option<AuthBinding>) returns (drained: seq<SessionRecord>)
      requires Valid()
      modifies this`sessions, this`closed
      ensures Valid()
      ensures var ids := if binding.None? then {} else OwnedBy(old(View()), id, binding.value);
              View() == old(View()).Without(ids) && IsDrainOf(drained, old(View()), ids)
      ensures closed == old(closed) + Handles(drained)
    {
      drained := [];
      if binding.Some? && id in sessions
         && sessions[id].principal == binding.value.principal && sessions[id].epoch == binding.value.epoch {
        drained := Remove({id});
      } else {
        assert sessions - {} == sessions;
      }
      CloseAll(drained);
    }

    method DrainInvalidSessions(binding: Option<AuthBinding>, vaultOk: bool, liveGeneration: set<SessionId>)
      returns (drained: seq<SessionRecord>)
      requires Valid()
      modifies this`sessions, this`closed
      ensures Valid()
      ensures var ids := Stale(old(View()), binding, vaultOk, liveGeneration);
              View() == old(View()).Without(ids) && IsDrainOf(drained, old(View()), ids)
      ensures closed == old(closed) + Handles(drained)
    {
      var ids := Stale(View(), binding, vaultOk, liveGeneration);
      drained := Remove(ids);
      CloseAll(drained);
    }

    // authorize: Ok exactly for a live record of the caller's own principal and epoch.
    // Every call of a logged-in user removes and closes what has become stale.
    method Authorize(id: SessionId, binding: Option<AuthBinding>, vaultOk: bool, liveGeneration: set<SessionId>,
                     unlocked: Check, sshGeneration: nat)
      returns (r: Check, ghost drained: seq<SessionRecord>)
      requires Valid()
      modifies this`sessions, this`closed
      ensures Valid()
      ensures r.Pass? <==> Authorizes(old(View()), id, binding, vaultOk, liveGeneration, unlocked, sshGeneration)
      ensures r.Pass? ==> id in sessions && sessions[id] == old(sessions)[id] && View().RecordCurrent(sessions[id])
      ensures var ids := if binding.None? then {} else Stale(old(View()), binding, vaultOk, liveGeneration);
              View() == old(View()).Without(ids) && IsDrainOf(drained, old(View()), ids)
      ensures closed == old(closed) + Handles(drained)
    {
      drained := [];
      if binding.None? {
        assert sessions - {} == sessions;
        r := Fail(Unauthenticated);
        return;
      }
      drained := DrainInvalidSessions(binding, vaultOk, liveGeneration);
      if unlocked.Fail? {
        r := unlocked;
        return;
      }
      if && id in sessions
         && sessions[id].principal == binding.value.principal && sessions[id].epoch == binding.value.epoch
         && sessions[id].sshGeneration == sshGeneration && View().RecordCurrent(sessions[id]) {
        r := Pass;
        return;
      }
      r := Fail(Internal);
    }
  }
}
