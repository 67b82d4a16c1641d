// All interleavings of complete_established with close_all, per-credential close,
// close_session and lazy draining. One action is one mutex section, one unlocked
// check or one close callback; the checks of auth, vault and cutoff may come out
// either way at any time, so every behaviour of the rest of the process is covered.
module SessionRegistryRuns {
  import opened Wrappers
  import opened LocalSsh
  import opened SessionRegistry

  // Where one complete_established call stands. A call is named by its handle.
  datatype Phase =
    | Holding(t: Ticket, a: Authority)             // before the first live check; close_on_err is Some
    | Checked(t: Ticket, a: Authority)             // live check passed, insert_session next
    | Failing                                      // Err decided, own handle about to be closed
    | Registered(t: Ticket, id: SessionId)         // inserted, second live check next
    | Rechecked(t: Ticket, id: SessionId)          // live check passed, barrier section next
    | Removing(id: SessionId)                      // post-insert check failed, remove_raw next
    | ClosingRemoved(removed: Handle)              // remove_raw took a record, its callback next
    | ReturnedOk(id: SessionId)
    | ReturnedErr

  type DrainId = nat

  datatype State = State(
    reg: Registry,
    tickets: multiset<Ticket>,          // issued by begin_establishment, not yet used
    calls: map<Handle, Phase>,
    drains: map<DrainId, seq<Handle>>,  // removed by a closer, callback not yet made
    closed: seq<Handle>)                // callbacks made, in order

  const INIT := State(EMPTY_REGISTRY, multiset{}, map[], map[], [])

  datatype Action =
    | Begin(binding: AuthBinding, req: OpenRequest, sshGeneration: nat)
    | Complete(h: Handle, t: Ticket, a: Authority)     // takes the ticket by value
    | FirstCheck(h: Handle, live: bool)
    | Insert(h: Handle, draws: seq<Draw>)
    | SecondCheck(h: Handle, live: bool)
    | BarrierCheck(h: Handle)
    | RemoveRaw(h: Handle)
    | CloseOwn(h: Handle)
    | CloseRemoved(h: Handle)
    | CloseAllSessions(d: DrainId, drained: seq<SessionRecord>)
    | CloseCredential(d: DrainId, principal: NativePrincipal, credentialId: string, drained: seq<SessionRecord>)
    | CloseSession(d: DrainId, id: SessionId, owner: AuthBinding, drained: seq<SessionRecord>)
    | DrainInvalid(d: DrainId, current: Option<AuthBinding>, vaultOk: bool, liveGeneration: set<SessionId>,
                   drained: seq<SessionRecord>)
    | CloseNext(d: DrainId)

  function Put(s: State, h: Handle, p: Phase): State {
    s.(calls := s.calls[h := p])
  }

  function AfterInsert(s: State, h: Handle, t: Ticket, a: Authority, draws: seq<Draw>): State {
    match InsertOutcome(s.reg, t, a, draws)
    case Err(_) => Put(s, h, Failing)
    case Ok(id) => Put(s, h, Registered(t, id)).(reg := Inserted(s.reg, t, a, id, h))
  }

  ghost predicate DrainStep(s: State, d: DrainId, ids: set<SessionId>, drained: seq<SessionRecord>, after: Registry, s': State) {
    && d !in s.drains && IsDrainOf(drained, s.reg, ids) && ids <= s.reg.sessions.Keys
    && s' == s.(reg := after, drains := s.drains[d := Handles(drained)])
  }

  ghost predicate Step(s: State, act: Action, s': State) {
    match act
    case Begin(binding, req, gen) =>
      s' == s.(tickets := s.tickets + multiset{TicketFor(s.reg, binding, req, gen)})
    case Complete(h, t, a) =>
      h !in s.calls && t in s.tickets && s' == Put(s, h, Holding(t, a)).(tickets := s.tickets - multiset{t})
    case FirstCheck(h, live) =>
      h in s.calls && s.calls[h].Holding?
      && s' == Put(s, h, if TicketMatchesAuthority(s.calls[h].t, s.calls[h].a) && live
                         then Checked(s.calls[h].t, s.calls[h].a) else Failing)
    case Insert(h, draws) =>
      h in s.calls && s.calls[h].Checked? && |draws| == MAX_SESSION_ID_ATTEMPTS
      && s' == AfterInsert(s, h, s.calls[h].t, s.calls[h].a, draws)
    case SecondCheck(h, live) =>
      h in s.calls && s.calls[h].Registered?
      && s' == Put(s, h, if live then Rechecked(s.calls[h].t, s.calls[h].id) else Removing(s.calls[h].id))
    case BarrierCheck(h) =>
      h in s.calls && s.calls[h].Rechecked?
      && s' == Put(s, h, if PostInsertCheck(s.reg, s.calls[h].t, s.calls[h].id).Pass?
                         then ReturnedOk(s.calls[h].id) else Removing(s.calls[h].id))
    case RemoveRaw(h) =>
      h in s.calls && s.calls[h].Removing?
      && var id := s.calls[h].id;
         s' == Put(s, h, if id in s.reg.sessions then ClosingRemoved(s.reg.sessions[id].close) else ReturnedErr)
               .(reg := s.reg.Without({id}))
    case CloseOwn(h) =>
      h in s.calls && s.calls[h].Failing?
      && s' == Put(s, h, ReturnedErr).(closed := s.closed + [h])
    case CloseRemoved(h) =>
      h in s.calls && s.calls[h].ClosingRemoved?
      && s' == Put(s, h, ReturnedErr).(closed := s.closed + [s.calls[h].removed])
    case CloseAllSessions(d, drained) =>
      DrainStep(s, d, s.reg.sessions.Keys, drained, AllClosed(s.reg), s')
    case CloseCredential(d, principal, credentialId, drained) =>
      var key := KeyOf(principal, credentialId);
      DrainStep(s, d, WithKey(s.reg, key), drained, CredentialClosed(s.reg, key), s')
    case CloseSession(d, id, owner, drained) =>
      var ids := OwnedBy(s.reg, id, owner);
      DrainStep(s, d, ids, drained, s.reg.Without(ids), s')
    case DrainInvalid(d, current, vaultOk, liveGeneration, drained) =>
      var ids := Stale(s.reg, current, vaultOk, liveGeneration);
      DrainStep(s, d, ids, drained, s.reg.Without(ids), s')
    case CloseNext(d) =>
      d in s.drains && s.drains[d] != []
      && s' == s.(drains := s.drains[d := s.drains[d][1..]], closed := s.closed + [s.drains[d][0]])
  }

  ghost predicate IsRun(states: seq<State>, acts: seq<Action>) {
    && |states| == |acts| + 1 && states[0] == INIT
    && forall i :: 0 <= i < |acts| ==> Step(states[i], acts[i], states[i + 1])
  }

  // ---- where a handle is ----

  predicate Held(s: State, h: Handle) {
    h in s.calls && (s.calls[h].Holding? || s.calls[h].Checked? || s.calls[h].Failing?)
  }

  function RegisteredUnder(s: State, h: Handle): set<SessionId> {
    set id | id in s.reg.sessions && s.reg.sessions[id].close == h
  }

  function InHandsOf(s: State, h: Handle): set<(DrainId, nat)> {
    set d, i | d in s.drains && 0 <= i < |s.drains[d]| && s.drains[d][i] == h :: (d, i)
  }

  function RemovedBy(s: State, h: Handle): set<Handle> {
    set c | c in s.calls && s.calls[c] == ClosingRemoved(h)
  }

  // How often h occurs in the whole state: as a call's own guard, in the registry,
  // with someone about to close it, and among the callbacks already made.
  function Copies(s: State, h: Handle): nat {
    (if Held(s, h) then 1 else 0) + |RegisteredUnder(s, h)| + |InHandsOf(s, h)| + |RemovedBy(s, h)| + multiset(s.closed)[h]
  }

  // The proof follows each handle through a map of places.
  datatype Place = AtCall | AtRecord(id: SessionId) | AtDrain(d: DrainId) | AtRemover(c: Handle) | AtClosed

  type Places = map<Handle, Place>

  predicate Knows(p: Phase, id: SessionId) {
    (p.Registered? || p.Rechecked? || p.Removing? || p.ReturnedOk?) && p.id == id
  }

  ghost predicate CallsPlaced(s: State, at: Places) {
    && at.Keys == s.calls.Keys
    && (forall h :: h in at ==> (at[h] == AtCall <==> Held(s, h)))
    && (forall c :: c in s.calls && s.calls[c].ClosingRemoved? ==>
          s.calls[c].removed in at && at[s.calls[c].removed] == AtRemover(c))
    && (forall h :: h in at && at[h].AtRemover? ==> at[h].c in s.calls && s.calls[at[h].c] == ClosingRemoved(h))
  }

  ghost predicate RecordsPlaced(s: State, at: Places) {
    && s.reg.Keyed()
    && (forall id :: id in s.reg.sessions ==>
          s.reg.sessions[id].close in at && at[s.reg.sessions[id].close] == AtRecord(id))
    && (forall h :: h in at && at[h].AtRecord? ==>
          at[h].id in s.reg.sessions && s.reg.sessions[at[h].id].close == h && h in s.calls && Knows(s.calls[h], at[h].id))
  }

  ghost predicate DrainsPlaced(s: State, at: Places) {
    && (forall d, i :: d in s.drains && 0 <= i < |s.drains[d]| ==> s.drains[d][i] in at && at[s.drains[d][i]] == AtDrain(d))
    && (forall d, i, j :: d in s.drains && 0 <= i < j < |s.drains[d]| ==> s.drains[d][i] != s.drains[d][j])
    && (forall h :: h in at && at[h].AtDrain? ==> at[h].d in s.drains && h in s.drains[at[h].d])
  }

  ghost predicate ClosedPlaced(s: State, at: Places) {
    && (forall i :: 0 <= i < |s.closed| ==> s.closed[i] in at && at[s.closed[i]] == AtClosed)
    && (forall i, j :: 0 <= i < j < |s.closed| ==> s.closed[i] != s.closed[j])
    && (forall h :: h in at && at[h] == AtClosed ==> h in s.closed)
  }

  ghost predicate Placed(s: State, at: Places) {
    CallsPlaced(s, at) && RecordsPlaced(s, at) && DrainsPlaced(s, at) && ClosedPlaced(s, at)
  }

  // The places after an action.
  ghost function Moved(s: State, act: Action, s': State, at: Places): Places
    requires Step(s, act, s') && Placed(s, at)
  {
    match act
    case Complete(h, t, a) => at[h := AtCall]
    case Insert(h, draws) => if s'.calls[h].Registered? then at[h := AtRecord(s'.calls[h].id)] else at
    case RemoveRaw(h) => if s'.calls[h].ClosingRemoved? then at[s'.calls[h].removed := AtRemover(h)] else at
    case CloseOwn(h) => at[h := AtClosed]
    case CloseRemoved(h) => at[s.calls[h].removed := AtClosed]
    case CloseAllSessions(d, drained) => MovedToDrain(s, d, s.reg.sessions.Keys, at)
    case CloseCredential(d, principal, credentialId, drained) =>
      MovedToDrain(s, d, WithKey(s.reg, KeyOf(principal, credentialId)), at)
    case CloseSession(d, id, owner, drained) => MovedToDrain(s, d, OwnedBy(s.reg, id, owner), at)
    case DrainInvalid(d, current, vaultOk, liveGeneration, drained) =>
      MovedToDrain(s, d, Stale(s.reg, current, vaultOk, liveGeneration), at)
    case CloseNext(d) => at[s.drains[d][0] := AtClosed]
    case _ => at
  }

  ghost function MovedToDrain(s: State, d: DrainId, ids: set<SessionId>, at: Places): Places {
    map h | h in at :: if at[h].AtRecord? && at[h].id in ids then AtDrain(d) else at[h]
  }

  lemma DrainKeepsPlaces(s: State, d: DrainId, ids: set<SessionId>, drained: seq<SessionRecord>, after: Registry, s': State,
                         at: Places)
    requires Placed(s, at) && DrainStep(s, d, ids, drained, after, s')
    requires after.sessions == s.reg.sessions - ids
    ensures Placed(s', MovedToDrain(s, d, ids, at))
  {
    DrainKeepsCalls(s, d, ids, s', at);
    DrainKeepsRecords(s, d, ids, s', at);
    DrainedArePlaced(s, d, ids, drained, after, s', at);
    DrainKeepsClosed(s, d, ids, s', at);
  }

  lemma DrainKeepsCalls(s: State, d: DrainId, ids: set<SessionId>, s': State, at: Places)
    requires CallsPlaced(s, at) && s'.calls == s.calls
    ensures CallsPlaced(s', MovedToDrain(s, d, ids, at))
  {
  }

  lemma DrainKeepsRecords(s: State, d: DrainId, ids: set<SessionId>, s': State, at: Places)
    requires RecordsPlaced(s, at) && s'.calls == s.calls && s'.reg.sessions == s.reg.sessions - ids
    ensures RecordsPlaced(s', MovedToDrain(s, d, ids, at))
  {
  }

  lemma DrainKeepsClosed(s: State, d: DrainId, ids: set<SessionId>, s': State, at: Places)
    requires ClosedPlaced(s, at) && s'.closed == s.closed
    ensures ClosedPlaced(s', MovedToDrain(s, d, ids, at))
  {
  }

  lemma DrainedArePlaced(s: State, d: DrainId, ids: set<SessionId>, drained: seq<SessionRecord>, after: Registry, s': State,
                         at: Places)
    requires Placed(s, at) && DrainStep(s, d, ids, drained, after, s')
    ensures DrainsPlaced(s', MovedToDrain(s, d, ids, at))
  {
    hide CallsPlaced, ClosedPlaced;
    var at' := MovedToDrain(s, d, ids, at);
    forall i | 0 <= i < |drained| ensures drained[i].close in at' && at'[drained[i].close] == AtDrain(d) {
      assert at[drained[i].close] == AtRecord(drained[i].sessionId);
    }
    forall i, j | 0 <= i < j < |drained| ensures drained[i].close != drained[j].close {
      assert at[drained[i].close] == AtRecord(drained[i].sessionId);
      assert at[drained[j].close] == AtRecord(drained[j].sessionId);
    }
    forall h | h in at' && at'[h].AtDrain? ensures at'[h].d in s'.drains && h in s'.drains[at'[h].d] {
      if !at[h].AtDrain? {
        var i :| 0 <= i < |drained| && drained[i].sessionId == at[h].id;
        assert Handles(drained)[i] == h;
      }
    }
  }

  // The place of a handle that is not closed may become closed with its callback.
  lemma CallbackKeepsClosed(s: State, s': State, x: Handle, at: Places)
    requires ClosedPlaced(s, at) && x in at && at[x] != AtClosed && s'.closed == s.closed + [x]
    ensures ClosedPlaced(s', at[x := AtClosed])
  {
    assert s'.closed[|s.closed|] == x;
    forall h | h in s.closed ensures h in s'.closed {
    }
  }

  // The place of a handle that was not in the registry changes to another such place.
  lemma ReplaceKeepsRecords(s: State, s': State, at: Places, h: Handle, place: Place)
    requires RecordsPlaced(s, at) && s'.reg.sessions == s.reg.sessions
    requires h in at ==> !at[h].AtRecord?
    requires !place.AtRecord?
    requires forall c :: c in at && at[c].AtRecord? ==> c in s'.calls && Knows(s'.calls[c], at[c].id)
    ensures RecordsPlaced(s', at[h := place])
  {
  }

  lemma ReplaceKeepsDrains(s: State, s': State, at: Places, h: Handle, place: Place)
    requires DrainsPlaced(s, at) && s'.drains == s.drains
    requires h in at ==> !at[h].AtDrain?
    requires !place.AtDrain?
    ensures DrainsPlaced(s', at[h := place])
  {
  }

  lemma ReplaceKeepsClosed(s: State, s': State, at: Places, h: Handle, place: Place)
    requires ClosedPlaced(s, at) && s'.closed == s.closed
    requires h in at ==> at[h] != AtClosed
    requires place != AtClosed
    ensures ClosedPlaced(s', at[h := place])
  {
  }

  lemma CloseNextKeepsPlaces(s: State, d: DrainId, s': State, at: Places)
    requires Step(s, CloseNext(d), s') && Placed(s, at)
    ensures Placed(s', at[s.drains[d][0] := AtClosed])
  {
    hide ClosedPlaced;
    var x := s.drains[d][0];
    assert at[x] == AtDrain(d);
    ReplaceKeepsRecords(s, s', at, x, AtClosed);
    CallbackKeepsClosed(s, s', x, at);
    CloseNextKeepsDrains(s, d, s', at);
  }

  lemma CloseNextKeepsDrains(s: State, d: DrainId, s': State, at: Places)
    requires DrainsPlaced(s, at) && d in s.drains && s.drains[d] != []
    requires s'.drains == s.drains[d := s.drains[d][1..]]
    ensures DrainsPlaced(s', at[s.drains[d][0] := AtClosed])
  {
    var at' := at[s.drains[d][0] := AtClosed];
    forall x | x in at' && at'[x].AtDrain? ensures at'[x].d in s'.drains && x in s'.drains[at'[x].d] {
      if at[x].d == d {
        var i :| 0 <= i < |s.drains[d]| && s.drains[d][i] == x;
        assert s'.drains[d][i - 1] == x;
      }
    }
  }

  // A call changes phase without letting go of, or taking, any handle.
  lemma PhaseKeepsPlaces(s: State, h: Handle, p: Phase, at: Places)
    requires Placed(s, at) && h in s.calls
    requires !s.calls[h].ClosingRemoved? && !p.ClosingRemoved?
    requires Held(s, h) <==> (p.Holding? || p.Checked? || p.Failing?)
    requires at[h].AtRecord? ==> Knows(p, at[h].id)
    ensures Placed(Put(s, h, p), at)
  {
  }

  lemma CompleteKeepsPlaces(s: State, h: Handle, t: Ticket, a: Authority, at: Places)
    requires Placed(s, at) && h !in s.calls
    ensures Placed(Put(s, h, Holding(t, a)), at[h := AtCall])
  {
    hide RecordsPlaced, DrainsPlaced, ClosedPlaced;
    var s' := Put(s, h, Holding(t, a));
    KnownRecords(s, s', at);
    ReplaceKeepsRecords(s, s', at, h, AtCall);
    ReplaceKeepsDrains(s, s', at, h, AtCall);
    ReplaceKeepsClosed(s, s', at, h, AtCall);
  }

  lemma KnownRecords(s: State, s': State, at: Places)
    requires RecordsPlaced(s, at)
    requires forall c :: c in s.calls && c in at && at[c].AtRecord? ==> c in s'.calls && s'.calls[c] == s.calls[c]
    ensures forall c :: c in at && at[c].AtRecord? ==> c in s'.calls && Knows(s'.calls[c], at[c].id)
  {
  }

  lemma InsertKeepsPlaces(s: State, h: Handle, draws: seq<Draw>, s': State, at: Places)
    requires Step(s, Insert(h, draws), s') && Placed(s, at)
    ensures Placed(s', Moved(s, Insert(h, draws), s', at))
  {
    hide MintSessionId;
    var t, a := s.calls[h].t, s.calls[h].a;
    match InsertOutcome(s.reg, t, a, draws)
    case Err(_) => PhaseKeepsPlaces(s, h, Failing, at);
    case Ok(id) =>
      MintSessionIdIsFresh(s.reg.sessions, draws);
      RegisterKeepsPlaces(s, h, t, a, id, at);
  }

  lemma RegisterKeepsPlaces(s: State, h: Handle, t: Ticket, a: Authority, id: SessionId, at: Places)
    requires Placed(s, at) && h in s.calls && s.calls[h].Checked? && id !in s.reg.sessions
    ensures Placed(Put(s, h, Registered(t, id)).(reg := Inserted(s.reg, t, a, id, h)), at[h := AtRecord(id)])
  {
    hide DrainsPlaced, ClosedPlaced;
    var s' := Put(s, h, Registered(t, id)).(reg := Inserted(s.reg, t, a, id, h));
    var at' := at[h := AtRecord(id)];
    assert Held(s, h) && at[h] == AtCall;
    assert CallsPlaced(s', at') by {
      hide RecordsPlaced;
    }
    RegisterKeepsRecords(s, h, t, a, id, at);
    ReplaceKeepsDrains(s, s', at, h, AtRecord(id));
    ReplaceKeepsClosed(s, s', at, h, AtRecord(id));
  }

  lemma RegisterKeepsRecords(s: State, h: Handle, t: Ticket, a: Authority, id: SessionId, at: Places)
    requires RecordsPlaced(s, at) && h in at && at[h] == AtCall && id !in s.reg.sessions
    ensures RecordsPlaced(Put(s, h, Registered(t, id)).(reg := Inserted(s.reg, t, a, id, h)), at[h := AtRecord(id)])
  {
  }

  lemma RemoveKeepsPlaces(s: State, h: Handle, at: Places)
    requires Placed(s, at) && h in s.calls && s.calls[h].Removing? && s.calls[h].id in s.reg.sessions
    ensures var removed := s.reg.sessions[s.calls[h].id].close;
            && removed in at
            && Placed(Put(s, h, ClosingRemoved(removed)).(reg := s.reg.Without({s.calls[h].id})), at[removed := AtRemover(h)])
  {
    hide DrainsPlaced, ClosedPlaced;
    var id := s.calls[h].id;
    var removed := s.reg.sessions[id].close;
    var s', at' := Put(s, h, ClosingRemoved(removed)).(reg := s.reg.Without({id})), at[removed := AtRemover(h)];
    assert at[removed] == AtRecord(id);
    assert at[h].AtRecord? ==> h == removed;
    assert CallsPlaced(s', at') by {
      hide RecordsPlaced;
    }
    RemoveKeepsRecords(s, h, id, at);
    ReplaceKeepsDrains(s, s', at, removed, AtRemover(h));
    ReplaceKeepsClosed(s, s', at, removed, AtRemover(h));
  }

  lemma RemoveKeepsRecords(s: State, h: Handle, id: SessionId, at: Places)
    requires RecordsPlaced(s, at) && id in s.reg.sessions
    requires var removed := s.reg.sessions[id].close; h in at && (at[h].AtRecord? ==> h == removed)
    ensures var removed := s.reg.sessions[id].close;
            RecordsPlaced(Put(s, h, ClosingRemoved(removed)).(reg := s.reg.Without({id})), at[removed := AtRemover(h)])
  {
  }

  // remove_raw finds nothing: a drainer already has the call's own record.
  lemma RemoveNothingKeepsPlaces(s: State, h: Handle, at: Places)
    requires Placed(s, at) && h in s.calls && s.calls[h].Removing? && s.calls[h].id !in s.reg.sessions
    ensures Placed(Put(s, h, ReturnedErr).(reg := s.reg.Without({s.calls[h].id})), at)
  {
    hide DrainsPlaced, ClosedPlaced;
    assert s.reg.Without({s.calls[h].id}) == s.reg;
    PhaseKeepsPlaces(s, h, ReturnedErr, at);
  }

  // A callback is made by a call that holds the handle, its own or one it removed.
  lemma CallbackKeepsPlaces(s: State, h: Handle, x: Handle, at: Places)
    requires Placed(s, at) && h in s.calls
    requires (s.calls[h].Failing? && x == h) || s.calls[h] == ClosingRemoved(x)
    ensures x in at && Placed(Put(s, h, ReturnedErr).(closed := s.closed + [x]), at[x := AtClosed])
  {
    hide DrainsPlaced, ClosedPlaced;
    assert x in at && (at[x] == AtCall || at[x] == AtRemover(h));
    var s', at' := Put(s, h, ReturnedErr).(closed := s.closed + [x]), at[x := AtClosed];
    assert !at[h].AtRecord?;
    assert CallsPlaced(s', at') by {
      hide RecordsPlaced;
    }
    KnownRecords(s, s', at);
    ReplaceKeepsRecords(s, s', at, x, AtClosed);
    ReplaceKeepsDrains(s, s', at, x, AtClosed);
    CallbackKeepsClosed(s, s', x, at);
  }

  lemma TicketsHaveNoPlace(s: State, s': State, at: Places)
    requires Placed(s, at) && s' == s.(tickets := s'.tickets)
    ensures Placed(s', at)
  {
    hide Knows;
  }

  predicate IsCheck(act: Action) {
    act.FirstCheck? || act.SecondCheck? || act.BarrierCheck?
  }

  lemma CheckKeepsPlaces(s: State, act: Action, s': State, at: Places)
    requires Step(s, act, s') && Placed(s, at) && IsCheck(act)
    ensures Placed(s', at)
  {
    hide MintSessionId, PostInsertCheck, TicketMatchesAuthority, DrainsPlaced, ClosedPlaced;
    PhaseKeepsPlaces(s, act.h, s'.calls[act.h], at);
  }

  lemma RemovalKeepsPlaces(s: State, act: Action, s': State, at: Places)
    requires Step(s, act, s') && Placed(s, at) && (act.RemoveRaw? || act.CloseOwn? || act.CloseRemoved?)
    ensures Placed(s', Moved(s, act, s', at))
  {
    hide Placed, CallsPlaced, RecordsPlaced, DrainsPlaced, ClosedPlaced;
    match act
    case RemoveRaw(h) =>
      if s.calls[h].id in s.reg.sessions {
        RemoveKeepsPlaces(s, h, at);
      } else {
        RemoveNothingKeepsPlaces(s, h, at);
      }
    case CloseOwn(h) => CallbackKeepsPlaces(s, h, h, at);
    case CloseRemoved(h) => CallbackKeepsPlaces(s, h, s.calls[h].removed, at);
  }

  predicate IsDrain(act: Action) {
    act.CloseAllSessions? || act.CloseCredential? || act.CloseSession? || act.DrainInvalid?
  }

  lemma DrainActionKeepsPlaces(s: State, act: Action, s': State, at: Places)
    requires Step(s, act, s') && Placed(s, at) && IsDrain(act)
    ensures Placed(s', Moved(s, act, s', at))
  {
    hide Placed, CallsPlaced, RecordsPlaced, DrainsPlaced, ClosedPlaced, Stale, OwnedBy, WithKey, MovedToDrain;
    match act
    case CloseAllSessions(d, drained) =>
      DrainKeepsPlaces(s, d, s.reg.sessions.Keys, drained, AllClosed(s.reg), s', at);
    case CloseCredential(d, principal, credentialId, drained) =>
      var key := KeyOf(principal, credentialId);
      DrainKeepsPlaces(s, d, WithKey(s.reg, key), drained, CredentialClosed(s.reg, key), s', at);
    case CloseSession(d, id, owner, drained) =>
      var ids := OwnedBy(s.reg, id, owner);
      DrainKeepsPlaces(s, d, ids, drained, s.reg.Without(ids), s', at);
    case DrainInvalid(d, current, vaultOk, liveGeneration, drained) =>
      var ids := Stale(s.reg, current, vaultOk, liveGeneration);
      DrainKeepsPlaces(s, d, ids, drained, s.reg.Without(ids), s', at);
  }

  lemma StepKeepsPlaces(s: State, act: Action, s': State, at: Places)
    requires Step(s, act, s') && Placed(s, at)
    ensures Placed(s', Moved(s, act, s', at))
  {
    hide Placed, Step;
    if IsCheck(act) {
      CheckKeepsPlaces(s, act, s', at);
    } else if IsDrain(act) {
      DrainActionKeepsPlaces(s, act, s', at);
    } else if act.Begin? || act.Complete? {
      TicketActionKeepsPlaces(s, act, s', at);
    } else {
      match act
      case Insert(h, draws) => InsertKeepsPlaces(s, h, draws, s', at);
      case CloseNext(d) => CloseNextKeepsPlaces(s, d, s', at);
      case _ => RemovalKeepsPlaces(s, act, s', at);
    }
  }

  lemma TicketActionKeepsPlaces(s: State, act: Action, s': State, at: Places)
    requires Step(s, act, s') && Placed(s, at) && (act.Begin? || act.Complete?)
    ensures Placed(s', Moved(s, act, s', at))
  {
    hide Placed, CallsPlaced, RecordsPlaced, DrainsPlaced, ClosedPlaced, TicketFor;
    match act
    case Begin(_, _, _) => TicketsHaveNoPlace(s, s', at);
    case Complete(h, t, a) =>
      CompleteKeepsPlaces(s, h, t, a, at);
      TicketsHaveNoPlace(Put(s, h, Holding(t, a)), s', at[h := AtCall]);
  }

  // ---- conservation ----

  lemma {:induction false} RunIsPlaced(states: seq<State>, acts: seq<Action>, n: nat) returns (at: Places)
    requires IsRun(states, acts) && n <= |acts|
    ensures Placed(states[n], at)
  {
    if n == 0 {
      at := map[];
    } else {
      var before := RunIsPlaced(states, acts, n - 1);
      assert Step(states[n - 1], acts[n - 1], states[n]);
      StepKeepsPlaces(states[n - 1], acts[n - 1], states[n], before);
      at := Moved(states[n - 1], acts[n - 1], states[n], before);
    }
  }

  lemma SetIsSingleton<T>(xs: set<T>, x: T)
    requires x in xs && forall y :: y in xs ==> y == x
    ensures |xs| == 1
  {
    assert xs == {x};
  }

  lemma CountOf(xs: seq<Handle>, h: Handle)
    requires forall i, j :: 0 <= i < j < |xs| ==> xs[i] != xs[j]
    ensures multiset(xs)[h] == if h in xs then 1 else 0
  {
    if xs != [] {
      var init, last := xs[..|xs| - 1], xs[|xs| - 1];
      CountOf(init, h);
      assert xs == init + [last];
    }
  }

  lemma RegisteredCount(s: State, at: Places, h: Handle)
    requires RecordsPlaced(s, at)
    ensures |RegisteredUnder(s, h)| == if h in at && at[h].AtRecord? then 1 else 0
  {
    var ids := RegisteredUnder(s, h);
    if h in at && at[h].AtRecord? {
      SetIsSingleton(ids, at[h].id);
    } else {
      assert ids == {};
    }
  }

  lemma InHandsCount(s: State, at: Places, h: Handle)
    requires DrainsPlaced(s, at)
    ensures |InHandsOf(s, h)| == if h in at && at[h].AtDrain? then 1 else 0
  {
    var spots := InHandsOf(s, h);
    if h in at && at[h].AtDrain? {
      var d := at[h].d;
      var i :| 0 <= i < |s.drains[d]| && s.drains[d][i] == h;
      assert (d, i) in spots;
      forall spot | spot in spots ensures spot == (d, i) {
        assert at[s.drains[spot.0][spot.1]] == AtDrain(spot.0);
      }
      SetIsSingleton(spots, (d, i));
    } else {
      assert forall d, i :: d in s.drains && 0 <= i < |s.drains[d]| ==> s.drains[d][i] != h;
      assert spots == {};
    }
  }

  lemma RemovedCount(s: State, at: Places, h: Handle)
    requires CallsPlaced(s, at)
    ensures |RemovedBy(s, h)| == if h in at && at[h].AtRemover? then 1 else 0
  {
    var calls := RemovedBy(s, h);
    if h in at && at[h].AtRemover? {
      SetIsSingleton(calls, at[h].c);
    } else {
      assert calls == {};
    }
  }

  // In every state of every run each handle given to complete_established is in
  // exactly one place, exactly once, and no other handle occurs anywhere.
  lemma HandleConservation(states: seq<State>, acts: seq<Action>, n: nat, h: Handle)
    requires IsRun(states, acts) && n <= |acts|
    ensures Copies(states[n], h) == if h in states[n].calls then 1 else 0
  {
    var s := states[n];
    var at := RunIsPlaced(states, acts, n);
    RegisteredCount(s, at, h);
    InHandsCount(s, at, h);
    RemovedCount(s, at, h);
    CountOf(s.closed, h);
  }

  // A call that returned Err has let go of its handle: it has been closed, or one
  // closer holds it. It is in no record and will not be closed by anyone else.
  lemma ErrLeavesHandleClosed(states: seq<State>, acts: seq<Action>, n: nat, h: Handle)
    requires IsRun(states, acts) && n <= |acts|
    requires h in states[n].calls && states[n].calls[h] == ReturnedErr
    ensures RegisteredUnder(states[n], h) == {}
    ensures |InHandsOf(states[n], h)| + |RemovedBy(states[n], h)| + multiset(states[n].closed)[h] == 1
  {
    var at := RunIsPlaced(states, acts, n);
    RegisteredCount(states[n], at, h);
    HandleConservation(states, acts, n, h);
  }

  ghost predicate Quiet(s: State) {
    && (forall h :: h in s.calls ==> s.calls[h].ReturnedOk? || s.calls[h].ReturnedErr?)
    && (forall d :: d in s.drains ==> s.drains[d] == [])
  }

  // Once every call has returned and every closer is done, each handle either
  // belongs to one live record and was never closed, or was closed exactly once.
  lemma QuietAccounts(states: seq<State>, acts: seq<Action>, n: nat, h: Handle)
    requires IsRun(states, acts) && n <= |acts|
    requires Quiet(states[n]) && h in states[n].calls
    ensures |RegisteredUnder(states[n], h)| + multiset(states[n].closed)[h] == 1
    ensures states[n].calls[h].ReturnedErr? ==> multiset(states[n].closed)[h] == 1
  {
    HandleConservation(states, acts, n, h);
    assert InHandsOf(states[n], h) == {} && RemovedBy(states[n], h) == {};
    if states[n].calls[h].ReturnedErr? {
      ErrLeavesHandleClosed(states, acts, n, h);
    }
  }

  // ---- barriers ----

  ghost predicate RecordsCurrent(reg: Registry) {
    forall id :: id in reg.sessions ==> reg.RecordCurrent(reg.sessions[id])
  }

  ghost predicate CallsMatch(s: State) {
    forall h :: h in s.calls && s.calls[h].Checked? ==> TicketMatchesAuthority(s.calls[h].t, s.calls[h].a)
  }

  lemma StepKeepsRecordsCurrent(s: State, act: Action, s': State)
    requires Step(s, act, s') && RecordsCurrent(s.reg) && CallsMatch(s)
    ensures RecordsCurrent(s'.reg) && CallsMatch(s')
  {
    hide MintSessionId, PostInsertCheck, IsDrainOf, Stale, OwnedBy;
  }

  // Every record always carries the current global generation and its own key's
  // current credential epoch.
  lemma {:induction false} RecordsStayCurrent(states: seq<State>, acts: seq<Action>, n: nat)
    requires IsRun(states, acts) && n <= |acts|
    ensures RecordsCurrent(states[n].reg) && CallsMatch(states[n])
  {
    if n > 0 {
      RecordsStayCurrent(states, acts, n - 1);
      assert Step(states[n - 1], acts[n - 1], states[n]);
      StepKeepsRecordsCurrent(states[n - 1], acts[n - 1], states[n]);
    }
  }

  lemma StepRaisesBarriers(s: State, act: Action, s': State, key: CredentialKey)
    requires Step(s, act, s')
    ensures s'.reg.globalGeneration == s.reg.globalGeneration + (if act.CloseAllSessions? then 1 else 0)
    ensures s'.reg.CredentialEpoch(key) == s.reg.CredentialEpoch(key)
              + (if act.CloseCredential? && KeyOf(act.principal, act.credentialId) == key then 1 else 0)
  {
    hide MintSessionId, PostInsertCheck, IsDrainOf, Stale, OwnedBy, WithKey;
  }

  lemma {:induction false} BarriersGrow(states: seq<State>, acts: seq<Action>, i: nat, j: nat, key: CredentialKey)
    requires IsRun(states, acts) && i <= j <= |acts|
    ensures states[i].reg.globalGeneration <= states[j].reg.globalGeneration
    ensures states[i].reg.CredentialEpoch(key) <= states[j].reg.CredentialEpoch(key)
  {
    if i < j {
      BarriersGrow(states, acts, i, j - 1, key);
      assert Step(states[j - 1], acts[j - 1], states[j]);
      StepRaisesBarriers(states[j - 1], acts[j - 1], states[j], key);
    }
  }

  predicate Invalidates(act: Action, t: Ticket) {
    || act.CloseAllSessions?
    || (act.CloseCredential? && KeyOf(act.principal, act.credentialId) == KeyOf(t.principal, t.credentialId))
  }

  predicate InsertsFor(s: State, act: Action, t: Ticket) {
    act.Insert? && act.h in s.calls && s.calls[act.h].Checked? && s.calls[act.h].t == t
  }

  // A ticket begun before a close_all, or before a close of its credential, is
  // stale in every later state; no session is ever registered from it again and
  // none that was registered from it is left.
  lemma StaleTicketIsNoSession(states: seq<State>, acts: seq<Action>, i: nat, j: nat, k: nat, t: Ticket)
    requires IsRun(states, acts) && i < j < k <= |acts|
    requires acts[i].Begin? && t == TicketFor(states[i].reg, acts[i].binding, acts[i].req, acts[i].sshGeneration)
    requires Invalidates(acts[j], t)
    ensures !states[k].reg.TicketCurrent(t)
    ensures forall id, a, h :: id in states[k].reg.sessions && TicketMatchesAuthority(t, a) ==>
              states[k].reg.sessions[id] != RecordFor(t, a, id, h)
    ensures k < |acts| && InsertsFor(states[k], acts[k], t) ==>
              states[k + 1] == Put(states[k], acts[k].h, Failing)
  {
    var key := KeyOf(t.principal, t.credentialId);
    BarriersGrow(states, acts, i, j, key);
    assert Step(states[j], acts[j], states[j + 1]);
    StepRaisesBarriers(states[j], acts[j], states[j + 1], key);
    BarriersGrow(states, acts, j + 1, k, key);
    RecordsStayCurrent(states, acts, k);
    if k < |acts| && InsertsFor(states[k], acts[k], t) {
      assert Step(states[k], acts[k], states[k + 1]);
    }
  }

  // A close for one (tenant, subject, credential) removes exactly the records with
  // that key and makes exactly the tickets with that key stale, whatever the
  // username: every other record and ticket is as before.
  lemma CredentialCloseIsIsolated(s: State, d: DrainId, principal: NativePrincipal, credentialId: string,
                                  drained: seq<SessionRecord>, s': State)
    requires Step(s, CloseCredential(d, principal, credentialId, drained), s')
    requires s.reg.Keyed()
    ensures forall id :: id in s'.reg.sessions <==>
              id in s.reg.sessions && s.reg.sessions[id].Key() != KeyOf(principal, credentialId)
    ensures forall id :: id in s'.reg.sessions ==> s'.reg.sessions[id] == s.reg.sessions[id]
    ensures forall t: Ticket :: s.reg.TicketCurrent(t) ==>
              (s'.reg.TicketCurrent(t) <==> KeyOf(t.principal, t.credentialId) != KeyOf(principal, credentialId))
    ensures forall h :: h in s'.drains[d] <==>
              exists id :: id in s.reg.sessions && s.reg.sessions[id].Key() == KeyOf(principal, credentialId)
                           && s.reg.sessions[id].close == h
  {
    var key := KeyOf(principal, credentialId);
    assert s'.drains[d] == Handles(drained);
    forall h ensures h in s'.drains[d] <==>
        exists id :: id in s.reg.sessions && s.reg.sessions[id].Key() == key && s.reg.sessions[id].close == h {
      if h in s'.drains[d] {
        var i :| 0 <= i < |drained| && s'.drains[d][i] == h;
        assert drained[i].sessionId in WithKey(s.reg, key);
      }
      if id :| id in s.reg.sessions && s.reg.sessions[id].Key() == key && s.reg.sessions[id].close == h {
        assert id in WithKey(s.reg, key);
        var i :| 0 <= i < |drained| && drained[i].sessionId == id;
        assert s'.drains[d][i] == h;
      }
    }
  }

  // ---- session ids ----

  ghost predicate Registers(states: seq<State>, acts: seq<Action>, p: nat, h: Handle, id: SessionId)
    requires |states| == |acts| + 1
  {
    p < |acts| && acts[p].Insert? && acts[p].h == h && h in states[p + 1].calls
    && states[p + 1].calls[h].Registered? && states[p + 1].calls[h].id == id
  }

  // Only an insert step makes a call know an id or puts a record under one.
  lemma StepRegisters(s: State, act: Action, s': State, h: Handle, id: SessionId)
    requires Step(s, act, s')
    ensures h in s'.calls && Knows(s'.calls[h], id) && !(h in s.calls && Knows(s.calls[h], id)) ==>
              act.Insert? && act.h == h && s'.calls[h].Registered?
    ensures id in s'.reg.sessions && !(id in s.reg.sessions && s'.reg.sessions[id] == s.reg.sessions[id]) ==>
              && act.Insert? && act.h in s'.calls && s'.calls[act.h].Registered? && s'.calls[act.h].id == id
              && s'.reg.sessions[id].close == act.h
  {
    hide MintSessionId, PostInsertCheck, IsDrainOf, Stale, OwnedBy, WithKey;
  }

  lemma {:induction false} WhoRegistered(states: seq<State>, acts: seq<Action>, n: nat, h: Handle, id: SessionId)
    requires IsRun(states, acts) && n <= |acts|
    requires || (h in states[n].calls && Knows(states[n].calls[h], id))
             || (id in states[n].reg.sessions && states[n].reg.sessions[id].close == h)
    ensures exists p: nat :: p < n && Registers(states, acts, p, h, id)
  {
    hide Step;
    var before, act, after := states[n - 1], acts[n - 1], states[n];
    assert Step(before, act, after);
    StepRegisters(before, act, after, h, id);
    if || (h in before.calls && Knows(before.calls[h], id))
       || (id in before.reg.sessions && before.reg.sessions[id].close == h) {
      WhoRegistered(states, acts, n - 1, h, id);
    } else {
      assert Registers(states, acts, n - 1, h, id);
    }
  }

  predicate PastInsert(s: State, h: Handle) {
    h in s.calls && !s.calls[h].Holding? && !s.calls[h].Checked?
  }

  lemma PastInsertStays(s: State, act: Action, s': State, h: Handle)
    requires Step(s, act, s') && PastInsert(s, h)
    ensures PastInsert(s', h) && !(act.Insert? && act.h == h)
  {
    hide MintSessionId, PostInsertCheck, IsDrainOf, Stale, OwnedBy, WithKey, TicketMatchesAuthority;
  }

  lemma {:induction false} StaysPastInsert(states: seq<State>, acts: seq<Action>, m: nat, n: nat, h: Handle)
    requires IsRun(states, acts) && m <= n < |acts| && PastInsert(states[m], h)
    ensures PastInsert(states[n], h) && !(acts[n].Insert? && acts[n].h == h)
  {
    hide Step, PastInsert;
    if m < n {
      StaysPastInsert(states, acts, m, n - 1, h);
      assert Step(states[n - 1], acts[n - 1], states[n]);
      PastInsertStays(states[n - 1], acts[n - 1], states[n], h);
    }
    assert Step(states[n], acts[n], states[n + 1]);
    PastInsertStays(states[n], acts[n], states[n + 1], h);
  }

  // A call registers at most once.
  lemma RegistersOnce(states: seq<State>, acts: seq<Action>, p: nat, q: nat, h: Handle, id: SessionId, id': SessionId)
    requires IsRun(states, acts) && Registers(states, acts, p, h, id) && Registers(states, acts, q, h, id')
    ensures p == q
  {
    hide Step;
    if p < q {
      StaysPastInsert(states, acts, p + 1, q, h);
    } else if q < p {
      StaysPastInsert(states, acts, q + 1, p, h);
    }
  }

  // p is the last step before n at which a call registered under id.
  ghost predicate LastRegistration(states: seq<State>, acts: seq<Action>, p: nat, n: nat, g: Handle, id: SessionId)
    requires |states| == |acts| + 1
  {
    p < n && Registers(states, acts, p, g, id) && forall q: nat, f :: p < q < n ==> !Registers(states, acts, q, f, id)
  }

  lemma InsertOwnsId(s: State, act: Action, s': State, id: SessionId)
    requires Step(s, act, s') && act.Insert? && act.h in s'.calls && s'.calls[act.h].Registered? && s'.calls[act.h].id == id
    ensures id in s'.reg.sessions && s'.reg.sessions[id].close == act.h
  {
    hide MintSessionId, TicketMatchesAuthority;
  }

  // A record belongs to the call that registered its id last.
  lemma {:induction false} RecordIsLastRegistrars(states: seq<State>, acts: seq<Action>, n: nat, id: SessionId) returns (p: nat)
    requires IsRun(states, acts) && n <= |acts| && id in states[n].reg.sessions
    ensures LastRegistration(states, acts, p, n, states[n].reg.sessions[id].close, id)
  {
    hide Step;
    var before, act, after := states[n - 1], acts[n - 1], states[n];
    var g := after.reg.sessions[id].close;
    assert Step(before, act, after);
    StepRegisters(before, act, after, g, id);
    if act.Insert? && Registers(states, acts, n - 1, act.h, id) {
      InsertOwnsId(before, act, after, id);
      p := n - 1;
    } else {
      p := RecordIsLastRegistrars(states, acts, n - 1, id);
    }
  }

  // After h registered under id, another call did too, before step n.
  ghost predicate RegisteredAgain(states: seq<State>, acts: seq<Action>, h: Handle, id: SessionId, n: nat)
    requires |states| == |acts| + 1
  {
    exists p: nat, q: nat, g :: p < q < n && Registers(states, acts, p, h, id) && Registers(states, acts, q, g, id)
  }

  // The live record under the id that a call knows, the id its Ok returns or its failed
  // post-insert check removes, is the call's own exactly when no call registered under
  // that id again after it: an id is compared with live sessions only, so that can
  // happen when the random source repeats itself after the first session has gone.
  lemma KnownIdNamesOwnRecord(states: seq<State>, acts: seq<Action>, n: nat, h: Handle, id: SessionId)
    requires IsRun(states, acts) && n <= |acts|
    requires h in states[n].calls && Knows(states[n].calls[h], id) && id in states[n].reg.sessions
    ensures states[n].reg.sessions[id].close == h <==> !RegisteredAgain(states, acts, h, id, n)
  {
    hide Step, Registers;
    WhoRegistered(states, acts, n, h, id);
    var p: nat :| p < n && Registers(states, acts, p, h, id);
    var owner := states[n].reg.sessions[id].close;
    var last := RecordIsLastRegistrars(states, acts, n, id);
    if owner == h {
      if RegisteredAgain(states, acts, h, id, n) {
        var p': nat, q: nat, g :| p' < q < n && Registers(states, acts, p', h, id) && Registers(states, acts, q, g, id);
        RegistersOnce(states, acts, p', last, h, id, id);
      }
    } else {
      RegistrarIsOne(states, acts, last, owner, h, id);
      assert p < last;
    }
  }

  lemma RegistrarIsOne(states: seq<State>, acts: seq<Action>, p: nat, g: Handle, h: Handle, id: SessionId)
    requires |states| == |acts| + 1 && Registers(states, acts, p, g, id) && g != h
    ensures !Registers(states, acts, p, h, id)
  {
  }

  lemma InsertMinted(s: State, h: Handle, t: Ticket, a: Authority, draws: seq<Draw>)
    requires h in s.calls && s.calls[h] == Checked(t, a) && |draws| == MAX_SESSION_ID_ATTEMPTS
    requires TicketMatchesAuthority(t, a) && s.reg.TicketCurrent(t) && MintSessionId(s.reg.sessions, draws).Some?
    ensures var id := MintSessionId(s.reg.sessions, draws).value;
            Step(s, Insert(h, draws), Put(s, h, Registered(t, id)).(reg := Inserted(s.reg, t, a, id, h)))
  {
    hide MintSessionId;
  }

  lemma CloseOnlySession(s: State, rec: SessionRecord, owner: AuthBinding)
    requires s.reg == EMPTY_REGISTRY.(sessions := map[rec.sessionId := rec]) && s.drains == map[]
    requires rec.principal == owner.principal && rec.epoch == owner.epoch
    ensures Step(s, CloseSession(0, rec.sessionId, owner, [rec]),
                 s.(reg := EMPTY_REGISTRY, drains := map[0 := [rec.close]]))
  {
    assert OwnedBy(s.reg, rec.sessionId, owner) == {rec.sessionId};
    assert [rec][0] == rec;
    assert IsDrainOf([rec], s.reg, {rec.sessionId});
    assert Handles([rec]) == [rec.close];
    assert s.reg.Without({rec.sessionId}) == EMPTY_REGISTRY;
  }

  lemma ExtendRun(states: seq<State>, acts: seq<Action>, act: Action, s': State)
    returns (longer: seq<State>, more: seq<Action>)
    requires IsRun(states, acts) && Step(states[|acts|], act, s')
    ensures IsRun(longer, more) && |longer| == |more| + 1 && longer[|more|] == s' && more == acts + [act]
  {
    hide Step;
    longer, more := states + [s'], acts + [act];
    forall i | 0 <= i < |more| ensures Step(longer[i], more[i], longer[i + 1]) {
      if i < |acts| {
        assert Step(states[i], acts[i], states[i + 1]);
      }
    }
  }

  // A call goes from its ticket to its record.
  lemma RegisterCall(states: seq<State>, acts: seq<Action>, h: Handle, t: Ticket, a: Authority, draws: seq<Draw>)
    returns (longer: seq<State>, more: seq<Action>)
    requires IsRun(states, acts) && |draws| == MAX_SESSION_ID_ATTEMPTS && TicketMatchesAuthority(t, a)
    requires t in states[|acts|].tickets && h !in states[|acts|].calls && states[|acts|].reg.TicketCurrent(t)
    requires MintSessionId(states[|acts|].reg.sessions, draws).Some?
    ensures IsRun(longer, more) && |longer| == |more| + 1
    ensures more == acts + [Complete(h, t, a), FirstCheck(h, true), Insert(h, draws)]
    ensures var s, id := states[|acts|], MintSessionId(states[|acts|].reg.sessions, draws).value;
            longer[|more|] == Put(s, h, Registered(t, id)).(tickets := s.tickets - multiset{t}, reg := Inserted(s.reg, t, a, id, h))
  {
    hide MintSessionId, Inserted, TicketMatchesAuthority;
    var s, id := states[|acts|], MintSessionId(states[|acts|].reg.sessions, draws).value;
    var s1 := Put(s, h, Holding(t, a)).(tickets := s.tickets - multiset{t});
    var s2 := Put(s1, h, Checked(t, a));
    InsertMinted(s2, h, t, a, draws);
    assert Step(s, Complete(h, t, a), s1) && Step(s1, FirstCheck(h, true), s2);
    hide Step, IsRun;
    longer, more := ExtendRun(states, acts, Complete(h, t, a), s1);
    longer, more := ExtendRun(longer, more, FirstCheck(h, true), s2);
    var s3 := Put(s2, h, Registered(t, id)).(reg := Inserted(s.reg, t, a, id, h));
    longer, more := ExtendRun(longer, more, Insert(h, draws), s3);
    assert s3.calls == s.calls[h := Registered(t, id)];
  }

  // It can happen: two tickets are begun, the first session is closed by its owner, the
  // random source repeats itself for the second call, and the first call's post-insert
  // check then finds the second record.
  lemma RepeatedIdNamesForeignRecord(b: Buffer32, who: AuthBinding, req: OpenRequest)
    returns (states: seq<State>, acts: seq<Action>, id: SessionId)
    ensures IsRun(states, acts)
    ensures var last := states[|acts|];
            && 0 in last.calls && last.calls[0] == ReturnedOk(id)
            && id in last.reg.sessions && last.reg.sessions[id].close == 1
            && 0 in last.drains && last.drains[0] == [0]
  {
    hide Base64Url.Encode, MintSessionId, IsDrainOf, OwnedBy, Stale, WithKey;
    id := Base64Url.Encode(b);
    var t := TicketFor(EMPTY_REGISTRY, who, req, 0);
    var a := Authority(who.principal, who.epoch, req.serverId, req.credentialId, 0);
    var rec := RecordFor(t, a, id, 0);
    states, acts := TwoBegins(who, req, t);
    var draws: seq<Draw> := seq(MAX_SESSION_ID_ATTEMPTS, _ => Some(b));
    MintsFirst(b);
    states, acts := RegisterCall(states, acts, 0, t, a, draws);
    var s := states[|acts|];
    assert multiset{t, t} - multiset{t} == multiset{t};
    CloseOnlySession(s, rec, who);
    var s' := s.(reg := EMPTY_REGISTRY, drains := map[0 := [0]]);
    states, acts := ExtendRun(states, acts, CloseSession(0, id, who, [rec]), s');
    states, acts := RegisterCall(states, acts, 1, t, a, draws);
    states, acts := FinishCall(states, acts, 0, t, id);
  }

  lemma TwoBegins(who: AuthBinding, req: OpenRequest, t: Ticket) returns (states: seq<State>, acts: seq<Action>)
    requires t == TicketFor(EMPTY_REGISTRY, who, req, 0)
    ensures IsRun(states, acts) && |states| == |acts| + 1 && states[|acts|] == INIT.(tickets := multiset{t, t})
  {
    states := [INIT, INIT.(tickets := multiset{t}), INIT.(tickets := multiset{t, t})];
    acts := [Begin(who, req, 0), Begin(who, req, 0)];
    assert multiset{t} + multiset{t} == multiset{t, t};
  }

  lemma MintsFirst(b: Buffer32)
    ensures MintSessionId(EMPTY_REGISTRY.sessions, seq(MAX_SESSION_ID_ATTEMPTS, _ => Some(b))) == Some(Base64Url.Encode(b))
  {
    hide Base64Url.Encode;
  }

  // The second check and the barrier section of a call whose id names a current record.
  lemma FinishCall(states: seq<State>, acts: seq<Action>, h: Handle, t: Ticket, id: SessionId)
    returns (longer: seq<State>, more: seq<Action>)
    requires IsRun(states, acts) && h in states[|acts|].calls && states[|acts|].calls[h] == Registered(t, id)
    requires PostInsertCheck(states[|acts|].reg, t, id).Pass?
    ensures IsRun(longer, more) && |longer| == |more| + 1 && more == acts + [SecondCheck(h, true), BarrierCheck(h)]
    ensures longer[|more|] == Put(states[|acts|], h, ReturnedOk(id))
  {
    hide PostInsertCheck;
    var s := states[|acts|];
    var s1 := Put(s, h, Rechecked(t, id));
    var s2 := Put(s, h, ReturnedOk(id));
    assert s2.calls == s1.calls[h := ReturnedOk(id)];
    assert Step(s, SecondCheck(h, true), s1) && Step(s1, BarrierCheck(h), s2);
    hide Step, IsRun;
    longer, more := ExtendRun(states, acts, SecondCheck(h, true), s1);
    longer, more := ExtendRun(longer, more, BarrierCheck(h), s2);
  }

  // ---- what a session is for ----

  // Some begin before step n captured this login, server, credential and SSH generation.
  ghost predicate BegunBefore(acts: seq<Action>, n: nat, who: AuthBinding, req: OpenRequest, sshGeneration: nat)
    requires n <= |acts|
  {
    exists k :: 0 <= k < n && acts[k] == Begin(who, req, sshGeneration)
  }

  ghost predicate TicketBegun(acts: seq<Action>, n: nat, t: Ticket)
    requires n <= |acts|
  {
    BegunBefore(acts, n, AuthBinding(t.principal, t.authEpoch), OpenRequest(t.serverId, t.credentialId), t.preparedSshGeneration)
  }

  ghost predicate RecordBegun(acts: seq<Action>, n: nat, rec: SessionRecord)
    requires n <= |acts|
  {
    BegunBefore(acts, n, AuthBinding(rec.principal, rec.epoch), OpenRequest(rec.serverId, rec.credentialId), rec.sshGeneration)
  }

  // What the first check has established of a call that goes on to insert.
  predicate Matched(p: Phase) {
    p.Checked? ==> TicketMatchesAuthority(p.t, p.a)
  }

  ghost predicate AllBegun(acts: seq<Action>, n: nat, s: State)
    requires n <= |acts|
  {
    && (forall t :: t in s.tickets ==> TicketBegun(acts, n, t))
    && (forall h :: h in s.calls && (s.calls[h].Holding? || s.calls[h].Checked?) ==> TicketBegun(acts, n, s.calls[h].t))
    && (forall h :: h in s.calls ==> Matched(s.calls[h]))
    && (forall id :: id in s.reg.sessions ==> RecordBegun(acts, n, s.reg.sessions[id]))
  }

  lemma BegunStays(acts: seq<Action>, n: nat, s: State)
    requires n < |acts| && AllBegun(acts, n, s)
    ensures AllBegun(acts, n + 1, s)
  {
  }

  lemma BeginIsBegun(s: State, acts: seq<Action>, n: nat, s': State)
    requires n < |acts| && acts[n].Begin? && Step(s, acts[n], s') && AllBegun(acts, n + 1, s)
    ensures AllBegun(acts, n + 1, s')
  {
    var t := TicketFor(s.reg, acts[n].binding, acts[n].req, acts[n].sshGeneration);
    assert AuthBinding(t.principal, t.authEpoch) == acts[n].binding && OpenRequest(t.serverId, t.credentialId) == acts[n].req;
    assert TicketBegun(acts, n + 1, t);
    hide BegunBefore;
  }

  lemma InsertedIsBegun(s: State, acts: seq<Action>, n: nat, h: Handle, t: Ticket, a: Authority, draws: seq<Draw>)
    requires n <= |acts| && AllBegun(acts, n, s) && h in s.calls && s.calls[h] == Checked(t, a)
    ensures AllBegun(acts, n, AfterInsert(s, h, t, a, draws))
  {
    hide BegunBefore, InsertOutcome;
    assert Matched(s.calls[h]);
  }

  lemma OtherStepIsBegun(s: State, acts: seq<Action>, n: nat, act: Action, s': State)
    requires n <= |acts| && !act.Begin? && !act.Insert? && Step(s, act, s') && AllBegun(acts, n, s)
    ensures AllBegun(acts, n, s')
  {
    hide TicketBegun, RecordBegun, IsDrainOf, TicketMatchesAuthority, PostInsertCheck, OwnedBy, Stale, WithKey;
  }

  lemma {:induction false} RunIsBegun(states: seq<State>, acts: seq<Action>, n: nat)
    requires IsRun(states, acts) && n <= |acts|
    ensures AllBegun(acts, n, states[n])
  {
    if n > 0 {
      var s, act := states[n - 1], acts[n - 1];
      assert Step(s, act, states[n]);
      RunIsBegun(states, acts, n - 1);
      BegunStays(acts, n - 1, s);
      hide AllBegun;
      if act.Begin? {
        BeginIsBegun(s, acts, n - 1, states[n]);
      } else if act.Insert? {
        InsertedIsBegun(s, acts, n, act.h, s.calls[act.h].t, s.calls[act.h].a, act.draws);
      } else {
        hide Step;
        OtherStepIsBegun(s, acts, n, act, states[n]);
      }
    }
  }

  // In every interleaving a live session belongs to a login, server, credential and SSH
  // generation for which an establishment was begun: nothing that arrives with the
  // connection can put another one into its record.
  lemma SessionsComeFromBegins(states: seq<State>, acts: seq<Action>, n: nat, id: SessionId)
    requires IsRun(states, acts) && n <= |acts| && id in states[n].reg.sessions
    ensures var rec := states[n].reg.sessions[id];
            exists k :: 0 <= k < n
                        && acts[k] == Begin(AuthBinding(rec.principal, rec.epoch), OpenRequest(rec.serverId, rec.credentialId),
                                            rec.sshGeneration)
  {
    RunIsBegun(states, acts, n);
    assert RecordBegun(acts, n, states[n].reg.sessions[id]);
  }

  // The ordinary open: from any reachable state a begin and a complete with the login,
  // server, credential and SSH generation it was begun for, which nothing disturbs, return
  // Ok, and the new session carries just these, the current barriers and the handle.
  lemma UndisturbedOpenSucceeds(states: seq<State>, acts: seq<Action>, h: Handle, who: AuthBinding, req: OpenRequest,
                                sshGeneration: nat, draws: seq<Draw>)
    returns (longer: seq<State>, more: seq<Action>)
    requires IsRun(states, acts) && h !in states[|acts|].calls
    requires |draws| == MAX_SESSION_ID_ATTEMPTS && MintSessionId(states[|acts|].reg.sessions, draws).Some?
    ensures IsRun(longer, more) && |more| == |acts| + 6 && acts <= more && more[|acts|] == Begin(who, req, sshGeneration)
    ensures more[|acts| + 1].Complete? && more[|acts| + 1].h == h
            && more[|acts| + 1].a == Authority(who.principal, who.epoch, req.serverId, req.credentialId, sshGeneration)
    ensures var s, s', id := states[|acts|], longer[|more|], MintSessionId(states[|acts|].reg.sessions, draws).value;
            && s'.calls == s.calls[h := ReturnedOk(id)] && s'.tickets == s.tickets && s'.closed == s.closed
            && s'.reg == s.reg.(sessions := s.reg.sessions[id :=
                 SessionRecord(who.principal, who.epoch, req.serverId, req.credentialId, sshGeneration,
                               s.reg.globalGeneration, s.reg.CredentialEpoch(KeyOf(who.principal, req.credentialId)), id, h)])
  {
    var s := states[|acts|];
    var t := TicketFor(s.reg, who, req, sshGeneration);
    var a := Authority(who.principal, who.epoch, req.serverId, req.credentialId, sshGeneration);
    var s1 := s.(tickets := s.tickets + multiset{t});
    assert Step(s, Begin(who, req, sshGeneration), s1);
    assert s.tickets + multiset{t} - multiset{t} == s.tickets;
    hide Step, IsRun, MintSessionId;
    var run, first := ExtendRun(states, acts, Begin(who, req, sshGeneration), s1);
    longer, more := RegisterCall(run, first, h, t, a, draws);
    longer, more := FinishCall(longer, more, h, t, MintSessionId(s.reg.sessions, draws).value);
  }

  // ---- refused calls ----

  predicate Refused(p: Phase) {
    p.Failing? || p.Removing? || p.ClosingRemoved? || p.ReturnedErr?
  }

  lemma RefusedStays(s: State, act: Action, s': State, h: Handle)
    requires Step(s, act, s') && h in s.calls && Refused(s.calls[h])
    ensures h in s'.calls && Refused(s'.calls[h])
  {
  }

  // A live check that fails, before or after the insert, or an authority other than the
  // ticket's means Err, whatever happens later.
  lemma {:induction false} FailedCheckMeansErr(states: seq<State>, acts: seq<Action>, k: nat, n: nat, h: Handle)
    requires IsRun(states, acts) && k < n <= |acts|
    requires || acts[k] == FirstCheck(h, false) || acts[k] == SecondCheck(h, false)
             || (acts[k] == FirstCheck(h, true) && h in states[k].calls && states[k].calls[h].Holding?
                 && !TicketMatchesAuthority(states[k].calls[h].t, states[k].calls[h].a))
    ensures h in states[n].calls && Refused(states[n].calls[h])
  {
    assert Step(states[n - 1], acts[n - 1], states[n]);
    if k < n - 1 {
      hide Step, IsRun;
      FailedCheckMeansErr(states, acts, k, n - 1, h);
      RefusedStays(states[n - 1], acts[n - 1], states[n], h);
    }
  }
}
