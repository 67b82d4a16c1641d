// What a 401 or a logout means for SSH sessions: the registry's checks read the auth
// store, so the end of an epoch there is the end of every session registered under it.
module AuthorityRuns {
  import opened Wrappers
  import opened LocalSsh
  import opened SessionRegistry
  import Inv = InvalidationRuns

  // By step i the login of epoch e has ended: a 401 for e has returned, deduplicated or
  // not, or a logout or a clear of the store came at or after e.
  ghost predicate EndedBy(states: seq<Inv.State>, acts: seq<Inv.Action>, i: nat, e: nat)
    requires |states| == |acts| + 1 && i <= |acts|
  {
    || (exists t :: t in states[i].runs && states[i].runs[t].epoch == e && states[i].runs[t].stage.Returned?)
    || (exists k :: 0 <= k < i && (acts[k].LogoutAuth? || acts[k].ClearAuth?) && e <= states[k].mem.sessionEpoch)
  }

  lemma ClearEndsEpoch(s: Inv.State, act: Inv.Action, s': Inv.State, e: nat)
    requires Inv.Step(s, act, s') && (act.LogoutAuth? || act.ClearAuth?) && e <= s.mem.sessionEpoch
    ensures Inv.Dead(s', e)
  {
  }

  // Once it has ended, no login that the store shows is that one or an earlier one.
  lemma EndedLoginIsNotVisible(states: seq<Inv.State>, acts: seq<Inv.Action>, i: nat, j: nat, e: nat)
    requires Inv.IsRun(states, acts) && i <= j <= |acts| && EndedBy(states, acts, i, e)
    ensures Inv.Visible(states[j]).Some? ==> Inv.Visible(states[j]).value.epoch > e
  {
    hide Inv.Step;
    if t :| t in states[i].runs && states[i].runs[t].epoch == e && states[i].runs[t].stage.Returned? {
      Inv.ReturnedEpochNeverLivesAgain(states, acts, i, j, t);
    } else {
      var k :| 0 <= k < i && (acts[k].LogoutAuth? || acts[k].ClearAuth?) && e <= states[k].mem.sessionEpoch;
      assert Inv.Step(states[k], acts[k], states[k + 1]);
      ClearEndsEpoch(states[k], acts[k], states[k + 1], e);
      Inv.DeadForever(states, acts, k + 1, j, e);
    }
  }

  // After the end of a login, in every interleaving and whatever the registry holds:
  // authorize passes for no session registered under its epoch or an earlier one, any
  // authorize of a later login removes all of those, and neither live check of
  // complete_established passes for a ticket of such an epoch.
  lemma EndedLoginHasNoSessions(states: seq<Inv.State>, acts: seq<Inv.Action>, i: nat, j: nat, e: nat,
                                reg: Registry, id: SessionId, vaultOk: bool, liveGeneration: set<SessionId>,
                                unlocked: Check, generation: nat, ticket: AuthBinding, captured: nat)
    requires Inv.IsRun(states, acts) && i <= j <= |acts| && EndedBy(states, acts, i, e)
    ensures var login := Inv.Visible(states[j]);
            && (Authorizes(reg, id, login, vaultOk, liveGeneration, unlocked, generation) ==> reg.sessions[id].epoch > e)
            && (id in reg.sessions && reg.sessions[id].epoch <= e ==> id in Stale(reg, login, vaultOk, liveGeneration))
            && (LiveAuthority(login, ticket, unlocked, generation, captured).Pass? ==> ticket.epoch > e)
  {
    hide Inv.Visible, Inv.IsRun, EndedBy;
    EndedLoginIsNotVisible(states, acts, i, j, e);
  }

  // The same for the object: a call of authorize made after the end of a login lets
  // nobody use a session of that login, and leaves none behind when there is a new one.
  method AuthorizeAfterEnd(manager: LocalSshSessionManager, ghost states: seq<Inv.State>, ghost acts: seq<Inv.Action>,
                           ghost i: nat, ghost j: nat, ghost e: nat, id: SessionId, login: Option<AuthBinding>, vaultOk: bool,
                           liveGeneration: set<SessionId>, unlocked: Check, generation: nat)
    returns (r: Check)
    requires manager.Valid()
    requires Inv.IsRun(states, acts) && i <= j <= |acts| && EndedBy(states, acts, i, e) && login == Inv.Visible(states[j])
    modifies manager`sessions, manager`closed
    ensures manager.Valid()
    ensures r.Pass? ==> id in manager.sessions && manager.sessions[id].epoch > e
    ensures login.Some? ==> forall x :: x in manager.sessions ==> manager.sessions[x].epoch > e
  {
    ghost var reg := manager.View();
    forall x | x in reg.sessions && reg.sessions[x].epoch <= e
      ensures x in Stale(reg, login, vaultOk, liveGeneration)
    {
      EndedLoginHasNoSessions(states, acts, i, j, e, reg, x, vaultOk, liveGeneration, unlocked, generation,
                              AuthBinding(reg.sessions[x].principal, 0), 0);
    }
    EndedLoginIsNotVisible(states, acts, i, j, e);
    hide Inv.IsRun, EndedBy, Inv.Visible, Stale;
    ghost var drained;
    r, drained := manager.Authorize(id, login, vaultOk, liveGeneration, unlocked, generation);
  }
}
