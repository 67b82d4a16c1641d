// src-tauri/src/local_ssh/connect.rs: the host-key policy of one connection. The
// answers of the user, the cloud, the known-hosts store and the revalidator are
// parameters of each check.
module HostKey {
  import opened Wrappers
  import opened LocalSsh
  import opened Text
  import opened Chars

  datatype Key = Key(keyType: string, fingerprint: string)

  function Trimmed(k: Key): Key {
    Key(Trim(k.keyType), Trim(k.fingerprint))
  }

  predicate Complete(k: Key) {
    k.keyType != "" && k.fingerprint != ""
  }

  // HostKeyPolicySnapshot
  datatype Policy = Policy(serverId: string, targetHost: string, hostKey: Option<Key>, principal: NativePrincipal)

  // What the four revalidations, the prompt, the cloud write and the known-hosts
  // write answer during one check. Points that a check does not reach are not asked.
  datatype Answers = Answers(atStart: Check, afterConfirm: Check, beforeRecord: Check, afterRecord: Check,
                             confirm: Result<bool, LocalSshError>, cloud: Check, record: Check)

  datatype Effect =
    | Revalidated(r: Check)
    | Prompted(host: string, key: Key)
    | CloudWrite(serverId: string, key: Key, bearer: string, r: Check)
    | KnownHostsWrite(ns: Namespace, key: Key, r: Check)

  // ---- the known-hosts namespace ----

  // The text that is hashed into the namespace, and the server id appended to it.
  datatype Namespace = Namespace(preimage: string, serverId: string)

  predicate ValidNsComponent(s: string) {
    s != "" && s == Trim(s) && forall i :: 0 <= i < |s| ==> !IsControl(s[i])
  }

  predicate IsIdChar(c: char) {
    'a' <= c <= 'z' || 'A' <= c <= 'Z' || '0' <= c <= '9' || c == '.' || c == '_' || c == '-'
  }

  // validate_id of src-tauri/src/vault/mod.rs
  predicate ValidId(id: string) {
    && 0 < |id| <= 128 && id[0] != '.' && id[|id| - 1] != '.'
    && (forall i :: 0 <= i < |id| ==> IsIdChar(id[i]))
    && (forall i :: 0 <= i < |id| - 1 ==> !(id[i] == '.' && id[i + 1] == '.'))
  }

  const UNIT_SEPARATOR := "\U{001F}"

  function NamespaceFor(p: NativePrincipal, serverId: string): Result<Namespace, LocalSshError> {
    if ValidNsComponent(p.tenantId) && ValidNsComponent(p.subject) && ValidId(serverId)
    then Ok(Namespace(p.tenantId + UNIT_SEPARATOR + p.subject, serverId))
    else Err(InvalidInput)
  }

  // Two owners never share the hashed text: the separator cannot occur in a component.
  lemma NamespaceSeparatesOwners(p: NativePrincipal, q: NativePrincipal, serverId: string, serverId': string)
    requires NamespaceFor(p, serverId).Ok? && NamespaceFor(q, serverId').Ok?
    ensures NamespaceFor(p, serverId) == NamespaceFor(q, serverId')
         <==> p.tenantId == q.tenantId && p.subject == q.subject && serverId == serverId'
  {
    hide Trim;
    var s, t := p.tenantId + UNIT_SEPARATOR + p.subject, q.tenantId + UNIT_SEPARATOR + q.subject;
    if s == t {
      SeparatorAt(p.tenantId, p.subject);
      SeparatorAt(q.tenantId, q.subject);
      var m, n := |p.tenantId|, |q.tenantId|;
      assert IsControl(s[m]) && IsControl(t[n]);
      assert m == n;
      assert p.tenantId == s[..m] && q.tenantId == t[..n];
      assert p.subject == s[m + 1..] && q.subject == t[n + 1..];
    }
  }

  lemma SeparatorAt(left: string, right: string)
    requires forall i :: 0 <= i < |left| ==> !IsControl(left[i])
    requires forall i :: 0 <= i < |right| ==> !IsControl(right[i])
    ensures var s := left + UNIT_SEPARATOR + right;
            forall i :: 0 <= i < |s| ==> (IsControl(s[i]) <==> i == |left|)
  {
  }

  predicate PlainIdChar(c: char) {
    c in LOWER_LETTERS || c in UPPER_LETTERS || c in DIGITS || c in "._-"
  }

  predicate TwoDots(id: string, i: nat) {
    i + 1 < |id| && id[i..i + 2] == ".."
  }

  // The namespace of a principal and a server: given exactly for components that are not
  // empty, have no whitespace at their ends and no control character, and an id of up to
  // 128 plain characters without a dot at its ends or two in a row.
  lemma NamespaceIs(p: NativePrincipal, serverId: string)
    ensures NamespaceFor(p, serverId).Ok? <==>
              && (forall s :: s in {p.tenantId, p.subject} ==>
                    && s != "" && !IsWhitespace(s[0]) && !IsWhitespace(s[|s| - 1])
                    && forall c :: c in s ==> !(c <= '\U{001F}' || '\U{007F}' <= c <= '\U{009F}'))
              && 1 <= |serverId| <= 128 && (forall c :: c in serverId ==> PlainIdChar(c))
              && serverId[0] != '.' && serverId[|serverId| - 1] != '.'
              && (forall i :: 0 <= i < |serverId| ==> !TwoDots(serverId, i))
    ensures NamespaceFor(p, serverId).Ok? ==>
              NamespaceFor(p, serverId).value == Namespace(p.tenantId + "\U{001F}" + p.subject, serverId)
    ensures NamespaceFor(p, serverId).Err? ==> NamespaceFor(p, serverId).error == InvalidInput
  {
    ComponentMeans(p.tenantId);
    ComponentMeans(p.subject);
    IdMeans(serverId);
    hide ValidNsComponent, ValidId, PlainIdChar, TwoDots, IsWhitespace;
  }

  lemma ComponentMeans(s: string)
    ensures ValidNsComponent(s) <==>
              && s != "" && !IsWhitespace(s[0]) && !IsWhitespace(s[|s| - 1])
              && forall c :: c in s ==> !(c <= '\U{001F}' || '\U{007F}' <= c <= '\U{009F}')
  {
    TrimIsUnique(s, s);
    hide Trim, IsWhitespace;
    if s != "" && !IsWhitespace(s[0]) && !IsWhitespace(s[|s| - 1]) {
      assert s[0..|s|] == s;
      assert TrimsAt(s, s, 0);
    }
    assert (forall i :: 0 <= i < |s| ==> !IsControl(s[i])) <==> forall c :: c in s ==> !IsControl(c);
  }

  lemma IdCharMeans(c: char)
    ensures IsIdChar(c) <==> PlainIdChar(c)
  {
    LetterSets(c);
    hide UPPER_LETTERS, LOWER_LETTERS, DIGITS;
  }

  lemma IdCharsMean(id: string)
    ensures (forall i :: 0 <= i < |id| ==> IsIdChar(id[i])) <==> (forall c :: c in id ==> PlainIdChar(c))
  {
    hide *;
    forall i | 0 <= i < |id| ensures IsIdChar(id[i]) <==> PlainIdChar(id[i]) {
      IdCharMeans(id[i]);
    }
    assert forall c :: c in id ==> exists i :: 0 <= i < |id| && id[i] == c;
  }

  lemma IdDotsMean(id: string)
    ensures (forall i :: 0 <= i < |id| - 1 ==> !(id[i] == '.' && id[i + 1] == '.'))
            <==> (forall i :: 0 <= i < |id| ==> !TwoDots(id, i))
  {
    if i :| 0 <= i < |id| - 1 && id[i] == '.' && id[i + 1] == '.' {
      assert id[i..i + 2] == "..";
      assert TwoDots(id, i);
    }
    if i :| 0 <= i < |id| && TwoDots(id, i) {
      assert id[i] == id[i..i + 2][0] && id[i + 1] == id[i..i + 2][1];
    }
  }

  lemma IdMeans(id: string)
    ensures ValidId(id) <==>
              && 1 <= |id| <= 128 && (forall c :: c in id ==> PlainIdChar(c))
              && id[0] != '.' && id[|id| - 1] != '.' && (forall i :: 0 <= i < |id| ==> !TwoDots(id, i))
  {
    hide PlainIdChar, IsIdChar, TwoDots;
    IdCharsMean(id);
    IdDotsMean(id);
  }

  // ---- one check ----

  datatype Outcome = Outcome(policy: Policy, result: Check, effects: seq<Effect>)

  function Failed(policy: Policy, effects: seq<Effect>, error: LocalSshError): Outcome {
    Outcome(policy, Fail(error), effects)
  }

  // Known-hosts write between two revalidations, then pin.
  function RecordAndPin(policy: Policy, key: Key, a: Answers, before: seq<Effect>): Outcome {
    var effects := before + [Revalidated(a.beforeRecord)];
    if a.beforeRecord.Fail? then Failed(policy, effects, a.beforeRecord.error)
    else
      match NamespaceFor(policy.principal, policy.serverId)
      case Err(e) => Failed(policy, effects, e)
      case Ok(ns) =>
        var recorded := effects + [KnownHostsWrite(ns, key, a.record)];
        if a.record.Fail? then Failed(policy, recorded, a.record.error)
        else
          var done := recorded + [Revalidated(a.afterRecord)];
          if a.afterRecord.Fail? then Failed(policy, done, a.afterRecord.error)
          else Outcome(policy.(hostKey := if policy.hostKey.None? then Some(key) else policy.hostKey), Pass, done)
  }

  // Trust on first use, for a policy without a pinned key.
  function TrustOnFirstUse(policy: Policy, key: Key, a: Answers, bearer: string, before: seq<Effect>): Outcome {
    var prompted := before + [Prompted(policy.targetHost, key)];
    if a.confirm.Err? then Failed(policy, prompted, a.confirm.error)
    else if !a.confirm.value then Failed(policy, prompted, HostKeyRejectedByUser)
    else
      var confirmed := prompted + [Revalidated(a.afterConfirm)];
      if a.afterConfirm.Fail? then Failed(policy, confirmed, a.afterConfirm.error)
      else
        var written := confirmed + [CloudWrite(policy.serverId, key, bearer, a.cloud)];
        if a.cloud.Fail? then Failed(policy, written, a.cloud.error)
        else RecordAndPin(policy, key, a, written)
  }

  function Verify(policy: Policy, presented: Key, a: Answers, bearer: Option<string>): Outcome {
    var effects := [Revalidated(a.atStart)];
    if a.atStart.Fail? then Failed(policy, effects, a.atStart.error)
    else
      var key := Trimmed(presented);
      if !Complete(key) then Failed(policy, effects, InvalidMetadata)
      else
        match policy.hostKey
        case Some(pinned) =>
          if Trimmed(pinned) == key then RecordAndPin(policy, key, a, effects)
          else Failed(policy, effects, HostKeyMismatch)
        case None =>
          if bearer.None? then Failed(policy, effects, Unauthenticated)
          else TrustOnFirstUse(policy, key, a, bearer.value, effects)
  }

  // ---- a handler over its life ----

  datatype KeyCheck = KeyCheck(presented: Key, answers: Answers)

  datatype Handler = Handler(policy: Policy, bearer: Option<string>, results: seq<Check>, logs: seq<seq<Effect>>)

  // apply_presented: the bearer slot is emptied whatever comes of the check.
  function Applied(h: Handler, c: KeyCheck): Handler {
    var o := Verify(h.policy, c.presented, c.answers, if h.policy.hostKey.Some? then None else h.bearer);
    Handler(o.policy, None, h.results + [o.result], h.logs + [o.effects])
  }

  function AppliedAll(h: Handler, checks: seq<KeyCheck>): Handler {
    if checks == [] then h else Applied(AppliedAll(h, checks[..|checks| - 1]), checks[|checks| - 1])
  }

  function NewHandler(policy: Policy, bearer: Option<string>): Handler {
    Handler(policy, bearer, [], [])
  }

  predicate Asks(e: Effect) {
    e.Prompted? || e.CloudWrite?
  }

  // The effects of one check are a prefix of the effects of one that goes through.
  function FullTrust(policy: Policy, key: Key, a: Answers, bearer: string, ns: Namespace): seq<Effect> {
    [Revalidated(a.atStart), Prompted(policy.targetHost, key), Revalidated(a.afterConfirm),
     CloudWrite(policy.serverId, key, bearer, a.cloud), Revalidated(a.beforeRecord), KnownHostsWrite(ns, key, a.record),
     Revalidated(a.afterRecord)]
  }

  function FullPinned(a: Answers, key: Key, ns: Namespace): seq<Effect> {
    [Revalidated(a.atStart), Revalidated(a.beforeRecord), KnownHostsWrite(ns, key, a.record), Revalidated(a.afterRecord)]
  }

  predicate Succeeded(e: Effect) {
    match e
    case Revalidated(r) => r.Pass?
    case Prompted(_, _) => true
    case CloudWrite(_, _, _, r) => r.Pass?
    case KnownHostsWrite(_, _, r) => r.Pass?
  }

  // Every effect but the last succeeded: a check goes on only after success.
  ghost predicate StopsAtFailure(effects: seq<Effect>) {
    forall i :: 0 <= i < |effects| - 1 ==> Succeeded(effects[i])
  }

  function NsOf(policy: Policy): Namespace {
    match NamespaceFor(policy.principal, policy.serverId)
    case Ok(ns) => ns
    case Err(_) => Namespace("", "")
  }

  // Accepted exactly when the whole order was gone through to its end.
  ghost predicate InOrder(o: Outcome, key: Key, full: seq<Effect>, a: Answers, acceptable: bool) {
    && StopsAtFailure(o.effects) && o.effects <= full
    && (o.result.Pass? <==> acceptable && Complete(key) && o.effects == full && a.afterRecord.Pass?)
  }

  lemma RecordInOrder(policy: Policy, key: Key, a: Answers, before: seq<Effect>)
    requires forall i :: 0 <= i < |before| ==> Succeeded(before[i])
    ensures var o := RecordAndPin(policy, key, a, before);
            var full := before + [Revalidated(a.beforeRecord), KnownHostsWrite(NsOf(policy), key, a.record), Revalidated(a.afterRecord)];
            StopsAtFailure(o.effects) && o.effects <= full && (o.result.Pass? <==> o.effects == full && a.afterRecord.Pass?)
  {
    hide NamespaceFor;
  }

  lemma PinnedInOrder(policy: Policy, presented: Key, a: Answers, bearer: Option<string>)
    requires policy.hostKey.Some?
    ensures InOrder(Verify(policy, presented, a, bearer), Trimmed(presented), FullPinned(a, Trimmed(presented), NsOf(policy)), a,
                    Trimmed(policy.hostKey.value) == Trimmed(presented))
  {
    hide Trim, RecordAndPin, NsOf;
    var key := Trimmed(presented);
    if a.atStart.Pass? {
      RecordInOrder(policy, key, a, [Revalidated(a.atStart)]);
      assert FullPinned(a, key, NsOf(policy)) == [Revalidated(a.atStart)]
        + [Revalidated(a.beforeRecord), KnownHostsWrite(NsOf(policy), key, a.record), Revalidated(a.afterRecord)];
    }
  }

  lemma TrustInOrder(policy: Policy, presented: Key, a: Answers, bearer: Option<string>)
    requires policy.hostKey.None? && bearer.Some?
    ensures InOrder(Verify(policy, presented, a, bearer), Trimmed(presented),
                    FullTrust(policy, Trimmed(presented), a, bearer.value, NsOf(policy)), a, true)
  {
    hide Trim, RecordAndPin, NsOf;
    var key := Trimmed(presented);
    var e1 := [Revalidated(a.atStart)];
    var e2 := e1 + [Prompted(policy.targetHost, key)];
    var e3 := e2 + [Revalidated(a.afterConfirm)];
    var written := e3 + [CloudWrite(policy.serverId, key, bearer.value, a.cloud)];
    var full := FullTrust(policy, key, a, bearer.value, NsOf(policy));
    assert full == written
      + [Revalidated(a.beforeRecord), KnownHostsWrite(NsOf(policy), key, a.record), Revalidated(a.afterRecord)];
    assert e1 <= full && e2 <= full && e3 <= full && written <= full && |written| < |full|;
    if a.atStart.Pass? && a.afterConfirm.Pass? && a.cloud.Pass? {
      RecordInOrder(policy, key, a, written);
    }
  }

  // What one check can do: its effects are a prefix of the promised order that stops
  // at the first failure; it is accepted only when the whole order was gone through.
  // Without a pinned key and a bearer nothing is asked.
  lemma EffectsInOrder(policy: Policy, presented: Key, a: Answers, bearer: Option<string>)
    ensures var o, key := Verify(policy, presented, a, bearer), Trimmed(presented);
            && (policy.hostKey.Some? ==>
                  InOrder(o, key, FullPinned(a, key, NsOf(policy)), a, Trimmed(policy.hostKey.value) == key))
            && (policy.hostKey.None? && bearer.Some? ==>
                  InOrder(o, key, FullTrust(policy, key, a, bearer.value, NsOf(policy)), a, true))
            && (policy.hostKey.None? && bearer.None? ==> o.effects == [Revalidated(a.atStart)] && o.result.Fail?)
  {
    hide InOrder, Trim, TrustOnFirstUse, RecordAndPin, NsOf;
    if policy.hostKey.Some? {
      PinnedInOrder(policy, presented, a, bearer);
    } else if bearer.Some? {
      TrustInOrder(policy, presented, a, bearer);
    }
  }

  // A check accepts exactly when all it depends on is there and in favour: the key has a
  // type and a fingerprint besides whitespace; a pinned key is the same key; without one
  // there is a bearer, the user says yes and the cloud takes the key; the namespace can be
  // formed, the record is written, and every revalidation passes.
  lemma AcceptedExactly(policy: Policy, presented: Key, a: Answers, bearer: Option<string>, keyType: string, fingerprint: string)
    requires IsTrimOf(keyType, presented.keyType) && IsTrimOf(fingerprint, presented.fingerprint)
    ensures Verify(policy, presented, a, bearer).result.Pass? <==>
              && a.atStart.Pass? && keyType != "" && fingerprint != ""
              && (policy.hostKey.Some? ==>
                    IsTrimOf(keyType, policy.hostKey.value.keyType) && IsTrimOf(fingerprint, policy.hostKey.value.fingerprint))
              && (policy.hostKey.None? ==> bearer.Some? && a.confirm == Ok(true) && a.afterConfirm.Pass? && a.cloud.Pass?)
              && a.beforeRecord.Pass? && NamespaceFor(policy.principal, policy.serverId).Ok? && a.record.Pass? && a.afterRecord.Pass?
    ensures policy.hostKey.None? && Verify(policy, presented, a, bearer).result.Pass? ==>
              Verify(policy, presented, a, bearer).policy.hostKey == Some(Key(keyType, fingerprint))
  {
    TrimIsUnique(presented.keyType, keyType);
    TrimIsUnique(presented.fingerprint, fingerprint);
    if policy.hostKey.Some? {
      TrimIsUnique(policy.hostKey.value.keyType, keyType);
      TrimIsUnique(policy.hostKey.value.fingerprint, fingerprint);
    }
    hide Trim, IsTrimOf, NamespaceFor;
  }

  // Why a check fails that found the connection valid at its start.
  lemma RefusedBecause(policy: Policy, presented: Key, a: Answers, bearer: Option<string>)
    requires a.atStart.Pass?
    ensures var r, blank := Verify(policy, presented, a, bearer).result, Blank(presented.keyType) || Blank(presented.fingerprint);
            && (blank ==> r == Fail(InvalidMetadata))
            && (!blank && policy.hostKey.Some? && Trimmed(policy.hostKey.value) != Trimmed(presented) ==> r == Fail(HostKeyMismatch))
            && (!blank && policy.hostKey.None? && bearer.None? ==> r == Fail(Unauthenticated))
            && (!blank && policy.hostKey.None? && bearer.Some? ==>
                  && (a.confirm.Err? ==> r == Fail(a.confirm.error))
                  && (a.confirm == Ok(false) ==> r == Fail(HostKeyRejectedByUser))
                  && (a.confirm == Ok(true) && a.afterConfirm.Fail? ==> r == a.afterConfirm)
                  && (a.confirm == Ok(true) && a.afterConfirm.Pass? && a.cloud.Fail? ==> r == a.cloud))
  {
    hide Trim, NamespaceFor;
  }

  lemma VerifyPins(policy: Policy, presented: Key, a: Answers, bearer: Option<string>)
    ensures var o := Verify(policy, presented, a, bearer);
            && o.policy == policy.(hostKey := o.policy.hostKey)
            && (policy.hostKey.Some? || o.result.Fail? ==> o.policy.hostKey == policy.hostKey)
            && (policy.hostKey.None? && o.result.Pass? ==> o.policy.hostKey == Some(Trimmed(presented)))
            && (o.result.Pass? ==> o.policy.hostKey.Some? && Trimmed(o.policy.hostKey.value) == Trimmed(presented))
  {
    hide NamespaceFor;
    TrimIsIdempotent(presented.keyType);
    TrimIsIdempotent(presented.fingerprint);
    hide Trim;
  }

  lemma {:induction false} TrimEndKeepsStart(s: string)
    ensures TrimEnd(s) <= s
    ensures s != "" && !IsWhitespace(s[0]) ==> TrimEnd(s) != ""
    ensures TrimEnd(s) != "" ==> !IsWhitespace(TrimEnd(s)[|TrimEnd(s)| - 1])
  {
    if s != "" && IsWhitespace(s[|s| - 1]) {
      TrimEndKeepsStart(s[..|s| - 1]);
    }
  }

  lemma {:induction false} TrimStartStops(s: string)
    ensures TrimStart(s) != "" ==> !IsWhitespace(TrimStart(s)[0])
  {
    if s != "" && IsWhitespace(s[0]) {
      TrimStartStops(s[1..]);
    }
  }

  lemma TrimIsIdempotent(s: string)
    ensures Trim(Trim(s)) == Trim(s)
  {
    TrimStartStops(s);
    TrimEndKeepsStart(TrimStart(s));
  }

  lemma {:induction false} AppliedAllShape(h: Handler, checks: seq<KeyCheck>)
    requires h.results == [] && h.logs == []
    ensures var f := AppliedAll(h, checks);
            |f.results| == |f.logs| == |checks| && (checks != [] ==> f.bearer.None?)
  {
    if checks != [] {
      AppliedAllShape(h, checks[..|checks| - 1]);
    }
  }

  // The n-th check of a life, and the handler it finds.
  function Before(h: Handler, checks: seq<KeyCheck>, n: nat): Handler
    requires n <= |checks|
  {
    AppliedAll(h, checks[..n])
  }

  lemma {:induction false} ResultsPersist(h: Handler, checks: seq<KeyCheck>, n: nat)
    requires h.results == [] && h.logs == [] && n < |checks|
    ensures var f, b := AppliedAll(h, checks), Before(h, checks, n);
            var after := Applied(b, checks[n]);
            && |f.results| == |f.logs| == |checks| && |b.results| == |b.logs| == n
            && f.results[n] == after.results[n] && f.logs[n] == after.logs[n]
            && after == Before(h, checks, n + 1)
  {
    hide Applied;
    AppliedAllShape(h, checks);
    AppliedAllShape(h, checks[..n]);
    assert checks[..n + 1][..n] == checks[..n];
    AppliedAllShape(h, checks[..n + 1]);
    var init, last := checks[..|checks| - 1], checks[|checks| - 1];
    if n < |init| {
      ResultsPersist(h, init, n);
      assert init[..n] == checks[..n];
      AppliedAppends(AppliedAll(h, init), last);
    } else {
      assert init == checks[..n];
      assert checks[..n + 1] == checks;
    }
  }

  lemma AppliedAppends(h: Handler, c: KeyCheck)
    ensures h.results <= Applied(h, c).results && h.logs <= Applied(h, c).logs
  {
    hide Verify;
  }

  // A pin stays for the rest of the handler's life.
  lemma {:induction false} PinStays(h: Handler, checks: seq<KeyCheck>, m: nat, n: nat)
    requires m <= n <= |checks|
    ensures var a, b := Before(h, checks, m).policy, Before(h, checks, n).policy;
            a.hostKey.Some? ==> b.hostKey == a.hostKey
  {
    if m < n {
      hide Applied;
      PinStays(h, checks, m, n - 1);
      assert checks[..n][..n - 1] == checks[..n - 1];
      AppliedKeepsPin(Before(h, checks, n - 1), checks[n - 1]);
    }
  }

  lemma AppliedKeepsPin(h: Handler, c: KeyCheck)
    ensures h.policy.hostKey.Some? ==> Applied(h, c).policy.hostKey == h.policy.hostKey
    ensures Applied(h, c).policy == h.policy.(hostKey := Applied(h, c).policy.hostKey)
  {
    hide Verify;
    VerifyPins(h.policy, c.presented, c.answers, if h.policy.hostKey.Some? then None else h.bearer);
  }

  // ---- main results ----

  // All keys a handler ever accepts, over any number of rekeys, are one key: the key
  // it was pinned to from the start, if it was.
  lemma {:induction false} AcceptedKeysAgree(policy: Policy, bearer: Option<string>, checks: seq<KeyCheck>, i: nat, j: nat)
    requires i < |checks| && j < |checks|
    ensures var f := AppliedAll(NewHandler(policy, bearer), checks);
            && |f.results| == |checks|
            && (f.results[i].Pass? && f.results[j].Pass? ==> Trimmed(checks[i].presented) == Trimmed(checks[j].presented))
            && (f.results[i].Pass? && policy.hostKey.Some? ==> Trimmed(checks[i].presented) == Trimmed(policy.hostKey.value))
            && (f.results[i].Pass? ==> f.policy.hostKey.Some? && Trimmed(f.policy.hostKey.value) == Trimmed(checks[i].presented))
  {
    hide Verify, AppliedAll, Trimmed;
    var h := NewHandler(policy, bearer);
    AcceptedIsFinalPin(h, checks, i);
    AcceptedIsFinalPin(h, checks, j);
    PinStays(h, checks, 0, |checks|);
    assert checks[..|checks|] == checks;
    assert checks[..0] == [];
    assert AppliedAll(h, []) == h by { NothingApplied(h); }
  }

  lemma NothingBefore(h: Handler, checks: seq<KeyCheck>)
    ensures Before(h, checks, 0) == h
  {
    assert checks[..0] == [];
  }

  lemma NothingApplied(h: Handler)
    ensures AppliedAll(h, []) == h
  {
  }

  lemma AcceptedIsFinalPin(h: Handler, checks: seq<KeyCheck>, i: nat)
    requires h.results == [] && h.logs == [] && i < |checks|
    ensures var f := AppliedAll(h, checks);
            && |f.results| == |checks|
            && (f.results[i].Pass? ==> f.policy.hostKey.Some? && Trimmed(f.policy.hostKey.value) == Trimmed(checks[i].presented))
  {
    hide Verify, Trimmed, AppliedAll;
    ResultsPersist(h, checks, i);
    var b := Before(h, checks, i);
    VerifyPins(b.policy, checks[i].presented, checks[i].answers, if b.policy.hostKey.Some? then None else b.bearer);
    PinStays(h, checks, i + 1, |checks|);
    assert checks[..|checks|] == checks;
  }

  // The user is asked and the cloud written only in the first check of a handler, only
  // when it starts without a pinned key, and then once each at most, whatever fails:
  // no rekey ever asks again.
  lemma {:induction false} AskedInFirstCheckOnly(policy: Policy, bearer: Option<string>, checks: seq<KeyCheck>, n: nat)
    requires n < |checks|
    ensures var f := AppliedAll(NewHandler(policy, bearer), checks);
            && |f.logs| == |checks|
            && (n > 0 || policy.hostKey.Some? || bearer.None? ==> forall e :: e in f.logs[n] ==> !Asks(e))
            && (forall i, j :: 0 <= i < j < |f.logs[n]| ==>
                  !(f.logs[n][i].Prompted? && f.logs[n][j].Prompted?) && !(f.logs[n][i].CloudWrite? && f.logs[n][j].CloudWrite?))
            && (forall e :: e in f.logs[n] && e.CloudWrite? ==> bearer == Some(e.bearer) && e.serverId == policy.serverId)
  {
    hide Verify, AppliedAll, Trimmed, NsOf;
    var h := NewHandler(policy, bearer);
    ResultsPersist(h, checks, n);
    var b := Before(h, checks, n);
    var used := if b.policy.hostKey.Some? then None else b.bearer;
    NothingApplied(h);
    PolicyFrame(h, checks, n);
    if n > 0 {
      AppliedAllShape(h, checks[..n]);
    } else {
      assert checks[..n] == [];
    }
    EffectsInOrder(b.policy, checks[n].presented, checks[n].answers, used);
  }

  lemma {:induction false} PolicyFrame(h: Handler, checks: seq<KeyCheck>, n: nat)
    requires n <= |checks|
    ensures var b := Before(h, checks, n); b.policy == h.policy.(hostKey := b.policy.hostKey)
  {
    if n > 0 {
      hide Applied;
      PolicyFrame(h, checks, n - 1);
      assert checks[..n][..n - 1] == checks[..n - 1];
      AppliedKeepsPin(Before(h, checks, n - 1), checks[n - 1]);
    } else {
      assert checks[..n] == [];
    }
  }

  // Right before a known-hosts write the connection was found valid, and a handler that
  // started without a pinned key has by then written the same key to the cloud with
  // success, in this check or in the accepted first one.
  ghost predicate CloudWriteDone(log: seq<Effect>, upTo: nat, key: Key) {
    exists q :: 0 <= q < upTo <= |log| && log[q].CloudWrite? && log[q].key == key && log[q].r.Pass?
  }

  lemma {:induction false} RecordsFollowCloudWrite(policy: Policy, bearer: Option<string>, checks: seq<KeyCheck>, n: nat, p: nat)
    requires n < |checks|
    ensures var f := AppliedAll(NewHandler(policy, bearer), checks);
            && |f.logs| == |checks|
            && (p < |f.logs[n]| && f.logs[n][p].KnownHostsWrite? ==>
                  && p > 0 && f.logs[n][p - 1] == Revalidated(Pass)
                  && Ok(f.logs[n][p].ns) == NamespaceFor(policy.principal, policy.serverId)
                  && f.logs[n][p].key == Trimmed(checks[n].presented)
                  && (policy.hostKey.None? ==>
                        CloudWriteDone(f.logs[n], p, f.logs[n][p].key)
                        || CloudWriteDone(f.logs[0], |f.logs[0]|, f.logs[n][p].key)))
  {
    hide Verify, AppliedAll, Trimmed, NamespaceFor, CloudWriteDone;
    var h := NewHandler(policy, bearer);
    ResultsPersist(h, checks, n);
    var f, b := AppliedAll(h, checks), Before(h, checks, n);
    var used := if b.policy.hostKey.Some? then None else b.bearer;
    PolicyFrame(h, checks, n);
    if p < |f.logs[n]| && f.logs[n][p].KnownHostsWrite? {
      RecordContext(b.policy, checks[n].presented, checks[n].answers, used, p);
      if policy.hostKey.None? && b.policy.hostKey.Some? {
        PinnedByFirstCheck(h, checks, n);
        ResultsPersist(h, checks, 0);
        NothingApplied(h);
        assert checks[..0] == [];
        TrustWritesCloud(policy, checks[0].presented, checks[0].answers, bearer);
        PinStays(h, checks, 1, n);
        VerifyPins(policy, checks[0].presented, checks[0].answers, bearer);
        assert checks[..1] == checks[..0 + 1];
        TrimmedTwice(checks[0].presented);
      }
    }
  }

  lemma TrimmedTwice(k: Key)
    ensures Trimmed(Trimmed(k)) == Trimmed(k)
  {
    TrimIsIdempotent(k.keyType);
    TrimIsIdempotent(k.fingerprint);
  }

  lemma RecordContext(policy: Policy, presented: Key, a: Answers, bearer: Option<string>, p: nat)
    requires var o := Verify(policy, presented, a, bearer); p < |o.effects| && o.effects[p].KnownHostsWrite?
    ensures var o := Verify(policy, presented, a, bearer);
            && p > 0 && o.effects[p - 1] == Revalidated(Pass)
            && Ok(o.effects[p].ns) == NamespaceFor(policy.principal, policy.serverId)
            && o.effects[p].key == Trimmed(presented)
            && (policy.hostKey.Some? ==> Trimmed(policy.hostKey.value) == Trimmed(presented))
            && (policy.hostKey.None? ==> CloudWriteDone(o.effects, p, Trimmed(presented)))
  {
    hide Trimmed, NamespaceFor;
    var o := Verify(policy, presented, a, bearer);
    if policy.hostKey.None? {
      assert o.effects[3].CloudWrite? && p == 5;
    } else {
      assert p == 2;
    }
  }

  lemma TrustWritesCloud(policy: Policy, presented: Key, a: Answers, bearer: Option<string>)
    requires policy.hostKey.None? && Verify(policy, presented, a, bearer).result.Pass?
    ensures var o := Verify(policy, presented, a, bearer); CloudWriteDone(o.effects, |o.effects|, Trimmed(presented))
  {
    hide Trimmed, NamespaceFor;
    var o := Verify(policy, presented, a, bearer);
    assert o.effects[3].CloudWrite?;
  }

  // Only the first check can pin: later ones have no bearer left to trust with.
  lemma {:induction false} PinnedByFirstCheck(h: Handler, checks: seq<KeyCheck>, n: nat)
    requires h.policy.hostKey.None? && n <= |checks| && Before(h, checks, n).policy.hostKey.Some?
    ensures n > 0 && Verify(h.policy, checks[0].presented, checks[0].answers, h.bearer).result.Pass?
    ensures Before(h, checks, n).policy.hostKey == Some(Trimmed(checks[0].presented))
  {
    hide Verify, Trimmed;
    NothingBefore(h, checks);
    if n > 0 {
      var b := Before(h, checks, n - 1);
      assert checks[..n][..n - 1] == checks[..n - 1];
      var used := if b.policy.hostKey.Some? then None else b.bearer;
      VerifyPins(b.policy, checks[n - 1].presented, checks[n - 1].answers, used);
      if b.policy.hostKey.Some? {
        PinnedByFirstCheck(h, checks, n - 1);
      } else if n == 1 {
        assert checks[..0] == [];
      } else {
        assert checks[..n - 1] != [];
        EffectsInOrder(b.policy, checks[n - 1].presented, checks[n - 1].answers, None);
        assert false;
      }
    }
  }

  // A handler without a pinned key is pinned by the end exactly when its first check
  // was accepted, then to that check's key, and it accepts a later key only after that.
  lemma {:induction false} FirstCheckDecides(policy: Policy, bearer: Option<string>, checks: seq<KeyCheck>)
    requires policy.hostKey.None? && checks != []
    ensures var f := AppliedAll(NewHandler(policy, bearer), checks);
            && |f.results| == |checks| && f.bearer.None?
            && (f.policy.hostKey.Some? <==> f.results[0].Pass?)
            && (f.results[0].Pass? ==> f.policy.hostKey == Some(Trimmed(checks[0].presented)))
            && (f.results[0].Fail? ==> forall i :: 0 <= i < |checks| ==> f.results[i].Fail?)
  {
    hide Verify, Trimmed, AppliedAll;
    var h := NewHandler(policy, bearer);
    var f := AppliedAll(h, checks);
    AppliedAllShape(h, checks);
    ResultsPersist(h, checks, 0);
    NothingApplied(h);
    assert checks[..0] == [] && checks[..|checks|] == checks;
    AcceptedIsFinalPin(h, checks, 0);
    if f.policy.hostKey.Some? {
      PinnedByFirstCheck(h, checks, |checks|);
    }
    forall i | 0 <= i < |checks| && f.results[i].Pass? ensures f.policy.hostKey.Some? {
      AcceptedIsFinalPin(h, checks, i);
    }
  }

  // ---- the handler ----

  class HostKeyPolicyHandler {
    var policy: Policy
    var bearer: Option<string>
    var effects: seq<Effect>   // of the current check

    constructor (policy: Policy, bearer: Option<string>)
      ensures this.policy == policy && this.bearer == bearer && effects == []
    {
      this.policy, this.bearer, this.effects := policy, bearer, [];
    }

    method Revalidate(r: Check)
      modifies this`effects
      ensures effects == old(effects) + [Revalidated(r)]
    {
      effects := effects + [Revalidated(r)];
    }

    method VerifyServerHostKey(presented: Key, a: Answers, used: Option<string>) returns (r: Check)
      requires effects == []
      modifies this`policy, this`effects
      ensures Outcome(policy, r, effects) == Verify(old(policy), presented, a, used)
    {
      hide Trim, NamespaceFor, TrustOnFirstUse;
      Revalidate(a.atStart);
      assert effects == [Revalidated(a.atStart)];
      if a.atStart.Fail? {
        return a.atStart;
      }
      var key := Trimmed(presented);
      if key.keyType == "" || key.fingerprint == "" {
        return Fail(InvalidMetadata);
      }
      if policy.hostKey.Some? {
        if Trimmed(policy.hostKey.value) != key {
          return Fail(HostKeyMismatch);
        }
        r := RecordHostKey(key, a);
        return;
      }
      if used.None? {
        return Fail(Unauthenticated);
      }
      r := TrustKey(key, a, used.value);
    }

    // The branch without a pinned key.
    method TrustKey(key: Key, a: Answers, used: string) returns (r: Check)
      requires policy.hostKey.None?
      modifies this`policy, this`effects
      ensures Outcome(policy, r, effects) == TrustOnFirstUse(old(policy), key, a, used, old(effects))
    {
      hide NamespaceFor;
      effects := effects + [Prompted(policy.targetHost, key)];
      if a.confirm.Err? {
        return Fail(a.confirm.error);
      }
      if !a.confirm.value {
        return Fail(HostKeyRejectedByUser);
      }
      Revalidate(a.afterConfirm);
      if a.afterConfirm.Fail? {
        return a.afterConfirm;
      }
      effects := effects + [CloudWrite(policy.serverId, key, used, a.cloud)];
      if a.cloud.Fail? {
        return a.cloud;
      }
      r := RecordHostKey(key, a);
      if r.Pass? {
        policy := policy.(hostKey := Some(key));
      }
    }

    // The steps the pinned and the unpinned branch share.
    method RecordHostKey(key: Key, a: Answers) returns (r: Check)
      modifies this`effects
      ensures var o := RecordAndPin(policy, key, a, old(effects)); r == o.result && effects == o.effects
    {
      hide NamespaceFor;
      Revalidate(a.beforeRecord);
      if a.beforeRecord.Fail? {
        return a.beforeRecord;
      }
      var ns := NamespaceFor(policy.principal, policy.serverId);
      if ns.Err? {
        return Fail(ns.error);
      }
      effects := effects + [KnownHostsWrite(ns.value, key, a.record)];
      if a.record.Fail? {
        return a.record;
      }
      Revalidate(a.afterRecord);
      return a.afterRecord;
    }

    method ApplyPresented(c: KeyCheck) returns (r: Check)
      modifies this
      ensures var h := Applied(Handler(old(policy), old(bearer), [], []), c);
              policy == h.policy && bearer == h.bearer && r == h.results[0] && effects == h.logs[0]
    {
      hide Verify;
      effects := [];
      var taken := bearer;
      bearer := None;
      if policy.hostKey.Some? {
        r := VerifyServerHostKey(c.presented, c.answers, None);
      } else {
        r := VerifyServerHostKey(c.presented, c.answers, taken);
      }
    }
  }
}
