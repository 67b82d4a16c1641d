// src-tauri/src/cloud_transport/sanitize.rs: rejecting repeated keys while a response
// is decoded, and removing secret fields from what was decoded. Objects keep their
// members in the order of the text; lookups do not depend on it.
module Sanitize {
  import opened Wrappers
  import opened Chars

  // Leaf: null, a boolean, a number or a string, as its text.
  datatype Json = Leaf(text: string) | Array(items: seq<Json>) | Object(members: seq<(string, Json)>)

  // A step from a value into one of its parts.
  datatype Step = Index(i: nat) | Key(k: string)

  type Path = seq<Step>

  // The first member of that name.
  function Member(members: seq<(string, Json)>, k: string): (r: Option<Json>)
    ensures r.Some? ==> exists i :: 0 <= i < |members| && members[i] == (k, r.value)
    ensures r.None? ==> forall i :: 0 <= i < |members| ==> members[i].0 != k
  {
    if members == [] then None
    else if members[0].0 == k then Some(members[0].1)
    else
      assert forall i :: 0 < i < |members| ==> members[i] == members[1..][i - 1];
      Member(members[1..], k)
  }

  function Child(t: Json, step: Step): Option<Json> {
    match step
    case Index(i) => if t.Array? && i < |t.items| then Some(t.items[i]) else None
    case Key(k) => if t.Object? then Member(t.members, k) else None
  }

  function At(t: Json, path: Path): Option<Json>
    decreases |path|
  {
    if path == [] then Some(t)
    else
      match Child(t, path[0])
      case None => None
      case Some(c) => At(c, path[1..])
  }

  // ---- repeated keys ----

  predicate DistinctKeys(members: seq<(string, Json)>) {
    forall i, j :: 0 <= i < j < |members| ==> members[i].0 != members[j].0
  }

  // At every depth.
  predicate DistinctEverywhere(t: Json) {
    match t
    case Leaf(_) => true
    case Array(items) => forall i :: 0 <= i < |items| ==> DistinctEverywhere(items[i])
    case Object(members) =>
      DistinctKeys(members) && forall i :: 0 <= i < |members| ==> DistinctEverywhere(members[i].1)
  }

  ghost predicate NoRepeatAnywhere(t: Json) {
    forall p: Path :: At(t, p).Some? && At(t, p).value.Object? ==> DistinctKeys(At(t, p).value.members)
  }

  lemma ChildIsPart(t: Json, step: Step)
    requires Child(t, step).Some? && DistinctEverywhere(t)
    ensures DistinctEverywhere(Child(t, step).value)
  {
    if step.Key? {
      var i :| 0 <= i < |t.members| && t.members[i] == (step.k, Child(t, step).value);
      assert DistinctEverywhere(t.members[i].1);
    }
  }

  lemma {:induction false} DistinctAtPath(t: Json, p: Path)
    requires DistinctEverywhere(t) && At(t, p).Some?
    ensures DistinctEverywhere(At(t, p).value)
    decreases |p|
  {
    if p != [] {
      ChildIsPart(t, p[0]);
      DistinctAtPath(Child(t, p[0]).value, p[1..]);
    }
  }

  lemma NoRepeatInChild(t: Json, step: Step)
    requires NoRepeatAnywhere(t) && Child(t, step).Some?
    ensures NoRepeatAnywhere(Child(t, step).value)
  {
    var c := Child(t, step).value;
    forall p: Path | At(c, p).Some? && At(c, p).value.Object? ensures DistinctKeys(At(c, p).value.members) {
      assert ([step] + p)[1..] == p;
      assert At(t, [step] + p) == At(c, p);
    }
  }

  lemma {:induction false} NoRepeatIsDistinct(t: Json)
    requires NoRepeatAnywhere(t)
    ensures DistinctEverywhere(t)
  {
    hide NoRepeatAnywhere;
    match t
    case Leaf(_) =>
    case Array(items) =>
      forall i | 0 <= i < |items| ensures DistinctEverywhere(items[i]) {
        NoRepeatInChild(t, Index(i));
        assert Child(t, Index(i)) == Some(items[i]);
        NoRepeatIsDistinct(items[i]);
      }
    case Object(members) =>
      RootHasNoRepeat(t);
      forall i | 0 <= i < |members| ensures DistinctEverywhere(members[i].1) {
        MemberIs(members, i);
        NoRepeatInChild(t, Key(members[i].0));
        assert members[i].1 < t;
        NoRepeatIsDistinct(members[i].1);
      }
  }

  lemma RootHasNoRepeat(t: Json)
    requires NoRepeatAnywhere(t) && t.Object?
    ensures DistinctKeys(t.members)
  {
    assert At(t, []) == Some(t);
  }

  lemma MemberIs(members: seq<(string, Json)>, i: nat)
    requires DistinctKeys(members) && i < |members|
    ensures Member(members, members[i].0) == Some(members[i].1)
  {
    var r := Member(members, members[i].0);
    if r.Some? {
      var j :| 0 <= j < |members| && members[j] == (members[i].0, r.value);
    }
  }

  // The two readings of "no repeated key" agree: along the recursion of the decoder,
  // and at every path into the value.
  lemma DistinctMeansNoRepeatAnywhere(t: Json)
    ensures DistinctEverywhere(t) <==> NoRepeatAnywhere(t)
  {
    if DistinctEverywhere(t) {
      forall p: Path | At(t, p).Some? && At(t, p).value.Object? ensures DistinctKeys(At(t, p).value.members) {
        DistinctAtPath(t, p);
      }
    }
    if NoRepeatAnywhere(t) {
      NoRepeatIsDistinct(t);
    }
  }

  // NoDupVisitor over the value that the text denotes, repeated members included.
  // A response is decoded exactly when no object in it, at any depth, repeats a key,
  // and then it is decoded as it is.
  method Decode(t: Json) returns (r: Result<Json, ()>)
    ensures r.Ok? <==> NoRepeatAnywhere(t)
    ensures r.Ok? ==> r.value == t
    decreases t
  {
    DistinctMeansNoRepeatAnywhere(t);
    hide NoRepeatAnywhere, At;
    match t
    case Leaf(text) => return Ok(Leaf(text));
    case Array(items) =>
      var out: seq<Json> := [];
      for i := 0 to |items|
        invariant out == items[..i]
        invariant forall j :: 0 <= j < i ==> DistinctEverywhere(items[j])
      {
        var elem := Decode(items[i]);
        DistinctMeansNoRepeatAnywhere(items[i]);
        if elem.Err? {
          return Err(());
        }
        out := out + [elem.value];
      }
      return Ok(Array(out));
    case Object(members) =>
      var values: seq<(string, Json)> := [];
      for i := 0 to |members|
        invariant values == members[..i]
        invariant forall j, k :: 0 <= j < k < i ==> members[j].0 != members[k].0
        invariant forall j :: 0 <= j < i ==> DistinctEverywhere(members[j].1)
      {
        var (key, child) := members[i];
        var seen := Member(values, key);
        if seen.Some? {
          ghost var j :| 0 <= j < |values| && values[j] == (key, seen.value);
          assert members[j].0 == members[i].0;
          return Err(());
        }
        assert forall j :: 0 <= j < i ==> values[j] == members[j];
        assert child < members[i] && members[i] in members;
        var value := Decode(child);
        DistinctMeansNoRepeatAnywhere(child);
        if value.Err? {
          return Err(());
        }
        values := values + [(key, value.value)];
      }
      return Ok(Object(values));
  }

  // ---- secret fields ----

  const STRIP_NORMALIZED: seq<string> :=
    ["token", "accesstoken", "refreshtoken", "authorization", "privatekey", "privatekeypem", "sshprivatekey", "passphrase",
     "sshkeypassphrase", "codeverifier", "clientsecret", "password", "currentpassword", "newpassword", "passwordhash",
     "idtoken", "sessiontoken", "bearer", "logtoadmin", "adminendpoint", "logtoendpoint", "logtoadminendpoint"]

  predicate IsAsciiAlphanumeric(c: char) {
    'a' <= c <= 'z' || 'A' <= c <= 'Z' || '0' <= c <= '9'
  }

  function LowerChar(c: char): char {
    if 'A' <= c <= 'Z' then (c as int + 32) as char else c
  }

  function KeptChar(c: char): string {
    if IsAsciiAlphanumeric(c) then [LowerChar(c)] else ""
  }

  function NormalizeKey(key: string): string {
    if key == "" then "" else KeptChar(key[0]) + NormalizeKey(key[1..])
  }

  predicate ShouldStripKey(key: string) {
    NormalizeKey(key) in STRIP_NORMALIZED
  }

  lemma {:induction false} NormalizeInsert(a: string, c: char, b: string)
    ensures NormalizeKey(a + [c] + b) == NormalizeKey(a) + KeptChar(c) + NormalizeKey(b)
  {
    hide KeptChar;
    var all := a + [c] + b;
    if a == "" {
      assert all[1..] == b;
    } else {
      NormalizeInsert(a[1..], c, b);
      assert all[0] == a[0] && all[1..] == a[1..] + [c] + b;
    }
  }

  lemma {:induction false} NormalizeAppend(a: string, b: string)
    ensures NormalizeKey(a + b) == NormalizeKey(a) + NormalizeKey(b)
  {
    hide KeptChar;
    if a == "" {
      assert a + b == b;
    } else {
      NormalizeAppend(a[1..], b);
      assert (a + b)[0] == a[0] && (a + b)[1..] == a[1..] + b;
    }
  }

  // Two keys that differ only in the case of an ASCII letter, or in a character that is
  // no ASCII letter or digit, are both stripped or both kept.
  lemma KeysMatchLoosely(a: string, c: char, b: string)
    ensures !IsAsciiAlphanumeric(c) ==> (ShouldStripKey(a + [c] + b) <==> ShouldStripKey(a + b))
    ensures ShouldStripKey(a + [LowerChar(c)] + b) <==> ShouldStripKey(a + [c] + b)
  {
    NormalizeInsert(a, c, b);
    NormalizeInsert(a, LowerChar(c), b);
    NormalizeAppend(a, b);
    LowerKeepsKept(c);
    hide NormalizeKey, LowerChar, STRIP_NORMALIZED;
    assert NormalizeKey(a) + "" == NormalizeKey(a);
  }

  lemma LowerKeepsKept(c: char)
    ensures KeptChar(LowerChar(c)) == KeptChar(c)
  {
  }

  // ---- which keys are secret, without the code's own normal form ----

  // The ASCII letters and digits of a key, as they stand.
  function Alphanumerics(key: string): string {
    if key == "" then ""
    else
      (if key[0] in UPPER_LETTERS || key[0] in LOWER_LETTERS || key[0] in DIGITS then [key[0]] else "")
        + Alphanumerics(key[1..])
  }

  predicate Spells(s: string, name: string) {
    |s| == |name| && forall i :: 0 <= i < |s| ==> SameLetter(s[i], name[i])
  }

  lemma SameLetterIsLower(x: char, y: char)
    requires !('A' <= y <= 'Z')
    ensures SameLetter(x, y) <==> LowerChar(x) == y
  {
    SameLetterMeans(x, y);
    hide SameLetter;
  }

  lemma {:induction false} NormalizedIsLowered(key: string)
    ensures |NormalizeKey(key)| == |Alphanumerics(key)|
    ensures forall i :: 0 <= i < |NormalizeKey(key)| ==> NormalizeKey(key)[i] == LowerChar(Alphanumerics(key)[i])
  {
    if key != "" {
      NormalizedIsLowered(key[1..]);
      LetterSets(key[0]);
      hide UPPER_LETTERS, LOWER_LETTERS, DIGITS, LowerChar;
    }
  }

  predicate AllLower(name: string) {
    forall i :: 0 <= i < |name| ==> 'a' <= name[i] <= 'z'
  }

  lemma FrontIsLower()
    ensures |STRIP_NORMALIZED| == 22
    ensures forall i :: 0 <= i < 11 ==> AllLower(STRIP_NORMALIZED[i])
  {
  }

  lemma BackIsLower()
    ensures forall i :: 11 <= i < 22 ==> AllLower(STRIP_NORMALIZED[i])
  {
  }

  lemma ListedAreLower()
    ensures forall i :: 0 <= i < |STRIP_NORMALIZED| ==> AllLower(STRIP_NORMALIZED[i])
  {
    hide STRIP_NORMALIZED, AllLower;
    FrontIsLower();
    BackIsLower();
  }

  lemma SpellsIsEqual(key: string, name: string)
    requires AllLower(name)
    ensures Spells(Alphanumerics(key), name) <==> NormalizeKey(key) == name
  {
    NormalizedIsLowered(key);
    hide NormalizeKey, Alphanumerics, LowerChar, SameLetter;
    var letters := Alphanumerics(key);
    if |letters| == |name| {
      forall i | 0 <= i < |name| ensures SameLetter(letters[i], name[i]) <==> LowerChar(letters[i]) == name[i] {
        SameLetterIsLower(letters[i], name[i]);
      }
    }
  }

  // A key is stripped exactly when its ASCII letters and digits spell a listed name,
  // whatever their case and whatever stands between them.
  lemma StrippedMeansSpelled(key: string)
    ensures ShouldStripKey(key) <==>
              exists i :: 0 <= i < |STRIP_NORMALIZED| && Spells(Alphanumerics(key), STRIP_NORMALIZED[i])
  {
    ListedAreLower();
    hide STRIP_NORMALIZED, Spells, AllLower, NormalizeKey, Alphanumerics;
    forall i | 0 <= i < |STRIP_NORMALIZED|
      ensures Spells(Alphanumerics(key), STRIP_NORMALIZED[i]) <==> NormalizeKey(key) == STRIP_NORMALIZED[i]
    {
      SpellsIsEqual(key, STRIP_NORMALIZED[i]);
    }
  }

  lemma {:induction false} LowerIsNormal(name: string)
    requires AllLower(name)
    ensures NormalizeKey(name) == name
  {
    if name != "" {
      LowerIsNormal(name[1..]);
      assert name == [name[0]] + name[1..];
    }
  }

  lemma ListedNamesAreStripped(i: nat)
    requires i < |STRIP_NORMALIZED|
    ensures ShouldStripKey(STRIP_NORMALIZED[i])
  {
    ListedAreLower();
    hide STRIP_NORMALIZED, NormalizeKey;
    LowerIsNormal(STRIP_NORMALIZED[i]);
  }

  // The case of one letter does not matter.
  lemma CaseDoesNotMatter(a: string, x: char, b: string)
    requires 'a' <= x <= 'z'
    ensures ShouldStripKey(a + [x] + b) <==> ShouldStripKey(a + [(x as int - 32) as char] + b)
  {
    NormalizeInsert(a, x, b);
    NormalizeInsert(a, (x as int - 32) as char, b);
    hide NormalizeKey, STRIP_NORMALIZED;
  }

  // A listed name with one letter in upper case or a separator put in is stripped.
  lemma VariantIsStripped(i: nat, a: string, x: char, b: string, separator: char)
    requires i < |STRIP_NORMALIZED| && a + [x] + b == STRIP_NORMALIZED[i] && 'a' <= x <= 'z'
    requires !IsAsciiAlphanumeric(separator)
    ensures ShouldStripKey(a + [(x as int - 32) as char] + b)
    ensures ShouldStripKey(a + [separator] + ([x] + b))
  {
    hide *;
    ListedNamesAreStripped(i);
    CaseDoesNotMatter(a, x, b);
    KeysMatchLoosely(a, separator, [x] + b);
    assert a + ([x] + b) == a + [x] + b;
  }

  lemma NamesAt()
    ensures |STRIP_NORMALIZED| == 22
    ensures STRIP_NORMALIZED[1] == "accesstoken" && STRIP_NORMALIZED[2] == "refreshtoken" && STRIP_NORMALIZED[4] == "privatekey"
    ensures STRIP_NORMALIZED[10] == "clientsecret" && STRIP_NORMALIZED[11] == "password"
  {
  }

  // Some keys as responses spell them: secrets go, others stay.
  lemma KnownSpellings()
    ensures ShouldStripKey("accessToken") && ShouldStripKey("refresh_token") && ShouldStripKey("Password")
    ensures ShouldStripKey("private-key") && ShouldStripKey("client_secret")
    ensures !ShouldStripKey("username") && !ShouldStripKey("endpoint")
    ensures !ShouldStripKey("token_usage") && !ShouldStripKey("password_policy") && !ShouldStripKey("private_key_status")
  {
    OthersStay();
    NamesAt();
    hide STRIP_NORMALIZED, ShouldStripKey;
    assert "access" + ['t'] + "oken" == "accesstoken" && "access" + ['T'] + "oken" == "accessToken";
    VariantIsStripped(1, "access", 't', "oken", '_');
    assert "refresh" + ['t'] + "oken" == "refreshtoken" && "refresh" + ['_'] + (['t'] + "oken") == "refresh_token";
    VariantIsStripped(2, "refresh", 't', "oken", '_');
    assert "" + ['p'] + "assword" == "password" && "" + ['P'] + "assword" == "Password";
    VariantIsStripped(11, "", 'p', "assword", '_');
    assert "private" + ['k'] + "ey" == "privatekey" && "private" + ['-'] + (['k'] + "ey") == "private-key";
    VariantIsStripped(4, "private", 'k', "ey", '-');
    assert "client" + ['s'] + "ecret" == "clientsecret" && "client" + ['_'] + (['s'] + "ecret") == "client_secret";
    VariantIsStripped(10, "client", 's', "ecret", '_');
  }

  lemma ShortOthersAreNotListed()
    ensures "username" !in STRIP_NORMALIZED && "endpoint" !in STRIP_NORMALIZED
  {
    assert "username"[0] == 'u' && "endpoint"[0] == 'e';
  }

  lemma TokenUsageIsNotListed()
    ensures "tokenusage" !in STRIP_NORMALIZED && "passwordpolicy" !in STRIP_NORMALIZED
  {
    assert |"passwordpolicy"| == 14 && |"tokenusage"| == 10 && "tokenusage"[0] == 't';
  }

  lemma KeyStatusIsNotListed()
    ensures "privatekeystatus" !in STRIP_NORMALIZED
  {
    assert |"privatekeystatus"| == 16 && "privatekeystatus"[0] == 'p';
  }

  lemma OthersAreLower()
    ensures AllLower("username") && AllLower("endpoint") && AllLower("tokenusage") && AllLower("passwordpolicy")
    ensures AllLower("privatekeystatus")
  {
  }

  lemma SeparatorsStay()
    ensures ShouldStripKey("token_usage") <==> ShouldStripKey("tokenusage")
    ensures ShouldStripKey("password_policy") <==> ShouldStripKey("passwordpolicy")
    ensures ShouldStripKey("private_key_status") <==> ShouldStripKey("privatekeystatus")
  {
    hide ShouldStripKey, STRIP_NORMALIZED;
    KeysMatchLoosely("token", '_', "usage");
    assert "token" + ['_'] + "usage" == "token_usage" && "token" + "usage" == "tokenusage";
    KeysMatchLoosely("password", '_', "policy");
    assert "password" + ['_'] + "policy" == "password_policy" && "password" + "policy" == "passwordpolicy";
    KeysMatchLoosely("private", '_', "key_status");
    assert "private" + ['_'] + "key_status" == "private_key_status" && "private" + "key_status" == "privatekey_status";
    KeysMatchLoosely("privatekey", '_', "status");
    assert "privatekey" + ['_'] + "status" == "privatekey_status" && "privatekey" + "status" == "privatekeystatus";
  }

  lemma OthersStay()
    ensures !ShouldStripKey("username") && !ShouldStripKey("endpoint")
    ensures !ShouldStripKey("token_usage") && !ShouldStripKey("password_policy") && !ShouldStripKey("private_key_status")
  {
    ShortOthersAreNotListed();
    TokenUsageIsNotListed();
    KeyStatusIsNotListed();
    OthersAreLower();
    SeparatorsStay();
    hide NormalizeKey, STRIP_NORMALIZED, AllLower;
    LowerIsNormal("username");
    LowerIsNormal("endpoint");
    LowerIsNormal("tokenusage");
    LowerIsNormal("passwordpolicy");
    LowerIsNormal("privatekeystatus");
  }

  function Sanitized(t: Json): Json {
    match t
    case Leaf(text) => t
    case Array(items) => Array(SanitizedItems(items))
    case Object(members) => Object(SanitizedMembers(members))
  }

  function SanitizedItems(items: seq<Json>): (r: seq<Json>)
    ensures |r| == |items|
  {
    if items == [] then [] else [Sanitized(items[0])] + SanitizedItems(items[1..])
  }

  function SanitizedMembers(members: seq<(string, Json)>): seq<(string, Json)> {
    if members == [] then []
    else
      assert members[0] in members && members[0].1 < members[0];
      (if ShouldStripKey(members[0].0) then [] else [(members[0].0, Sanitized(members[0].1))])
        + SanitizedMembers(members[1..])
  }

  lemma {:induction false} SanitizedItem(items: seq<Json>, i: nat)
    requires i < |items|
    ensures SanitizedItems(items)[i] == Sanitized(items[i])
  {
    if i > 0 {
      SanitizedItem(items[1..], i - 1);
    }
  }

  function SanitizedOption(t: Option<Json>): Option<Json> {
    match t
    case None => None
    case Some(v) => Some(Sanitized(v))
  }

  lemma {:induction false} SanitizedMember(members: seq<(string, Json)>, k: string)
    ensures Member(SanitizedMembers(members), k)
         == if ShouldStripKey(k) then None else SanitizedOption(Member(members, k))
  {
    hide ShouldStripKey, Sanitized;
    if members != [] {
      SanitizedMember(members[1..], k);
      var rest := SanitizedMembers(members[1..]);
      var m := (members[0].0, Sanitized(members[0].1));
      assert ([m] + rest)[1..] == rest;
      assert [] + rest == rest;
    }
  }

  // A member whose name spells a listed one.
  predicate SecretKey(key: string) {
    exists i :: 0 <= i < |STRIP_NORMALIZED| && Spells(Alphanumerics(key), STRIP_NORMALIZED[i])
  }

  predicate SecretStep(step: Step) {
    step.Key? && SecretKey(step.k)
  }

  predicate SecretPath(p: Path) {
    exists i :: 0 <= i < |p| && SecretStep(p[i])
  }

  lemma SecretKeyIsStripped(key: string)
    ensures SecretKey(key) <==> ShouldStripKey(key)
  {
    StrippedMeansSpelled(key);
    hide STRIP_NORMALIZED, Spells, ShouldStripKey;
  }

  lemma SanitizedChild(t: Json, step: Step)
    ensures Child(Sanitized(t), step) == if SecretStep(step) then None else SanitizedOption(Child(t, step))
  {
    hide ShouldStripKey, SecretKey;
    match step
    case Index(i) =>
      if t.Array? && i < |t.items| {
        SanitizedItem(t.items, i);
      }
    case Key(k) =>
      SecretKeyIsStripped(k);
      if t.Object? {
        SanitizedMember(t.members, k);
      }
  }

  // Sanitizing removes precisely what lies under a secret-named key, at every depth, and
  // keeps everything else where it was: a path leads somewhere afterwards exactly when
  // it did before and no step of it has a secret name, and then to the same value,
  // itself sanitized.
  lemma {:induction false} SanitizeRemovesExactlySecrets(t: Json, p: Path)
    ensures At(Sanitized(t), p) == if SecretPath(p) then None else SanitizedOption(At(t, p))
    decreases |p|
  {
    hide SecretStep, Sanitized;
    if p != [] {
      SanitizedChild(t, p[0]);
      assert SecretPath(p) <==> SecretStep(p[0]) || SecretPath(p[1..]) by {
        assert forall i :: 0 < i < |p| ==> p[i] == p[1..][i - 1];
      }
      if !SecretStep(p[0]) && Child(t, p[0]).Some? {
        SanitizeRemovesExactlySecrets(Child(t, p[0]).value, p[1..]);
      }
    }
  }

  // A second pass finds nothing to remove.
  lemma {:induction false} SanitizeIsIdempotent(t: Json)
    ensures Sanitized(Sanitized(t)) == Sanitized(t)
    decreases t, 1
  {
    match t
    case Leaf(_) =>
    case Array(items) => ItemsIdempotent(items, t);
    case Object(members) => MembersIdempotent(members, t);
  }

  lemma {:induction false} ItemsIdempotent(items: seq<Json>, t: Json)
    requires forall i :: 0 <= i < |items| ==> items[i] < t
    ensures SanitizedItems(SanitizedItems(items)) == SanitizedItems(items)
    decreases t, 0, |items|
  {
    if items != [] {
      hide Sanitized;
      SanitizeIsIdempotent(items[0]);
      ItemsIdempotent(items[1..], t);
      assert SanitizedItems(items)[1..] == SanitizedItems(items[1..]);
    }
  }

  lemma {:induction false} MembersIdempotent(members: seq<(string, Json)>, t: Json)
    requires forall i :: 0 <= i < |members| ==> members[i].1 < t
    ensures SanitizedMembers(SanitizedMembers(members)) == SanitizedMembers(members)
    decreases t, 0, |members|
  {
    if members != [] {
      hide Sanitized, ShouldStripKey;
      SanitizeIsIdempotent(members[0].1);
      MembersIdempotent(members[1..], t);
      var rest := SanitizedMembers(members[1..]);
      var m := (members[0].0, Sanitized(members[0].1));
      assert ([m] + rest)[1..] == rest;
      assert [] + rest == rest;
    }
  }

  // What was decoded stays free of repeats.
  lemma SanitizedStaysDistinct(t: Json)
    requires NoRepeatAnywhere(t)
    ensures NoRepeatAnywhere(Sanitized(t))
  {
    forall p: Path | At(Sanitized(t), p).Some? && At(Sanitized(t), p).value.Object?
      ensures DistinctKeys(At(Sanitized(t), p).value.members)
    {
      SanitizeRemovesExactlySecrets(t, p);
      var before := At(t, p).value;
      assert DistinctKeys(before.members);
      DistinctAfterStrip(before.members);
    }
  }

  lemma {:induction false} DistinctAfterStrip(members: seq<(string, Json)>)
    requires DistinctKeys(members)
    ensures DistinctKeys(SanitizedMembers(members))
  {
    if members != [] {
      SanitizedStep(members, 0);
      assert members[0..] == members;
      hide Sanitized, ShouldStripKey, Member, SanitizedMembers;
      var tail, name := members[1..], members[0].0;
      assert forall i :: 0 <= i < |tail| ==> tail[i].0 != name;
      DistinctAfterStrip(tail);
      SanitizedMember(tail, name);
      var absent := Member(SanitizedMembers(tail), name);
      assert absent.None? by {
        var before := Member(tail, name);
      }
    }
  }

  lemma SanitizedStep(members: seq<(string, Json)>, i: nat)
    requires i < |members|
    ensures SanitizedMembers(members[i..])
         == (if ShouldStripKey(members[i].0) then [] else [(members[i].0, Sanitized(members[i].1))])
            + SanitizedMembers(members[i + 1..])
  {
    hide ShouldStripKey, Sanitized;
    assert members[i..][1..] == members[i + 1..];
  }

  // ---- the code ----

  function Removed(members: seq<(string, Json)>, k: string): seq<(string, Json)> {
    if members == [] then []
    else if members[0].0 == k then members[1..]
    else [members[0]] + Removed(members[1..], k)
  }

  function Replaced(members: seq<(string, Json)>, k: string, v: Json): seq<(string, Json)> {
    if members == [] then []
    else if members[0].0 == k then [(k, v)] + members[1..]
    else [members[0]] + Replaced(members[1..], k, v)
  }

  predicate Lacks(members: seq<(string, Json)>, k: string) {
    forall i :: 0 <= i < |members| ==> members[i].0 != k
  }

  lemma {:induction false} RemovedBehind(done: seq<(string, Json)>, rest: seq<(string, Json)>, k: string)
    requires Lacks(done, k)
    ensures Removed(done + rest, k) == done + Removed(rest, k)
    decreases |done|
  {
    if done == [] {
      assert done + rest == rest;
    } else {
      var all, tail := done + rest, done[1..] + rest;
      assert all[1..] == tail && all[0] == done[0];
      RemovedBehind(done[1..], rest, k);
      assert Removed(all, k) == [done[0]] + Removed(tail, k);
      hide *;
      Regroup([done[0]], done[1..], Removed(rest, k));
      assert done == [done[0]] + done[1..];
    }
  }

  lemma {:induction false} ReplacedBehind(done: seq<(string, Json)>, rest: seq<(string, Json)>, k: string, v: Json)
    requires Lacks(done, k)
    ensures Replaced(done + rest, k, v) == done + Replaced(rest, k, v)
    decreases |done|
  {
    if done == [] {
      assert done + rest == rest;
    } else {
      var all, tail := done + rest, done[1..] + rest;
      assert all[1..] == tail && all[0] == done[0];
      ReplacedBehind(done[1..], rest, k, v);
      assert Replaced(all, k, v) == [done[0]] + Replaced(tail, k, v);
      hide *;
      Regroup([done[0]], done[1..], Replaced(rest, k, v));
      assert done == [done[0]] + done[1..];
    }
  }

  lemma {:induction false} MemberBehind(done: seq<(string, Json)>, rest: seq<(string, Json)>, k: string)
    requires Lacks(done, k)
    ensures Member(done + rest, k) == Member(rest, k)
    decreases |done|
  {
    if done == [] {
      assert done + rest == rest;
    } else {
      var all, tail := done + rest, done[1..] + rest;
      assert all[1..] == tail && all[0] == done[0];
      MemberBehind(done[1..], rest, k);
    }
  }

  lemma Regroup(a: seq<(string, Json)>, b: seq<(string, Json)>, c: seq<(string, Json)>)
    ensures a + (b + c) == (a + b) + c
  {
  }

  // Editing the first of the members that are still to come.
  lemma EditNext(done: seq<(string, Json)>, members: seq<(string, Json)>, i: nat, v: Json)
    requires i < |members| && Lacks(done, members[i].0)
    ensures var k, m := members[i].0, done + members[i..];
            && Removed(m, k) == done + members[i + 1..]
            && Replaced(m, k, v) == (done + [(k, v)]) + members[i + 1..]
            && Member(m, k) == Some(members[i].1)
  {
    var k, rest := members[i].0, members[i..];
    assert rest[1..] == members[i + 1..] && rest[0] == members[i];
    RemovedBehind(done, rest, k);
    ReplacedBehind(done, rest, k, v);
    MemberBehind(done, rest, k);
    assert Replaced(rest, k, v) == [(k, v)] + members[i + 1..];
    Regroup(done, [(k, v)], members[i + 1..]);
  }

  method SanitizeValue(t: Json) returns (r: Json)
    requires DistinctEverywhere(t)
    ensures r == Sanitized(t)
    decreases t, 1
  {
    match t
    case Leaf(_) => return t;
    case Array(items) =>
      var out := items;
      var i := |items|;
      while i > 0
        invariant 0 <= i <= |items| == |out|
        invariant out[i..] == SanitizedItems(items[i..]) && out[..i] == items[..i]
      {
        i := i - 1;
        assert out[i] == items[i];
        var item := SanitizeValue(items[i]);
        out := out[i := item];
        assert items[i..][1..] == items[i + 1..];
        assert out[i..] == [item] + out[i + 1..];
      }
      assert items[0..] == items && out[0..] == out;
      return Array(out);
    case Object(members) =>
      var kept := SanitizeObject(members, t);
      return Object(kept);
  }

  // No name from i on has been handled yet.
  predicate Apart(done: seq<(string, Json)>, members: seq<(string, Json)>, i: nat) {
    forall k :: i <= k < |members| ==> Lacks(done, members[k].0)
  }

  lemma ApartStep(done: seq<(string, Json)>, members: seq<(string, Json)>, i: nat, v: Json)
    requires i < |members| && DistinctKeys(members) && Apart(done, members, i)
    ensures Lacks(done, members[i].0)
    ensures Apart(done, members, i + 1) && Apart(done + [(members[i].0, v)], members, i + 1)
  {
  }

  lemma ObjectPart(members: seq<(string, Json)>, t: Json, i: nat)
    requires t == Object(members) && DistinctEverywhere(t) && i < |members|
    ensures DistinctKeys(members) && DistinctEverywhere(members[i].1) && members[i].1 < t
  {
    assert members[i] in members && members[i].1 < members[i];
  }

  // While the keys are gone through: what is done, then what is still to come.
  predicate UpTo(members: seq<(string, Json)>, m: seq<(string, Json)>, done: seq<(string, Json)>, i: nat)
    requires i <= |members|
  {
    && m == done + members[i..] && SanitizedMembers(members) == done + SanitizedMembers(members[i..])
    && Apart(done, members, i)
  }

  lemma UpToStart(members: seq<(string, Json)>)
    ensures UpTo(members, members, [], 0)
  {
    hide SanitizedMembers;
    assert members[0..] == members;
    assert [] + SanitizedMembers(members) == SanitizedMembers(members);
  }

  lemma UpToNext(members: seq<(string, Json)>, m: seq<(string, Json)>, done: seq<(string, Json)>, i: nat)
    requires i < |members| && DistinctKeys(members) && UpTo(members, m, done, i)
    ensures var k, v := members[i].0, Sanitized(members[i].1);
            && Member(m, k) == Some(members[i].1)
            && (ShouldStripKey(k) ==> UpTo(members, Removed(m, k), done, i + 1))
            && (!ShouldStripKey(k) ==> UpTo(members, Replaced(m, k, v), done + [(k, v)], i + 1))
  {
    hide Apart, SanitizedMembers, Removed, Replaced, Member, ShouldStripKey, Sanitized, DistinctKeys, Lacks;
    var k, v := members[i].0, Sanitized(members[i].1);
    ApartStep(done, members, i, v);
    EditNext(done, members, i, v);
    SanitizedStep(members, i);
    var rest := SanitizedMembers(members[i + 1..]);
    assert [] + rest == rest;
    Regroup(done, [(k, v)], rest);
  }

  lemma UpToEnd(members: seq<(string, Json)>, m: seq<(string, Json)>, done: seq<(string, Json)>)
    requires UpTo(members, m, done, |members|)
    ensures m == SanitizedMembers(members)
  {
    hide Apart;
    assert members[|members|..] == [];
    assert done + [] == done;
  }

  // sanitize_object: over the keys as they were before the first removal.
  method SanitizeObject(members: seq<(string, Json)>, ghost t: Json) returns (m: seq<(string, Json)>)
    requires t == Object(members) && DistinctEverywhere(t)
    ensures m == SanitizedMembers(members)
    decreases t, 0
  {
    hide *;
    m := members;
    ghost var done: seq<(string, Json)> := [];
    var i := 0;
    UpToStart(members);
    while i < |members|
      invariant 0 <= i <= |members|
      invariant UpTo(members, m, done, i)
    {
      var key := members[i].0;
      ObjectPart(members, t, i);
      UpToNext(members, m, done, i);
      if ShouldStripKey(key) {
        m := Removed(m, key);
      } else {
        var child := Member(m, key);
        var sanitized := SanitizeValue(child.value);
        m := Replaced(m, key, sanitized);
        done := done + [(key, sanitized)];
      }
      i := i + 1;
    }
    UpToEnd(members, m, done);
  }

  // sanitize_response_json, from the value that a well-formed text denotes.
  method SanitizeResponse(t: Json) returns (r: Result<Json, ()>)
    ensures r.Ok? <==> NoRepeatAnywhere(t)
    ensures r.Ok? ==> NoRepeatAnywhere(r.value)
                      && forall p: Path :: At(r.value, p) == if SecretPath(p) then None else SanitizedOption(At(t, p))
  {
    hide Sanitized, NoRepeatAnywhere, At, SecretPath;
    var decoded := Decode(t);
    if decoded.Err? {
      return Err(());
    }
    DistinctMeansNoRepeatAnywhere(t);
    var value := SanitizeValue(decoded.value);
    SanitizedStaysDistinct(t);
    forall p: Path ensures At(value, p) == if SecretPath(p) then None else SanitizedOption(At(t, p)) {
      SanitizeRemovesExactlySecrets(t, p);
    }
    return Ok(value);
  }
}
