// src-tauri/src/cloud_transport/client.rs: the value validators and build_request, for
// any operation spec.
module Request {
  import opened Wrappers
  import opened Chars
  import opened Utf8
  import opened Percent
  import opened UrlPath

  const BASE_ORIGIN: Text := "https://app.itops.sh"

  // ---- validators ----

  const SMUGGLE_PATTERNS: seq<Text> :=
    ["%2e", "%2f", "%5c", "%00", "%3f", "%23", "%252e", "%252f", "%255c"]

  predicate ContainsEncodedSmuggle(raw: Text) {
    exists i :: 0 <= i < |SMUGGLE_PATTERNS| && Contains(Lower(raw), SMUGGLE_PATTERNS[i])
  }

  predicate HasDelimiter(s: Text) {
    '/' in s || '\\' in s || '?' in s || '#' in s
  }

  // What the path validator refuses in a raw or once decoded value.
  predicate Traverses(s: Text) {
    HasControl(s) || HasDelimiter(s) || Contains(s, "..") || s == "." || ContainsEncodedSmuggle(s)
  }

  function ValidatePathParamValue(raw: Text): Result<(), TransportError> {
    if raw == [] then Err(InvalidInput)
    else if Traverses(raw) then Err(PathSmuggling)
    else if '%' in raw && Traverses(Lossy(Decode(raw))) then Err(PathSmuggling)
    else Ok(())
  }

  // The validator looks at the decoded value after ill-formed UTF-8 in it has been
  // replaced; none of its tests can tell the difference.
  lemma ReplacementHidesNothing(s: Text)
    ensures Traverses(Lossy(s)) <==> Traverses(s)
  {
    DotsAreAscii();
    hide Lossy, ContainsEncodedSmuggle, HasControl, Contains;
    LossyControl(s);
    LossyMember(s, '/');
    LossyMember(s, '\\');
    LossyMember(s, '?');
    LossyMember(s, '#');
    LossyContains(s, "..");
    LossySingle(s, '.');
    SmuggleSeesNothing(s);
  }

  lemma DotsAreAscii()
    ensures AllAscii("..")
  {
  }

  lemma PatternsAreAscii()
    ensures forall i :: 0 <= i < |SMUGGLE_PATTERNS| ==> AllAscii(SMUGGLE_PATTERNS[i]) && SMUGGLE_PATTERNS[i] != []
  {
  }

  lemma SmuggleSeesNothing(s: Text)
    ensures ContainsEncodedSmuggle(Lossy(s)) <==> ContainsEncodedSmuggle(s)
  {
    PatternsAreAscii();
    hide Lossy, Lower, Contains, AllAscii, SMUGGLE_PATTERNS;
    LossyLower(s);
    forall i | 0 <= i < |SMUGGLE_PATTERNS|
      ensures Contains(Lower(Lossy(s)), SMUGGLE_PATTERNS[i]) <==> Contains(Lower(s), SMUGGLE_PATTERNS[i])
    {
      LossyContains(Lower(s), SMUGGLE_PATTERNS[i]);
    }
  }

  function ValidateQueryValue(raw: Text): Result<(), TransportError> {
    var lower := Lower(raw);
    if HasControl(raw) then Err(InvalidInput)
    else if && ContainsEncodedSmuggle(raw)
            && (Contains(lower, "%2f") || Contains(lower, "%5c") || Contains(raw, ".."))
            && (Contains(raw, "..") || Contains(lower, "%2e%2e")) then Err(PathSmuggling)
    else Ok(())
  }

  // A path value is accepted exactly when it is not empty and nothing in it, as it stands or
  // decoded once, is a control, a delimiter, two dots, a dot alone or an encoded pattern.
  lemma PathValueMeans(raw: Text)
    ensures ValidatePathParamValue(raw).Ok? <==> raw != [] && !Traverses(raw) && !Traverses(Decode(raw))
    ensures ValidatePathParamValue(raw) == Err(InvalidInput) <==> raw == []
    ensures ValidatePathParamValue(raw).Err? ==> ValidatePathParamValue(raw).error in {InvalidInput, PathSmuggling}
  {
    ReplacementHidesNothing(Decode(raw));
    if '%' !in raw {
      DecodePlain(raw);
    }
    hide Traverses, Decode, Lossy;
  }

  // What is refused in a query value, put shorter: controls; two dots beside any encoded
  // pattern; encoded dots beside an encoded slash or backslash. Case does not matter.
  lemma QueryValueMeans(raw: Text)
    ensures ValidateQueryValue(raw) == Err(InvalidInput) <==> HasControl(raw)
    ensures ValidateQueryValue(raw) == Err(PathSmuggling) <==>
              && !HasControl(raw)
              && (|| (Contains(raw, "..") && exists i :: 0 <= i < |SMUGGLE_PATTERNS| && Contains(Lower(raw), SMUGGLE_PATTERNS[i]))
                  || (Contains(Lower(raw), "%2e%2e") && (Contains(Lower(raw), "%2f") || Contains(Lower(raw), "%5c"))))
    ensures ValidateQueryValue(raw).Err? ==> ValidateQueryValue(raw).error in {InvalidInput, PathSmuggling}
  {
    var lower := Lower(raw);
    assert SMUGGLE_PATTERNS[1] == "%2f" && SMUGGLE_PATTERNS[2] == "%5c";
    hide Contains, Lower, HasControl;
    if Contains(lower, "%2f") {
      assert Contains(lower, SMUGGLE_PATTERNS[1]);
    }
    if Contains(lower, "%5c") {
      assert Contains(lower, SMUGGLE_PATTERNS[2]);
    }
  }

  // ASCII letters, digits, minus and underscore.
  predicate IsSlug(s: Text) {
    s != [] && forall c :: c in s ==> c in LOWER_LETTERS || c in UPPER_LETTERS || c in DIGITS || c == '-' || c == '_'
  }

  lemma SlugCharacters(s: Text)
    requires IsSlug(s)
    ensures '%' !in s && '.' !in s && !HasDelimiter(s) && !HasControl(s)
  {
    forall c | c in s ensures c > ' ' && c < '\U{007F}' && c !in {'%', '.', '/', '\\', '?', '#'} {
      LetterSets(c);
    }
    hide UPPER_LETTERS, LOWER_LETTERS, DIGITS;
    forall i | 0 <= i < |s| ensures !ControlAt(s, i) {
      assert s[i] in s;
    }
  }

  lemma WithoutCharacter(s: Text, pat: Text, c: Octet)
    requires c !in s && c in pat
    ensures !Contains(s, pat)
  {
    var i :| 0 <= i < |pat| && pat[i] == c;
    forall k | 0 <= k <= |s| ensures !MatchAt(s, pat, k) {
      assert k + |pat| <= |s| ==> s[k..k + |pat|][i] == s[k + i];
    }
  }

  lemma WithoutPercent(s: Text)
    requires '%' !in s
    ensures !ContainsEncodedSmuggle(s)
  {
    assert '%' !in Lower(s) by {
      forall i | 0 <= i < |s| ensures Lower(s)[i] != '%' {
      }
    }
    PatternsHavePercent();
    hide Lower, Contains, SMUGGLE_PATTERNS;
    forall i | 0 <= i < |SMUGGLE_PATTERNS| ensures !Contains(Lower(s), SMUGGLE_PATTERNS[i]) {
      WithoutCharacter(Lower(s), SMUGGLE_PATTERNS[i], '%');
    }
  }

  lemma PatternsHavePercent()
    ensures forall i :: 0 <= i < |SMUGGLE_PATTERNS| ==> '%' in SMUGGLE_PATTERNS[i]
  {
    forall i | 0 <= i < |SMUGGLE_PATTERNS| ensures '%' in SMUGGLE_PATTERNS[i] {
      assert SMUGGLE_PATTERNS[i][0] == '%';
    }
  }

  // Ordinary identifiers are never refused.
  lemma SlugsPass(s: Text)
    requires IsSlug(s)
    ensures ValidatePathParamValue(s).Ok? && ValidateQueryValue(s).Ok?
  {
    SlugCharacters(s);
    WithoutPercent(s);
    WithoutCharacter(s, "..", '.');
    QueryValueMeans(s);
    hide IsSlug, HasControl, HasDelimiter, Contains, ContainsEncodedSmuggle, Lossy, Decode;
    assert s != ".";
  }

  // ---- what an accepted path value can turn into ----

  predicate NoEscape(s: Text, x: Octet) {
    forall k :: 0 <= k <= |s| ==> EscapeAt(s[k..]) != Some(x)
  }

  function EscapePattern(x: Octet): Text {
    ['%', LowerHexDigit(High(x)), LowerHexDigit(Low(x))]
  }

  lemma LowerOfHex(c: Octet)
    ensures HexValue(c).Some? ==> LowerOctet(c) == LowerHexDigit(HexValue(c).value)
  {
  }

  lemma HalvesOfGlue(high: Nibble, low: Nibble)
    ensures High(Glue(high, low)) == high && Low(Glue(high, low)) == low
  {
  }

  lemma EscapeLooksLike(s: Text, x: Octet, k: nat)
    requires k <= |s| && EscapeAt(s[k..]) == Some(x)
    ensures MatchAt(Lower(s), EscapePattern(x), k)
  {
    var a, b := s[k + 1], s[k + 2];
    assert s[k..][1] == a && s[k..][2] == b && s[k] == '%';
    LowerOfHex(a);
    LowerOfHex(b);
    HalvesOfGlue(HexValue(a).value, HexValue(b).value);
    LowerPercent();
    hide HexValue, UpperHexDigit, High, Low, Glue, LowerOctet;
    assert Lower(s)[k..k + 3] == [LowerOctet(s[k]), LowerOctet(a), LowerOctet(b)];
  }

  lemma LowerPercent()
    ensures LowerOctet('%') == '%'
  {
  }

  lemma NoPatternNoEscape(s: Text, x: Octet)
    requires !Contains(Lower(s), EscapePattern(x))
    ensures NoEscape(s, x)
  {
    var pat := EscapePattern(x);
    forall k | 0 <= k <= |s| ensures EscapeAt(s[k..]) != Some(x) {
      if EscapeAt(s[k..]) == Some(x) {
        EscapeLooksLike(s, x, k);
      }
    }
  }

  lemma {:induction false} DecodedMember(s: Text, x: Octet)
    requires NoEscape(s, x) && x !in s
    ensures x !in Decode(s)
  {
    if s != [] {
      assert s[0..] == s;
      var skip := if EscapeAt(s).Some? then 3 else 1;
      NoEscapeSuffix(s, x, skip);
      DecodedMember(s[skip..], x);
    }
  }

  lemma NoEscapeSuffix(s: Text, x: Octet, n: nat)
    requires NoEscape(s, x) && n <= |s|
    ensures NoEscape(s[n..], x)
  {
    forall k | 0 <= k <= |s[n..]| ensures EscapeAt(s[n..][k..]) != Some(x) {
      assert s[n..][k..] == s[n + k..];
    }
  }

  lemma DecodeSteps(s: Text)
    ensures s != [] ==>
              if EscapeAt(s).Some? then Decode(s) == [EscapeAt(s).value] + Decode(s[3..])
              else Decode(s) == [s[0]] + Decode(s[1..])
    ensures Decode(s) == [] <==> s == []
    ensures EscapeAt(s).Some? ==> |s| > 2
  {
  }

  lemma {:induction false} DecodedDots(s: Text)
    requires NoEscape(s, '.') && Contains(Decode(s), "..")
    ensures Contains(s, "..")
    decreases |s|
  {
    DecodeSteps(s);
    hide Decode, EscapeAt;
    var d := Decode(s);
    var k :| 0 <= k <= |d| && MatchAt(d, "..", k);
    assert d[k] == d[k..k + 2][0] && d[k + 1] == d[k..k + 2][1];
    assert s[0..] == s;
    var skip := if EscapeAt(s).Some? then 3 else 1;
    var rest := s[skip..];
    NoEscapeSuffix(s, '.', skip);
    if k > 0 {
      assert Decode(rest)[k - 1..k + 1] == d[k..k + 2];
      assert MatchAt(Decode(rest), "..", k - 1);
      DecodedDots(rest);
      var j :| 0 <= j <= |rest| && MatchAt(rest, "..", j);
      assert s[skip + j..skip + j + 2] == rest[j..j + 2];
      assert MatchAt(s, "..", skip + j);
    } else {
      DecodeSteps(rest);
      assert rest[0..] == rest;
      assert s[0..2] == "..";
      assert MatchAt(s, "..", 0);
    }
  }

  lemma DecodedDot(s: Text)
    requires NoEscape(s, '.') && Decode(s) == "."
    ensures s == "."
  {
    DecodeSteps(s);
    assert s[0..] == s;
    DecodeSteps(s[1..]);
  }

  // A value without patterns keeps its innocence through one more decoding, controls
  // other than NUL apart.
  predicate Innocent(s: Text) {
    !HasDelimiter(s) && '\0' !in s && !Contains(s, "..") && s != "."
  }

  lemma DecodingKeepsInnocence(s: Text)
    requires Innocent(s) && !ContainsEncodedSmuggle(s)
    ensures Innocent(Decode(s))
  {
    hide Decode, Contains, Lower, NoEscape;
    assert EscapePattern('.') == SMUGGLE_PATTERNS[0] && EscapePattern('/') == SMUGGLE_PATTERNS[1];
    assert EscapePattern('\\') == SMUGGLE_PATTERNS[2] && EscapePattern('\0') == SMUGGLE_PATTERNS[3];
    assert EscapePattern('?') == SMUGGLE_PATTERNS[4] && EscapePattern('#') == SMUGGLE_PATTERNS[5];
    hide EscapePattern;
    forall x | x in {'.', '/', '\\', '\0', '?', '#'} ensures NoEscape(s, x) {
      NoPatternNoEscape(s, x);
    }
    DecodedMember(s, '/');
    DecodedMember(s, '\\');
    DecodedMember(s, '?');
    DecodedMember(s, '#');
    DecodedMember(s, '\0');
    if Contains(Decode(s), "..") {
      DecodedDots(s);
    }
    if Decode(s) == "." {
      DecodedDot(s);
    }
  }

  lemma {:induction false} DecodePlain(s: Text)
    requires '%' !in s
    ensures Decode(s) == s
  {
    if s != [] {
      DecodePlain(s[1..]);
    }
  }

  // An accepted path value stays one segment that is no dot segment, however the far
  // end decodes it: as it stands, decoded once, and decoded twice. Together with the
  // encoding of build_request that is up to three decodings of the request's path.
  lemma AcceptedValueStaysOneSegment(raw: Text)
    requires ValidatePathParamValue(raw).Ok?
    ensures raw != [] && !IsDotSegment(raw)
    ensures Innocent(raw) && Innocent(Decode(raw)) && Innocent(Decode(Decode(raw)))
    ensures !HasControl(raw) && !HasControl(Decode(raw))
  {
    DotDotContains(raw);
    hide Decode, Lossy, Contains, ContainsEncodedSmuggle, HasControl;
    ReplacementHidesNothing(Decode(raw));
    NulIsControl(raw);
    NulIsControl(Decode(raw));
    if '%' !in raw {
      DecodePlain(raw);
    }
    DecodingKeepsInnocence(Decode(raw));
  }

  lemma NulIsControl(s: Text)
    ensures '\0' in s ==> HasControl(s)
  {
    if '\0' in s {
      var i :| 0 <= i < |s| && s[i] == '\0';
      assert ControlAt(s, i);
    }
  }

  lemma DotDotContains(s: Text)
    ensures s == ".." ==> Contains(s, "..")
  {
    if s == ".." {
      assert s[0..2] == s;
      assert MatchAt(s, "..", 0);
    }
  }

  // ---- build_request ----

  datatype Method = Get | Post | Put | Patch | Delete

  // Composite: an array or object, passed on to the body as it is.
  datatype Value = Str(s: Text) | Number(text: Text) | Boolean(b: bool) | Null | Composite(id: nat)

  datatype Spec = Spec(httpMethod: Method, path: Text, authenticated: bool, pathParams: seq<Text>, queryFields: seq<Text>,
                       bodyFields: seq<Text>, fixedBodyFields: seq<(Text, Text)>)

  type Entry = (Text, Value)

  // The entries of an object come in the order of its map, which is ascending by key.
  datatype Input = Object(entries: seq<Entry>) | NullInput | OtherInput

  // jsonHeader: Content-Type application/json. authorization: the Authorization header.
  datatype BuiltRequest = BuiltRequest(httpMethod: Method, url: Text, jsonHeader: bool, authorization: Option<Text>,
                                       body: Option<map<Text, Value>>)

  // validate_native_bearer. Trimming refuses nothing that the whitespace test lets pass.
  function ValidateNativeBearer(bearer: Option<Text>, authenticated: bool): Result<Option<Text>, TransportError> {
    if !authenticated then Ok(None)
    else if bearer.None? || bearer.value == [] || HasWhitespace(bearer.value) || HasControl(bearer.value)
    then Err(Unauthenticated)
    else Ok(bearer)
  }

  const BEARER_PREFIX: Text := "Bearer "

  const FORBIDDEN_INPUT_KEYS: seq<Text> :=
    ["method", "url", "uri", "origin", "host", "headers", "header", "authorization", "bearer", "token",
     "access_token", "refresh_token", "content-type", "content_type", "contenttype"]

  function Dashed(s: Text): Text {
    seq(|s|, i requires 0 <= i < |s| => if s[i] == '_' then '-' else s[i])
  }

  predicate IsForbiddenInputKey(key: Text) {
    exists i :: 0 <= i < |FORBIDDEN_INPUT_KEYS|
                && (FORBIDDEN_INPUT_KEYS[i] == Lower(key) || Dashed(FORBIDDEN_INPUT_KEYS[i]) == Lower(key))
  }

  predicate HitsFixedField(spec: Spec, key: Text) {
    exists i :: 0 <= i < |spec.fixedBodyFields| && Lower(key) == Lower(spec.fixedBodyFields[i].0)
  }

  predicate KeyAllowed(spec: Spec, key: Text) {
    !IsForbiddenInputKey(key) && !HitsFixedField(spec, key)
  }

  function AsStr(v: Value): Option<Text> {
    match v
    case Str(s) => Some(s)
    case Number(text) => Some(text)
    case Boolean(b) => Some(if b then "true" else "false")
    case _ => None
  }

  // How a scalar of the input is written in a path or query.
  predicate ReadsAs(v: Value, text: Text) {
    v in {Str(text), Number(text)} || (v == Boolean(true) && text == "true") || (v == Boolean(false) && text == "false")
  }

  lemma AsStrMeans(v: Value, text: Text)
    ensures AsStr(v) == Some(text) <==> ReadsAs(v, text)
    ensures AsStr(v).None? <==> v.Null? || v.Composite?
  {
  }

  // A key is allowed exactly when it is, letter case apart, no listed key, no listed key
  // with dashes for underscores, and no natively owned body field.
  lemma KeyAllowedMeans(spec: Spec, key: Text)
    ensures KeyAllowed(spec, key) <==>
              && (forall i :: 0 <= i < |FORBIDDEN_INPUT_KEYS| ==>
                    !SameText(key, FORBIDDEN_INPUT_KEYS[i]) && !SameText(key, Dashed(FORBIDDEN_INPUT_KEYS[i])))
              && (forall i :: 0 <= i < |spec.fixedBodyFields| ==> !SameText(key, spec.fixedBodyFields[i].0))
  {
    ForbiddenAreLower();
    hide FORBIDDEN_INPUT_KEYS, Lower, SameText, Dashed;
    forall i | 0 <= i < |FORBIDDEN_INPUT_KEYS|
      ensures FORBIDDEN_INPUT_KEYS[i] == Lower(key) <==> SameText(key, FORBIDDEN_INPUT_KEYS[i])
      ensures Dashed(FORBIDDEN_INPUT_KEYS[i]) == Lower(key) <==> SameText(key, Dashed(FORBIDDEN_INPUT_KEYS[i]))
    {
      LowerMeansSameText(key, FORBIDDEN_INPUT_KEYS[i]);
      LowerMeansSameText(key, Dashed(FORBIDDEN_INPUT_KEYS[i]));
    }
    forall i | 0 <= i < |spec.fixedBodyFields|
      ensures Lower(key) == Lower(spec.fixedBodyFields[i].0) <==> SameText(key, spec.fixedBodyFields[i].0)
    {
      LowerMeansSameText(key, spec.fixedBodyFields[i].0);
    }
  }

  predicate NoUpper(s: Text) {
    forall i :: 0 <= i < |s| ==> !('A' <= s[i] <= 'Z')
  }

  lemma NoUpperIsLower(s: Text)
    requires NoUpper(s)
    ensures Lower(s) == s && Lower(Dashed(s)) == Dashed(s)
  {
  }

  lemma FrontKeysHaveNoUpper()
    ensures |FORBIDDEN_INPUT_KEYS| == 15 && forall i :: 0 <= i < 8 ==> NoUpper(FORBIDDEN_INPUT_KEYS[i])
  {
  }

  lemma BackKeysHaveNoUpper()
    ensures forall i :: 8 <= i < 15 ==> NoUpper(FORBIDDEN_INPUT_KEYS[i])
  {
  }

  lemma ForbiddenAreLower()
    ensures forall i :: 0 <= i < |FORBIDDEN_INPUT_KEYS| ==>
              && Lower(FORBIDDEN_INPUT_KEYS[i]) == FORBIDDEN_INPUT_KEYS[i]
              && Lower(Dashed(FORBIDDEN_INPUT_KEYS[i])) == Dashed(FORBIDDEN_INPUT_KEYS[i])
  {
    hide FORBIDDEN_INPUT_KEYS, NoUpper, Lower, Dashed;
    FrontKeysHaveNoUpper();
    BackKeysHaveNoUpper();
    forall i | 0 <= i < |FORBIDDEN_INPUT_KEYS|
      ensures Lower(FORBIDDEN_INPUT_KEYS[i]) == FORBIDDEN_INPUT_KEYS[i]
      ensures Lower(Dashed(FORBIDDEN_INPUT_KEYS[i])) == Dashed(FORBIDDEN_INPUT_KEYS[i])
    {
      NoUpperIsLower(FORBIDDEN_INPUT_KEYS[i]);
    }
  }

  lemma SameTextOf(a: Text, b: Text)
    requires |a| == |b| && forall i :: 0 <= i < |a| ==>
               a[i] == b[i] || ('A' <= a[i] <= 'Z' && b[i] as int == a[i] as int + 32)
    ensures SameText(a, b)
  {
    forall i | 0 <= i < |a| ensures SameLetter(a[i], b[i]) {
      SameLetterMeans(a[i], b[i]);
    }
  }

  lemma KeysAt()
    ensures |FORBIDDEN_INPUT_KEYS| == 15
    ensures FORBIDDEN_INPUT_KEYS[7] == "authorization" && Dashed(FORBIDDEN_INPUT_KEYS[10]) == "access-token"
  {
    assert FORBIDDEN_INPUT_KEYS[10] == "access_token";
    assert Dashed("access_token") == "access-token";
  }

  // For instance, keys that would steer the transport.
  lemma TransportKeysAreForbidden(spec: Spec)
    ensures !KeyAllowed(spec, "Authorization") && !KeyAllowed(spec, "Access-Token")
  {
    SameTextOf("Authorization", "authorization");
    SameTextOf("Access-Token", "access-token");
    hide FORBIDDEN_INPUT_KEYS, KeyAllowed, SameText, Dashed;
    KeysAt();
    KeyAllowedMeans(spec, "Authorization");
    KeyAllowedMeans(spec, "Access-Token");
  }

  datatype Place = InPath | InQuery | InBody | Nowhere

  function PlaceOf(spec: Spec, key: Text): Place {
    if key in spec.pathParams then InPath
    else if key in spec.queryFields then InQuery
    else if key in spec.bodyFields then InBody
    else Nowhere
  }

  predicate EntryOk(spec: Spec, e: Entry) {
    match PlaceOf(spec, e.0)
    case InPath => AsStr(e.1).Some? && ValidatePathParamValue(AsStr(e.1).value).Ok?
    case InQuery => AsStr(e.1).Some? && ValidateQueryValue(AsStr(e.1).value).Ok?
    case InBody => true
    case Nowhere => false
  }

  predicate DistinctKeys(entries: seq<Entry>) {
    forall i, j :: 0 <= i < j < |entries| ==> entries[i].0 != entries[j].0
  }

  // The string entries at one place, in order.
  function StringsAt(spec: Spec, place: Place, entries: seq<Entry>): seq<(Text, Text)> {
    if entries == [] then []
    else
      var e := entries[|entries| - 1];
      StringsAt(spec, place, entries[..|entries| - 1])
        + if PlaceOf(spec, e.0) == place && AsStr(e.1).Some? then [(e.0, AsStr(e.1).value)] else []
  }

  function BodyAt(spec: Spec, entries: seq<Entry>): map<Text, Value> {
    if entries == [] then map[]
    else
      var e := entries[|entries| - 1];
      var m := BodyAt(spec, entries[..|entries| - 1]);
      if PlaceOf(spec, e.0).InBody? then m[e.0 := e.1] else m
  }

  function MapOf(pairs: seq<(Text, Text)>): map<Text, Text> {
    if pairs == [] then map[]
    else MapOf(pairs[..|pairs| - 1])[pairs[|pairs| - 1].0 := pairs[|pairs| - 1].1]
  }

  function WithFixed(m: map<Text, Value>, fixed: seq<(Text, Text)>): map<Text, Value> {
    if fixed == [] then m
    else WithFixed(m, fixed[..|fixed| - 1])[fixed[|fixed| - 1].0 := Str(fixed[|fixed| - 1].1)]
  }

  function PathOf(spec: Spec, entries: seq<Entry>): Result<Text, TransportError> {
    Materialize(spec.path, MapOf(StringsAt(spec, InPath, entries)))
  }

  predicate StartsWith(s: Text, prefix: Text) {
    prefix <= s
  }

  // When build_request succeeds.
  predicate Buildable(spec: Spec, entries: seq<Entry>) {
    && (forall i :: 0 <= i < |entries| ==> KeyAllowed(spec, entries[i].0) && EntryOk(spec, entries[i]))
    && DistinctKeys(entries)
    && (forall p :: p in spec.pathParams ==> p in MapOf(StringsAt(spec, InPath, entries)))
    && PathOf(spec, entries).Ok? && StartsWith(PathOf(spec, entries).value, "/api/")
    && !Contains(PathOf(spec, entries).value, "://")
  }

  function UrlOf(path: Text, query: seq<(Text, Text)>): Text {
    if query == [] then BASE_ORIGIN + path else BASE_ORIGIN + path + ['?'] + QueryText(query)
  }

  predicate SendsJson(spec: Spec) {
    spec.bodyFields != [] || spec.fixedBodyFields != [] || spec.httpMethod in {Post, Put, Patch}
  }

  function BodyOf(spec: Spec, entries: seq<Entry>): Option<map<Text, Value>> {
    if spec.bodyFields != [] || spec.fixedBodyFields != []
    then Some(WithFixed(BodyAt(spec, entries), spec.fixedBodyFields))
    else if spec.httpMethod in {Post, Put, Patch} then Some(map[])
    else None
  }

  lemma {:induction false} StringsAtKeys(spec: Spec, place: Place, entries: seq<Entry>)
    ensures forall p :: p in StringsAt(spec, place, entries) <==>
                          exists i :: 0 <= i < |entries| && PlaceOf(spec, entries[i].0) == place
                                      && AsStr(entries[i].1) == Some(p.1) && entries[i].0 == p.0
  {
    if entries != [] {
      var init, e := entries[..|entries| - 1], entries[|entries| - 1];
      StringsAtKeys(spec, place, init);
      hide PlaceOf, AsStr;
      assert forall i :: 0 <= i < |init| ==> entries[i] == init[i];
      forall p ensures p in StringsAt(spec, place, entries) <==>
                         exists i :: 0 <= i < |entries| && PlaceOf(spec, entries[i].0) == place
                                     && AsStr(entries[i].1) == Some(p.1) && entries[i].0 == p.0
      {
        if p in StringsAt(spec, place, init) {
          var i :| 0 <= i < |init| && PlaceOf(spec, init[i].0) == place && AsStr(init[i].1) == Some(p.1) && init[i].0 == p.0;
          assert entries[i] == init[i];
        }
        if i :| 0 <= i < |entries| && PlaceOf(spec, entries[i].0) == place && AsStr(entries[i].1) == Some(p.1)
                && entries[i].0 == p.0 {
          assert i < |init| ==> init[i] == entries[i];
        }
      }
    }
  }

  predicate UniqueKeys(pairs: seq<(Text, Text)>) {
    forall i, j :: 0 <= i < j < |pairs| ==> pairs[i].0 != pairs[j].0
  }

  lemma {:induction false} MapOfMembers(pairs: seq<(Text, Text)>)
    requires UniqueKeys(pairs)
    ensures forall k, v :: k in MapOf(pairs) && MapOf(pairs)[k] == v <==> (k, v) in pairs
  {
    if pairs != [] {
      MapOfMembers(pairs[..|pairs| - 1]);
    }
  }

  lemma {:induction false} StringsAtDistinct(spec: Spec, place: Place, entries: seq<Entry>)
    requires DistinctKeys(entries)
    ensures UniqueKeys(StringsAt(spec, place, entries))
  {
    if entries != [] {
      var init, e := entries[..|entries| - 1], entries[|entries| - 1];
      StringsAtDistinct(spec, place, init);
      StringsAtKeys(spec, place, init);
      hide PlaceOf, AsStr;
      var ps := StringsAt(spec, place, init);
      forall i | 0 <= i < |ps| ensures ps[i].0 != e.0 {
        assert ps[i] in ps;
        var j :| 0 <= j < |init| && init[j].0 == ps[i].0;
        assert entries[j] == init[j];
      }
      assert UniqueKeys(ps);
    }
  }

  predicate HasValue(entries: seq<Entry>, k: Text, v: Value) {
    exists i :: 0 <= i < |entries| && entries[i].0 == k && entries[i].1 == v
  }

  lemma HasValueOneMore(init: seq<Entry>, e: Entry, k: Text, v: Value)
    ensures HasValue(init + [e], k, v) <==> HasValue(init, k, v) || (e.0 == k && e.1 == v)
  {
    var all := init + [e];
    assert all[|init|] == e;
    assert forall i :: 0 <= i < |init| ==> all[i] == init[i];
  }

  lemma {:induction false} BodyAtMembers(spec: Spec, entries: seq<Entry>, k: Text, v: Value)
    requires DistinctKeys(entries)
    ensures k in BodyAt(spec, entries) && BodyAt(spec, entries)[k] == v <==> HasValue(entries, k, v) && PlaceOf(spec, k).InBody?
  {
    if entries != [] {
      hide PlaceOf;
      var init, e := entries[..|entries| - 1], entries[|entries| - 1];
      BodyAtMembers(spec, init, k, v);
      assert entries == init + [e];
      HasValueOneMore(init, e, k, v);
      if HasValue(init, k, v) {
        var i :| 0 <= i < |init| && init[i].0 == k && init[i].1 == v;
        assert entries[i].0 != entries[|entries| - 1].0;
      }
    }
  }

  lemma {:induction false} WithFixedMembers(m: map<Text, Value>, fixed: seq<(Text, Text)>)
    requires UniqueKeys(fixed)
    ensures var w := WithFixed(m, fixed);
            && (forall i :: 0 <= i < |fixed| ==> fixed[i].0 in w && w[fixed[i].0] == Str(fixed[i].1))
            && (forall k :: (forall i :: 0 <= i < |fixed| ==> fixed[i].0 != k) ==>
                              (k in w <==> k in m) && (k in m ==> w[k] == m[k]))
  {
    if fixed != [] {
      var init := fixed[..|fixed| - 1];
      assert forall i :: 0 <= i < |init| ==> init[i] == fixed[i];
      WithFixedMembers(m, init);
    }
  }

  predicate IsFixed(spec: Spec, k: Text, v: Value) {
    exists i :: 0 <= i < |spec.fixedBodyFields| && spec.fixedBodyFields[i].0 == k && Str(spec.fixedBodyFields[i].1) == v
  }

  // The body a request is built with holds each natively owned field with its own
  // value, whatever the input, and beside these exactly the input's body fields.
  lemma BodyIsInputAndFixed(spec: Spec, entries: seq<Entry>, k: Text, v: Value)
    requires Buildable(spec, entries) && UniqueKeys(spec.fixedBodyFields)
    requires spec.bodyFields != [] || spec.fixedBodyFields != []
    ensures var body := BodyOf(spec, entries).value;
            k in body && body[k] == v <==>
              || IsFixed(spec, k, v)
              || (HasValue(entries, k, v) && k in spec.bodyFields && k !in spec.pathParams && k !in spec.queryFields)
  {
    assert PlaceOf(spec, k).InBody? <==> k in spec.bodyFields && k !in spec.pathParams && k !in spec.queryFields;
    hide PlaceOf, PathOf, EntryOk, IsForbiddenInputKey, Lower, BodyAt, WithFixed, MapOf, StringsAt, Contains;
    BodyAtMembers(spec, entries, k, v);
    WithFixedMembers(BodyAt(spec, entries), spec.fixedBodyFields);
    if HasValue(entries, k, v) {
      var j :| 0 <= j < |entries| && entries[j].0 == k && entries[j].1 == v;
      assert KeyAllowed(spec, entries[j].0);
      assert forall i :: 0 <= i < |spec.fixedBodyFields| ==> spec.fixedBodyFields[i].0 != k;
    }
  }

  // ---- reading a built URL ----

  datatype Reading = Reading(segments: seq<Text>, query: seq<(Text, Text)>)

  // The path's raw segments and the decoded pairs of the query.
  function ReadUrl(rest: Text): Reading {
    match Find(rest, '?')
    case None => Reading(Split(rest, '/'), [])
    case Some(k) => Reading(Split(rest[..k], '/'), ParseQuery(rest[k + 1..]))
  }

  // A spec whose path is a template, its placeholders the declared path parameters.
  predicate SpecOk(spec: Spec, segs: seq<Seg>) {
    && TemplateOk(segs) && spec.path == TemplateText(segs)
    && (forall i :: 0 <= i < |segs| && segs[i].Hole? ==> segs[i].name in spec.pathParams)
    && (forall i :: 0 <= i < |segs| && segs[i].Lit? ==> '?' !in segs[i].text)
  }

  predicate HasEntry(entries: seq<Entry>, key: Text, text: Text) {
    exists i :: 0 <= i < |entries| && entries[i].0 == key && ReadsAs(entries[i].1, text)
  }

  predicate ScalarEntry(e: Entry, text: Text) {
    ReadsAs(e.1, text)
  }

  // An entry whose key is in one of the lists, with a value that its list takes.
  ghost predicate EntryChecked(spec: Spec, e: Entry) {
    && (e.0 in spec.pathParams || e.0 in spec.queryFields || e.0 in spec.bodyFields)
    && (e.0 in spec.pathParams ==> exists text :: ScalarEntry(e, text) && ValidatePathParamValue(text).Ok?)
    && (e.0 !in spec.pathParams && e.0 in spec.queryFields ==>
          exists text :: ScalarEntry(e, text) && ValidateQueryValue(text).Ok?)
  }

  // What a request needs: only allowed keys, each once and each in one of the spec's lists;
  // path and query values that are scalars and accepted by their validators; a value for
  // every path parameter; and a finished path below /api/ without a scheme in it.
  lemma BuildableMeans(spec: Spec, entries: seq<Entry>)
    ensures Buildable(spec, entries) <==>
              && (forall i :: 0 <= i < |entries| ==> KeyAllowed(spec, entries[i].0) && EntryChecked(spec, entries[i]))
              && (forall i, j :: 0 <= i < j < |entries| ==> entries[i].0 != entries[j].0)
              && (forall p :: p in spec.pathParams ==> exists i :: 0 <= i < |entries| && entries[i].0 == p)
              && PathOf(spec, entries).Ok? && "/api/" <= PathOf(spec, entries).value
              && !Contains(PathOf(spec, entries).value, "://")
  {
    hide ValidatePathParamValue, ValidateQueryValue, KeyAllowed, PathOf, Contains, MapOf, StringsAt, EntryChecked;
    forall i | 0 <= i < |entries| ensures EntryOk(spec, entries[i]) <==> EntryChecked(spec, entries[i]) {
      EntryOkMeans(spec, entries[i]);
    }
    if forall i :: 0 <= i < |entries| ==> EntryOk(spec, entries[i]) {
      forall p | p in spec.pathParams
        ensures p in MapOf(StringsAt(spec, InPath, entries)) <==> exists i :: 0 <= i < |entries| && entries[i].0 == p
      {
        PathParamPresent(spec, entries, p);
      }
    }
    hide EntryOk;
  }

  lemma EntryOkMeans(spec: Spec, e: Entry)
    ensures EntryOk(spec, e) <==> EntryChecked(spec, e)
  {
    hide ValidatePathParamValue, ValidateQueryValue;
    forall text ensures AsStr(e.1) == Some(text) <==> ScalarEntry(e, text) {
      AsStrMeans(e.1, text);
    }
    if AsStr(e.1).Some? {
      assert ScalarEntry(e, AsStr(e.1).value);
    }
  }

  lemma {:induction false} MapOfKeys(pairs: seq<(Text, Text)>, k: Text)
    ensures k in MapOf(pairs) <==> exists i :: 0 <= i < |pairs| && pairs[i].0 == k
  {
    if pairs != [] {
      var init := pairs[..|pairs| - 1];
      MapOfKeys(init, k);
      assert forall i :: 0 <= i < |init| ==> init[i] == pairs[i];
    }
  }

  lemma PathParamPresent(spec: Spec, entries: seq<Entry>, p: Text)
    requires p in spec.pathParams && forall i :: 0 <= i < |entries| ==> EntryOk(spec, entries[i])
    ensures p in MapOf(StringsAt(spec, InPath, entries)) <==> exists i :: 0 <= i < |entries| && entries[i].0 == p
  {
    hide ValidatePathParamValue, ValidateQueryValue, MapOf, StringsAt, AsStr;
    var pairs := StringsAt(spec, InPath, entries);
    MapOfKeys(pairs, p);
    StringsAtKeys(spec, InPath, entries);
    if i :| 0 <= i < |pairs| && pairs[i].0 == p {
      assert pairs[i] in pairs;
    }
    if i :| 0 <= i < |entries| && entries[i].0 == p {
      assert EntryOk(spec, entries[i]);
      assert (p, AsStr(entries[i].1).value) in pairs;
    }
  }

  // A built URL is the fixed origin followed by a path of the template's shape, whose
  // every placeholder segment decodes to that parameter's input and stays one segment
  // under further decoding, and by a query that reads back as exactly the input's query
  // fields, each once.
  lemma RequestRoundTrip(spec: Spec, segs: seq<Seg>, entries: seq<Entry>)
    requires SpecOk(spec, segs) && Buildable(spec, entries)
    ensures var path, query := PathOf(spec, entries).value, StringsAt(spec, InQuery, entries);
            var url := UrlOf(path, query);
            && StartsWith(url, BASE_ORIGIN)
            && var reading := ReadUrl(url[|BASE_ORIGIN|..]);
            && |reading.segments| == |segs|
            && (forall i :: 0 <= i < |segs| ==>
                  && !IsDotSegment(reading.segments[i])
                  && (segs[i].Lit? ==> reading.segments[i] == segs[i].text)
                  && (segs[i].Hole? ==>
                        var v := Decode(reading.segments[i]);
                        HasEntry(entries, segs[i].name, v) && Innocent(v) && Innocent(Decode(v)) && Innocent(Decode(Decode(v)))))
            && UniqueKeys(reading.query)
            && (forall k, v :: (k, v) in reading.query <==>
                  k in spec.queryFields && k !in spec.pathParams && HasEntry(entries, k, v))
  {
    hide Materialize, Decode, Find, Split, QueryText, ParseQuery, Innocent, StringsAt, MapOf, EntryOk, Contains, KeyAllowed, AsStr;
    var path, query := PathOf(spec, entries).value, StringsAt(spec, InQuery, entries);
    var values := MapOf(StringsAt(spec, InPath, entries));
    PathRoundTrip(segs, values);
    FilledHasNoQuestion(segs, values, path);
    forall i | 0 <= i < |segs| && segs[i].Hole? ensures PathValueOk(entries, segs[i].name, values[segs[i].name]) {
      PathValuesAreInputs(spec, entries, segs[i].name);
    }
    ReadBack(path, query);
    StringsAtDistinct(spec, InQuery, entries);
    QueryFieldsAreInputs(spec, entries);
  }

  predicate PathValueOk(entries: seq<Entry>, name: Text, v: Text) {
    HasEntry(entries, name, v) && Innocent(v) && Innocent(Decode(v)) && Innocent(Decode(Decode(v)))
  }

  lemma PathValuesAreInputs(spec: Spec, entries: seq<Entry>, name: Text)
    requires Buildable(spec, entries) && name in MapOf(StringsAt(spec, InPath, entries))
    ensures PathValueOk(entries, name, MapOf(StringsAt(spec, InPath, entries))[name])
  {
    hide StringsAt, MapOf, Decode, Innocent, ValidatePathParamValue, PathOf, Contains, KeyAllowed;
    var pairs := StringsAt(spec, InPath, entries);
    StringsAtDistinct(spec, InPath, entries);
    MapOfMembers(pairs);
    StringsAtKeys(spec, InPath, entries);
    var v := MapOf(pairs)[name];
    assert (name, v) in pairs;
    var i :| 0 <= i < |entries| && PlaceOf(spec, entries[i].0).InPath? && AsStr(entries[i].1) == Some(v) && entries[i].0 == name;
    AsStrMeans(entries[i].1, v);
    assert HasEntry(entries, name, v);
    assert EntryOk(spec, entries[i]);
    AcceptedValueStaysOneSegment(v);
  }

  lemma QueryFieldsAreInputs(spec: Spec, entries: seq<Entry>)
    ensures forall k, v :: (k, v) in StringsAt(spec, InQuery, entries) <==>
                             k in spec.queryFields && k !in spec.pathParams && HasEntry(entries, k, v)
  {
    hide AsStr, StringsAt;
    StringsAtKeys(spec, InQuery, entries);
    forall k, v ensures (k, v) in StringsAt(spec, InQuery, entries) <==>
                          k in spec.queryFields && k !in spec.pathParams && HasEntry(entries, k, v)
    {
      if (k, v) in StringsAt(spec, InQuery, entries) {
        var i :| 0 <= i < |entries| && PlaceOf(spec, entries[i].0) == InQuery && AsStr(entries[i].1) == Some(v) && entries[i].0 == k;
        AsStrMeans(entries[i].1, v);
        assert HasEntry(entries, k, v);
      }
      if k in spec.queryFields && k !in spec.pathParams && HasEntry(entries, k, v) {
        var i :| 0 <= i < |entries| && entries[i].0 == k && ReadsAs(entries[i].1, v);
        AsStrMeans(entries[i].1, v);
        assert PlaceOf(spec, entries[i].0) == InQuery && (k, v).0 == k && (k, v).1 == v;
      }
    }
  }

  lemma FilledHasNoQuestion(segs: seq<Seg>, values: map<Text, Text>, path: Text)
    requires TemplateOk(segs) && Materialize(TemplateText(segs), values) == Ok(path)
    requires forall i :: 0 <= i < |segs| && segs[i].Lit? ==> '?' !in segs[i].text
    ensures '?' !in path
  {
    hide Expand, Encode, Decode, Find, Split, Join;
    PathRoundTrip(segs, values);
    ExpandTemplate(segs, values);
    var parts := Filled(segs, values);
    JoinMembers(parts, '/');
    forall i | 0 <= i < |parts| ensures '?' !in parts[i] {
      if segs[i].Hole? {
        EncodeAlphabet(values[segs[i].name]);
      }
    }
  }

  lemma ReadBack(path: Text, query: seq<(Text, Text)>)
    requires '?' !in path
    ensures var url := UrlOf(path, query);
            StartsWith(url, BASE_ORIGIN) && ReadUrl(url[|BASE_ORIGIN|..]) == Reading(Split(path, '/'), query)
  {
    hide Split, QueryText, ParseQuery, Find, BASE_ORIGIN;
    var rest := UrlOf(path, query)[|BASE_ORIGIN|..];
    if query == [] {
      assert rest == path;
      NoFind(path, '?');
    } else {
      assert rest == path + ['?'] + QueryText(query);
      assert rest[..|path|] == path && rest[|path| + 1..] == QueryText(query);
      FindIs(rest, '?', |path|);
      QueryRoundTrip(query);
    }
  }

  lemma NoFind(s: Text, c: Octet)
    requires c !in s
    ensures Find(s, c) == None
  {
    hide Find;
    var at := Find(s, c);
  }

  // ---- the code ----

  method CheckKeys(spec: Spec, entries: seq<Entry>) returns (ok: bool)
    ensures ok <==> forall i :: 0 <= i < |entries| ==> KeyAllowed(spec, entries[i].0)
  {
    hide Lower, IsForbiddenInputKey;
    var i := 0;
    while i < |entries|
      invariant 0 <= i <= |entries|
      invariant forall j :: 0 <= j < i ==> KeyAllowed(spec, entries[j].0)
    {
      if IsForbiddenInputKey(entries[i].0) {
        assert !KeyAllowed(spec, entries[i].0);
        return false;
      }
      var f := 0;
      while f < |spec.fixedBodyFields|
        invariant 0 <= f <= |spec.fixedBodyFields|
        invariant forall g :: 0 <= g < f ==> Lower(entries[i].0) != Lower(spec.fixedBodyFields[g].0)
      {
        if Lower(entries[i].0) == Lower(spec.fixedBodyFields[f].0) {
          assert !KeyAllowed(spec, entries[i].0);
          return false;
        }
        f := f + 1;
      }
      i := i + 1;
    }
    return true;
  }

  datatype Sorted = Sorted(path: map<Text, Text>, query: seq<(Text, Text)>, body: map<Text, Value>)

  function SortedOf(spec: Spec, entries: seq<Entry>): Sorted {
    Sorted(MapOf(StringsAt(spec, InPath, entries)), StringsAt(spec, InQuery, entries), BodyAt(spec, entries))
  }

  // A key already seen: the contains_key tests.
  predicate AlreadySeen(sorted: Sorted, key: Text) {
    key in sorted.path || key in sorted.body || exists i :: 0 <= i < |sorted.query| && sorted.query[i].0 == key
  }

  lemma SortOneMore(spec: Spec, entries: seq<Entry>, i: nat)
    requires i < |entries|
    ensures var a, b, e := SortedOf(spec, entries[..i]), SortedOf(spec, entries[..i + 1]), entries[i];
            b == match PlaceOf(spec, e.0)
                 case InPath => if AsStr(e.1).Some? then a.(path := a.path[e.0 := AsStr(e.1).value]) else a
                 case InQuery => if AsStr(e.1).Some? then a.(query := a.query + [(e.0, AsStr(e.1).value)]) else a
                 case InBody => a.(body := a.body[e.0 := e.1])
                 case Nowhere => a
  {
    hide PlaceOf, AsStr;
    assert entries[..i + 1][..i] == entries[..i];
    var a := StringsAt(spec, InPath, entries[..i]);
    var e := entries[i];
    if AsStr(e.1).Some? {
      var added := a + [(e.0, AsStr(e.1).value)];
      assert added[..|a|] == a;
    }
    assert a + [] == a;
    assert StringsAt(spec, InQuery, entries[..i]) + [] == StringsAt(spec, InQuery, entries[..i]);
  }

  lemma {:induction false} SeenBefore(spec: Spec, entries: seq<Entry>, key: Text)
    requires forall i :: 0 <= i < |entries| ==> EntryOk(spec, entries[i])
    ensures AlreadySeen(SortedOf(spec, entries), key) <==> exists i :: 0 <= i < |entries| && entries[i].0 == key
  {
    hide ValidatePathParamValue, ValidateQueryValue;
    if entries != [] {
      var n := |entries| - 1;
      var init := entries[..n];
      assert forall i :: 0 <= i < n ==> init[i] == entries[i];
      SeenBefore(spec, init, key);
      SortOneMore(spec, entries, n);
      assert entries[..n + 1] == entries;
      hide SortedOf, AsStr;
      AlreadySeenOneMore(SortedOf(spec, init), SortedOf(spec, entries), spec, entries[n], key);
    }
  }

  lemma AlreadySeenOneMore(a: Sorted, b: Sorted, spec: Spec, e: Entry, key: Text)
    requires EntryOk(spec, e)
    requires b == match PlaceOf(spec, e.0)
                  case InPath => if AsStr(e.1).Some? then a.(path := a.path[e.0 := AsStr(e.1).value]) else a
                  case InQuery => if AsStr(e.1).Some? then a.(query := a.query + [(e.0, AsStr(e.1).value)]) else a
                  case InBody => a.(body := a.body[e.0 := e.1])
                  case Nowhere => a
    ensures AlreadySeen(b, key) <==> AlreadySeen(a, key) || e.0 == key
  {
    hide ValidatePathParamValue, ValidateQueryValue;
    if PlaceOf(spec, e.0).InQuery? {
      assert b.query[|a.query|].0 == e.0;
      assert forall i :: 0 <= i < |a.query| ==> b.query[i] == a.query[i];
    }
  }

  // The classifying loop.
  method SortEntries(spec: Spec, entries: seq<Entry>) returns (r: Result<Sorted, TransportError>)
    ensures r.Ok? <==> DistinctKeys(entries) && forall i :: 0 <= i < |entries| ==> EntryOk(spec, entries[i])
    ensures r.Ok? ==> r.value == SortedOf(spec, entries)
  {
    hide SortedOf, PlaceOf, AsStr, ValidatePathParamValue, ValidateQueryValue;
    var sorted := Sorted(map[], [], map[]);
    SortedOfNothing(spec);
    assert entries[..0] == [];
    var i := 0;
    while i < |entries|
      invariant 0 <= i <= |entries|
      invariant sorted == SortedOf(spec, entries[..i])
      invariant forall j :: 0 <= j < i ==> EntryOk(spec, entries[j])
      invariant DistinctKeys(entries[..i])
    {
      var (key, value) := entries[i];
      SeenBefore(spec, entries[..i], key);
      SortOneMore(spec, entries, i);
      if AlreadySeen(sorted, key) {
        ghost var j :| 0 <= j < i && entries[..i][j].0 == key;
        assert entries[j].0 == entries[i].0;
        return Err(InvalidInput);
      }
      var text := AsStr(value);
      match PlaceOf(spec, key) {
        case InPath =>
          if text.None? { return Err(InvalidInput); }
          var check := ValidatePathParamValue(text.value);
          if check.Err? { return Err(check.error); }
          sorted := sorted.(path := sorted.path[key := text.value]);
        case InQuery =>
          if text.None? { return Err(InvalidInput); }
          var check := ValidateQueryValue(text.value);
          if check.Err? { return Err(check.error); }
          sorted := sorted.(query := sorted.query + [(key, text.value)]);
        case InBody =>
          sorted := sorted.(body := sorted.body[key := value]);
        case Nowhere =>
          return Err(InvalidInput);
      }
      DistinctOneMore(entries, i);
      i := i + 1;
    }
    assert entries[..|entries|] == entries;
    return Ok(sorted);
  }

  lemma SortedOfNothing(spec: Spec)
    ensures SortedOf(spec, []) == Sorted(map[], [], map[])
  {
  }

  lemma DistinctOneMore(entries: seq<Entry>, i: nat)
    requires i < |entries| && DistinctKeys(entries[..i])
    requires !exists j :: 0 <= j < i && entries[..i][j].0 == entries[i].0
    ensures DistinctKeys(entries[..i + 1])
  {
    var before, after := entries[..i], entries[..i + 1];
    assert after == before + [entries[i]];
    forall j | 0 <= j < i ensures before[j].0 != entries[i].0 {
    }
  }

  method MergeFixed(body: map<Text, Value>, fixed: seq<(Text, Text)>) returns (m: map<Text, Value>)
    ensures m == WithFixed(body, fixed)
  {
    m := body;
    var i := 0;
    while i < |fixed|
      invariant 0 <= i <= |fixed|
      invariant m == WithFixed(body, fixed[..i])
    {
      assert fixed[..i + 1][..i] == fixed[..i];
      m := m[fixed[i].0 := Str(fixed[i].1)];
      i := i + 1;
    }
    assert fixed[..|fixed|] == fixed;
  }

  // A bearer is used only where one is asked for, and then it must be there, not empty and
  // free of whitespace and controls.
  lemma BearerMeans(bearer: Option<Text>, authenticated: bool)
    ensures var r := ValidateNativeBearer(bearer, authenticated);
            && (!authenticated ==> r == Ok(None))
            && (authenticated ==>
                  && (r.Ok? <==> bearer.Some? && bearer.value != [] && !HasWhitespace(bearer.value) && !HasControl(bearer.value))
                  && (r.Ok? ==> r.value == bearer) && (r.Err? ==> r.error == Unauthenticated))
  {
  }

  // build_request. A request is built exactly when the bearer is usable or not asked for
  // and the input is buildable; a bearer goes into the Authorization header and nowhere
  // else, and only for an operation that asks for one.
  method BuildRequest(spec: Spec, input: Input, bearer: Option<Text>) returns (r: Result<BuiltRequest, TransportError>)
    ensures ValidateNativeBearer(bearer, spec.authenticated).Err? ==> r == Err(Unauthenticated)
    ensures ValidateNativeBearer(bearer, spec.authenticated).Ok? && input.OtherInput? ==> r == Err(InvalidInput)
    ensures ValidateNativeBearer(bearer, spec.authenticated).Ok? && !input.OtherInput? ==>
              var entries := if input.Object? then input.entries else [];
              && (r.Ok? <==> Buildable(spec, entries))
              && (r.Ok? ==> r.value == BuiltRequest(
                    spec.httpMethod, UrlOf(PathOf(spec, entries).value, StringsAt(spec, InQuery, entries)), SendsJson(spec),
                    if spec.authenticated then Some(BEARER_PREFIX + bearer.value) else None, BodyOf(spec, entries)))
    ensures r.Ok? ==>
              var fields := spec.bodyFields != [] || spec.fixedBodyFields != [];
              && r.value.authorization == (if spec.authenticated then Some("Bearer " + bearer.value) else None)
              && (r.value.jsonHeader <==> fields || spec.httpMethod in {Post, Put, Patch})
              && (r.value.body.Some? <==> r.value.jsonHeader)
              && (!fields && r.value.body.Some? ==> r.value.body.value == map[])
  {
    hide KeyAllowed, EntryOk, Materialize, StringsAt, MapOf, BodyAt, QueryText, Contains, WithFixed, HasWhitespace, HasControl;
    var token := ValidateNativeBearer(bearer, spec.authenticated);
    if token.Err? {
      return Err(Unauthenticated);
    }
    if input.OtherInput? {
      return Err(InvalidInput);
    }
    var entries := if input.Object? then input.entries else [];
    var keysOk := CheckKeys(spec, entries);
    if !keysOk {
      return Err(InvalidInput);
    }
    var sorted := SortEntries(spec, entries);
    if sorted.Err? {
      return Err(sorted.error);
    }
    var i := 0;
    while i < |spec.pathParams|
      invariant 0 <= i <= |spec.pathParams|
      invariant forall j :: 0 <= j < i ==> spec.pathParams[j] in sorted.value.path
    {
      if spec.pathParams[i] !in sorted.value.path {
        return Err(InvalidInput);
      }
      i := i + 1;
    }
    var path := MaterializePath(spec.path, sorted.value.path);
    if path.Err? {
      return Err(path.error);
    }
    if !StartsWith(path.value, "/api/") || Contains(path.value, "://") {
      return Err(PathSmuggling);
    }
    var url := BASE_ORIGIN + path.value;
    if sorted.value.query != [] {
      url := AppendQuery(url + ['?'], sorted.value.query);
    }
    var body := None;
    if spec.bodyFields != [] || spec.fixedBodyFields != [] {
      var merged := MergeFixed(sorted.value.body, spec.fixedBodyFields);
      body := Some(merged);
    } else if spec.httpMethod in {Post, Put, Patch} {
      body := Some(map[]);
    }
    if !StartsWith(url, BASE_ORIGIN) {
      assert false;
    }
    var authorization := None;
    if token.value.Some? {
      authorization := Some(BEARER_PREFIX + token.value.value);
    }
    return Ok(BuiltRequest(spec.httpMethod, url, body.Some?, authorization, body));
  }
}
