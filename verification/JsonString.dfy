// src-tauri/src/auth/http.rs: the hand-written JSON of the code exchange, read back by
// a string parser for section 7 of RFC 8259. A character is a Unicode scalar value.
module JsonString {
  import opened Wrappers
  import opened Chars

  type Byte = b: int | 0 <= b < 256

  // The control characters whose UTF-8 form has two bytes.
  predicate IsC1(c: char) {
    '\U{0080}' <= c <= '\U{009F}'
  }

  // char::encode_utf8 of a control character.
  function Utf8(c: char): (bytes: seq<Byte>)
    requires IsControl(c)
  {
    if c as int < 0x80 then [c as int] else [0xC0 + c as int / 64, 0x80 + c as int % 64]
  }

  function ByteEscape(b: Byte): string {
    ['\\', 'u', '0', '0', LowerHexDigit(b / 16), LowerHexDigit(b % 16)]
  }

  function ByteEscapes(bytes: seq<Byte>): string {
    if bytes == [] then "" else ByteEscape(bytes[0]) + ByteEscapes(bytes[1..])
  }

  function CharText(c: char): string {
    if c == '"' then "\\\""
    else if c == '\\' then "\\\\"
    else if c == '\n' then "\\n"
    else if c == '\r' then "\\r"
    else if c == '\t' then "\\t"
    else if IsControl(c) then ByteEscapes(Utf8(c))
    else [c]
  }

  function CharTexts(s: string): string {
    if s == "" then "" else CharText(s[0]) + CharTexts(s[1..])
  }

  function JsonText(s: string): string {
    "\"" + CharTexts(s) + "\""
  }

  // ---- a parser ----

  // The code unit of an escape u XXXX at the front.
  function CodeUnit(t: string): (unit: Option<int>)
    ensures unit.Some? ==> |t| >= 6 && 0 <= unit.value < 0x10000
  {
    if |t| >= 6 && t[0] == '\\' && t[1] == 'u' && HexValue(t[2]).Some? && HexValue(t[3]).Some?
       && HexValue(t[4]).Some? && HexValue(t[5]).Some?
    then Some(((HexValue(t[2]).value * 16 + HexValue(t[3]).value) * 16 + HexValue(t[4]).value) * 16 + HexValue(t[5]).value)
    else None
  }

  // One character and what follows it.
  datatype Parsed = Parsed(c: char, rest: string) | Malformed

  function SimpleEscape(c: char): Option<char> {
    match c
    case '"' => Some('"')
    case '\\' => Some('\\')
    case '/' => Some('/')
    case 'b' => Some('\U{0008}')
    case 'f' => Some('\U{000C}')
    case 'n' => Some('\n')
    case 'r' => Some('\r')
    case 't' => Some('\t')
    case _ => None
  }

  function ParseUnit(t: string, unit: int): (p: Parsed)
    requires CodeUnit(t) == Some(unit)
    ensures p.Parsed? ==> |p.rest| < |t|
  {
    if unit < 0xD800 || 0xE000 <= unit then Parsed(unit as char, t[6..])
    else if unit < 0xDC00 && CodeUnit(t[6..]).Some? && 0xDC00 <= CodeUnit(t[6..]).value < 0xE000
    then Parsed((0x10000 + (unit - 0xD800) * 0x400 + (CodeUnit(t[6..]).value - 0xDC00)) as char, t[12..])
    else Malformed
  }

  function ParseChar(t: string): (p: Parsed)
    requires t != ""
    ensures p.Parsed? ==> |p.rest| < |t|
  {
    if t[0] != '\\' then (if t[0] < ' ' || t[0] == '"' then Malformed else Parsed(t[0], t[1..]))
    else if |t| >= 2 && SimpleEscape(t[1]).Some? then Parsed(SimpleEscape(t[1]).value, t[2..])
    else
      match CodeUnit(t)
      case Some(unit) => ParseUnit(t, unit)
      case None => Malformed
  }

  datatype ParsedString = ParsedString(s: string, rest: string) | NoString

  function Consed(c: char, p: ParsedString): ParsedString {
    match p
    case ParsedString(s, rest) => ParsedString([c] + s, rest)
    case NoString => NoString
  }

  // The characters up to and including the closing quote.
  function ParseChars(t: string): ParsedString
    decreases |t|
  {
    if t == "" then NoString
    else if t[0] == '"' then ParsedString("", t[1..])
    else
      match ParseChar(t)
      case Parsed(c, rest) => Consed(c, ParseChars(rest))
      case Malformed => NoString
  }

  function ParseString(t: string): ParsedString {
    if t != "" && t[0] == '"' then ParseChars(t[1..]) else NoString
  }

  // ---- what comes back ----

  // The string the wire text stands for: a C1 control arrives as its two UTF-8 bytes,
  // each read as a character.
  function OnWire(s: string): string {
    if s == "" then "" else (if IsC1(s[0]) then ['\U{00C2}', s[0]] else [s[0]]) + OnWire(s[1..])
  }

  lemma ByteBack(b: Byte, rest: string)
    ensures ParseChars(ByteEscape(b) + rest) == Consed(b as char, ParseChars(rest))
  {
    var t := ByteEscape(b) + rest;
    HexRoundTrip(b / 16);
    HexRoundTrip(b % 16);
    assert HexValue('0') == Some(0);
    hide HexValue, LowerHexDigit;
    assert t[6..] == rest;
    assert CodeUnit(t) == Some(b);
    assert ParseChar(t) == Parsed(b as char, rest);
  }

  lemma C1Bytes(c: char)
    requires IsC1(c)
    ensures Utf8(c) == [0xC2, c as int]
  {
  }

  lemma ControlBack(c: char, rest: string)
    requires IsControl(c)
    ensures ParseChars(ByteEscapes(Utf8(c)) + rest)
         == if IsC1(c) then Consed('\U{00C2}', Consed(c, ParseChars(rest))) else Consed(c, ParseChars(rest))
  {
    hide ByteEscape, ParseChars;
    var n := c as int;
    ByteBack(n, rest);
    if IsC1(c) {
      C1Bytes(c);
      var bytes: seq<Byte> := [0xC2, n];
      assert bytes[1..] == [n];
      assert ByteEscapes([n]) == ByteEscape(n);
      assert ByteEscapes(bytes) == ByteEscape(0xC2) + ByteEscape(n);
      assert ByteEscapes(bytes) + rest == ByteEscape(0xC2) + (ByteEscape(n) + rest);
      ByteBack(0xC2, ByteEscape(n) + rest);
    } else {
      assert Utf8(c) == [n];
      assert ByteEscapes([n]) == ByteEscape(n);
    }
  }

  lemma SimpleBack(c: char, e: char, rest: string)
    requires SimpleEscape(e) == Some(c)
    ensures ParseChars(['\\', e] + rest) == Consed(c, ParseChars(rest))
  {
    hide SimpleEscape;
    var t := ['\\', e] + rest;
    assert t[2..] == rest;
    assert ParseChar(t) == Parsed(c, rest);
  }

  lemma PlainBack(c: char, rest: string)
    requires !IsControl(c) && c != '"' && c != '\\'
    ensures ParseChars([c] + rest) == Consed(c, ParseChars(rest))
  {
    var t := [c] + rest;
    assert t[1..] == rest;
    assert ParseChar(t) == Parsed(c, rest);
  }

  lemma CharBack(c: char, rest: string)
    ensures ParseChars(CharText(c) + rest)
         == if IsC1(c) then Consed('\U{00C2}', Consed(c, ParseChars(rest))) else Consed(c, ParseChars(rest))
  {
    hide ParseChars, ByteEscapes, Utf8;
    if c == '"' {
      SimpleBack(c, '"', rest);
    } else if c == '\\' {
      SimpleBack(c, '\\', rest);
    } else if c == '\n' {
      SimpleBack(c, 'n', rest);
    } else if c == '\r' {
      SimpleBack(c, 'r', rest);
    } else if c == '\t' {
      SimpleBack(c, 't', rest);
    } else if IsControl(c) {
      ControlBack(c, rest);
    } else {
      PlainBack(c, rest);
    }
  }

  lemma Associate(a: string, b: string, c: string)
    ensures (a + b) + c == a + (b + c)
  {
  }

  lemma {:induction false} CharsBack(s: string, rest: string)
    ensures ParseChars(CharTexts(s) + "\"" + rest) == ParsedString(OnWire(s), rest)
  {
    var end := "\"" + rest;
    Associate(CharTexts(s), "\"", rest);
    if s == "" {
      assert CharTexts(s) + end == end;
      assert end[1..] == rest;
    } else {
      var tail := CharTexts(s[1..]) + end;
      Associate(CharText(s[0]), CharTexts(s[1..]), end);
      Associate(CharTexts(s[1..]), "\"", rest);
      CharsBack(s[1..], rest);
      CharBack(s[0], tail);
      hide CharText, ParseChars, CharTexts;
      assert IsC1(s[0]) ==> ['\U{00C2}'] + ([s[0]] + OnWire(s[1..])) == ['\U{00C2}', s[0]] + OnWire(s[1..]);
    }
  }

  // Whatever the string and whatever follows it, the written text is one JSON string
  // that ends where it should; so no field can spill into the next one.
  lemma ParseJsonText(s: string, rest: string)
    ensures ParseString(JsonText(s) + rest) == ParsedString(OnWire(s), rest)
  {
    hide ParseChars, CharTexts, OnWire;
    var t := JsonText(s) + rest;
    assert t[1..] == CharTexts(s) + "\"" + rest;
    CharsBack(s, rest);
  }

  lemma {:induction false} OnWireLength(s: string)
    ensures |OnWire(s)| >= |s|
    ensures OnWire(s) == s <==> forall i :: 0 <= i < |s| ==> !IsC1(s[i])
    ensures |OnWire(s)| == |s| <==> forall i :: 0 <= i < |s| ==> !IsC1(s[i])
  {
    if s != "" {
      OnWireLength(s[1..]);
      assert (forall i :: 0 <= i < |s| ==> !IsC1(s[i])) <==> !IsC1(s[0]) && forall i :: 0 <= i < |s[1..]| ==> !IsC1(s[1..][i]) by {
        assert forall i :: 0 < i < |s| ==> s[i] == s[1..][i - 1];
      }
      hide IsC1;
      assert s == [s[0]] + s[1..];
    }
  }

  // The text reads back as the string it was written from exactly when the string has
  // no character from U+0080 to U+009F.
  lemma RoundTripIffNoC1(s: string, rest: string)
    ensures ParseString(JsonText(s) + rest) == ParsedString(s, rest) <==> forall i :: 0 <= i < |s| ==> !IsC1(s[i])
  {
    hide ParseString, JsonText;
    ParseJsonText(s, rest);
    OnWireLength(s);
  }

  // A concrete string that does not come back.
  lemma NextLineIsLost()
    ensures ParseString(JsonText("\U{0085}")) == ParsedString("\U{00C2}\U{0085}", "")
  {
    hide ParseString, JsonText;
    ParseJsonText("\U{0085}", "");
    assert JsonText("\U{0085}") + "" == JsonText("\U{0085}");
    assert OnWire("\U{0085}") == "\U{00C2}\U{0085}" + OnWire("");
  }

  // ---- the exchange body ----

  datatype ExchangeRequest = ExchangeRequest(code: string, codeVerifier: string, redirectUri: string)

  function Member(key: string, value: string): string {
    JsonText(key) + ":" + JsonText(value)
  }

  function BodyText(req: ExchangeRequest): string {
    "{\"code\":" + JsonText(req.code) + ",\"codeVerifier\":" + JsonText(req.codeVerifier)
    + ",\"redirectUri\":" + JsonText(req.redirectUri) + "}"
  }

  // The members of an object of strings, after its opening brace.
  function ParseMembers(t: string): Option<seq<(string, string)>>
    decreases |t|
  {
    match ParseString(t)
    case NoString => None
    case ParsedString(key, afterKey) =>
      if afterKey == "" || afterKey[0] != ':' || |afterKey| > |t| then None
      else ParseMemberValue(t, key, afterKey[1..])
  }

  function ParseMemberValue(t: string, key: string, valueText: string): Option<seq<(string, string)>>
    requires |valueText| < |t|
    decreases |t|, 0
  {
    match ParseString(valueText)
    case NoString => None
    case ParsedString(value, after) =>
      if after == "}" then Some([(key, value)])
      else if after == "" || after[0] != ',' || |after| > |t| then None
      else
        match ParseMembers(after[1..])
        case None => None
        case Some(more) => Some([(key, value)] + more)
  }

  function ParseObject(t: string): Option<seq<(string, string)>> {
    if t != "" && t[0] == '{' then ParseMembers(t[1..]) else None
  }

  lemma MemberBack(key: string, value: string, rest: string)
    requires forall i :: 0 <= i < |key| ==> !IsC1(key[i])
    ensures rest == "}" ==> ParseMembers(Member(key, value) + rest) == Some([(key, OnWire(value))])
    ensures rest != "" && rest[0] == ',' && ParseMembers(rest[1..]).Some? ==>
              ParseMembers(Member(key, value) + rest) == Some([(key, OnWire(value))] + ParseMembers(rest[1..]).value)
  {
    var t, afterKey := Member(key, value) + rest, ":" + JsonText(value) + rest;
    MemberText(key, value, rest);
    RoundTripIffNoC1(key, afterKey);
    ParseJsonText(value, rest);
    hide ParseString, JsonText, OnWire, IsC1, Member;
    ParseMember(t, key, afterKey);
  }

  lemma MemberText(key: string, value: string, rest: string)
    ensures Member(key, value) + rest == JsonText(key) + (":" + JsonText(value) + rest)
    ensures (":" + JsonText(value) + rest)[1..] == JsonText(value) + rest
    ensures |":" + JsonText(value) + rest| < |Member(key, value) + rest|
    ensures |rest| < |JsonText(value) + rest|
  {
    hide CharTexts;
  }

  // A key, a colon and what its value parses to.
  lemma ParseMember(t: string, key: string, afterKey: string)
    requires ParseString(t) == ParsedString(key, afterKey) && afterKey != "" && afterKey[0] == ':' && |afterKey| <= |t|
    ensures ParseMembers(t) == ParseMemberValue(t, key, afterKey[1..])
  {
    hide ParseString;
  }

  lemma KeyTexts()
    ensures JsonText("code") == "\"" + "code" + "\""
    ensures JsonText("codeVerifier") == "\"" + "codeVerifier" + "\""
    ensures JsonText("redirectUri") == "\"" + "redirectUri" + "\""
  {
    hide CharTexts;
    PlainText("code");
    PlainText("codeVerifier");
    PlainText("redirectUri");
  }

  lemma {:induction false} PlainText(s: string)
    requires forall i :: 0 <= i < |s| ==> 'A' <= s[i] <= 'z' && s[i] != '\\'
    ensures CharTexts(s) == s
  {
    if s != "" {
      PlainText(s[1..]);
      assert CharText(s[0]) == [s[0]];
      hide CharText;
      assert s == [s[0]] + s[1..];
    }
  }

  // The exchange body is one JSON object with exactly the three members, in order, each
  // with the value its string stands for on the wire; they are the request's own values
  // exactly when none of the three holds a C1 control.
  lemma BodyReadsBack(req: ExchangeRequest)
    ensures ParseObject(BodyText(req))
         == Some([("code", OnWire(req.code)), ("codeVerifier", OnWire(req.codeVerifier)), ("redirectUri", OnWire(req.redirectUri))])
    ensures ParseObject(BodyText(req))
              == Some([("code", req.code), ("codeVerifier", req.codeVerifier), ("redirectUri", req.redirectUri)])
            <==> forall i :: 0 <= i < |req.code + req.codeVerifier + req.redirectUri| ==>
                               !IsC1((req.code + req.codeVerifier + req.redirectUri)[i])
  {
    hide JsonText, OnWire, ParseString, ParseMembers, IsC1, Member;
    var third := Member("redirectUri", req.redirectUri) + "}";
    var second := Member("codeVerifier", req.codeVerifier) + ("," + third);
    var first := Member("code", req.code) + ("," + second);
    BodyTextIs(req);
    assert BodyText(req)[1..] == first;
    KeysHaveNoC1();
    MemberBack("redirectUri", req.redirectUri, "}");
    assert ("," + third)[1..] == third && ("," + second)[1..] == second;
    MemberBack("codeVerifier", req.codeVerifier, "," + third);
    MemberBack("code", req.code, "," + second);
    assert ParseMembers(first).value
        == [("code", OnWire(req.code)), ("codeVerifier", OnWire(req.codeVerifier)), ("redirectUri", OnWire(req.redirectUri))];
    OnWireLength(req.code);
    OnWireLength(req.codeVerifier);
    OnWireLength(req.redirectUri);
    AllThree(req);
  }

  lemma KeysHaveNoC1()
    ensures forall i :: 0 <= i < |"code"| ==> !IsC1("code"[i])
    ensures forall i :: 0 <= i < |"codeVerifier"| ==> !IsC1("codeVerifier"[i])
    ensures forall i :: 0 <= i < |"redirectUri"| ==> !IsC1("redirectUri"[i])
  {
  }

  lemma AllThree(req: ExchangeRequest)
    ensures var all := req.code + req.codeVerifier + req.redirectUri;
            (forall i :: 0 <= i < |all| ==> !IsC1(all[i])) <==>
              && (forall i :: 0 <= i < |req.code| ==> !IsC1(req.code[i]))
              && (forall i :: 0 <= i < |req.codeVerifier| ==> !IsC1(req.codeVerifier[i]))
              && (forall i :: 0 <= i < |req.redirectUri| ==> !IsC1(req.redirectUri[i]))
  {
    hide IsC1;
    var all := req.code + req.codeVerifier + req.redirectUri;
    assert forall i :: 0 <= i < |req.code| ==> req.code[i] == all[i];
    assert forall i :: 0 <= i < |req.codeVerifier| ==> req.codeVerifier[i] == all[|req.code| + i];
    assert forall i :: 0 <= i < |req.redirectUri| ==> req.redirectUri[i] == all[|req.code| + |req.codeVerifier| + i];
  }

  lemma BodyTextIs(req: ExchangeRequest)
    ensures BodyText(req) == "{" + (Member("code", req.code) + ("," + (Member("codeVerifier", req.codeVerifier)
                                 + ("," + (Member("redirectUri", req.redirectUri) + "}")))))
  {
    KeyTexts();
    FieldHeads();
    Regroup(JsonText("code"), JsonText(req.code), JsonText("codeVerifier"), JsonText(req.codeVerifier),
            JsonText("redirectUri"), JsonText(req.redirectUri));
    hide JsonText;
  }

  lemma FieldHeads()
    ensures "{\"code\":" == "{" + ("\"" + "code" + "\"") + ":"
    ensures ",\"codeVerifier\":" == "," + ("\"" + "codeVerifier" + "\"") + ":"
    ensures ",\"redirectUri\":" == "," + ("\"" + "redirectUri" + "\"") + ":"
  {
  }

  lemma Regroup(k1: string, v1: string, k2: string, v2: string, k3: string, v3: string)
    ensures ("{" + k1 + ":") + v1 + ("," + k2 + ":") + v2 + ("," + k3 + ":") + v3 + "}"
         == "{" + ((k1 + ":" + v1) + ("," + ((k2 + ":" + v2) + ("," + ((k3 + ":" + v3) + "}")))))
  {
  }

  // ---- the code ----

  lemma {:induction false} CharTextsAppend(s: string, c: char)
    ensures CharTexts(s + [c]) == CharTexts(s) + CharText(c)
  {
    hide CharText;
    if s == "" {
      assert s + [c] == [c];
    } else {
      CharTextsAppend(s[1..], c);
      assert (s + [c])[1..] == s[1..] + [c];
    }
  }

  method PushJsonString(out: string, s: string) returns (r: string)
    ensures r == out + JsonText(s)
  {
    hide CharTexts, Utf8, ByteEscapes;
    r := out + "\"";
    var i := 0;
    CharTextsOfNothing();
    assert s[..0] == "";
    while i < |s|
      invariant 0 <= i <= |s|
      invariant r == out + "\"" + CharTexts(s[..i])
    {
      assert s[..i + 1] == s[..i] + [s[i]];
      CharTextsAppend(s[..i], s[i]);
      var c := s[i];
      if c == '"' {
        r := r + "\\\"";
      } else if c == '\\' {
        r := r + "\\\\";
      } else if c == '\n' {
        r := r + "\\n";
      } else if c == '\r' {
        r := r + "\\r";
      } else if c == '\t' {
        r := r + "\\t";
      } else if IsControl(c) {
        var escaped := PushEscapes(Utf8(c));
        r := r + escaped;
      } else {
        r := r + [c];
      }
      i := i + 1;
    }
    assert s[..|s|] == s;
    r := r + "\"";
  }

  lemma CharTextsOfNothing()
    ensures CharTexts("") == ""
  {
  }

  method PushEscapes(bytes: seq<Byte>) returns (r: string)
    ensures r == ByteEscapes(bytes)
  {
    r := "";
    var i := |bytes|;
    while i > 0
      invariant 0 <= i <= |bytes|
      invariant r == ByteEscapes(bytes[i..])
    {
      i := i - 1;
      assert bytes[i..][1..] == bytes[i + 1..];
      r := ByteEscape(bytes[i]) + r;
    }
    assert bytes[0..] == bytes;
  }

  method ToJsonBytes(req: ExchangeRequest) returns (r: string)
    ensures r == BodyText(req)
  {
    r := "";
    r := r + "{\"code\":";
    r := PushJsonString(r, req.code);
    r := r + ",\"codeVerifier\":";
    r := PushJsonString(r, req.codeVerifier);
    r := r + ",\"redirectUri\":";
    r := PushJsonString(r, req.redirectUri);
    r := r + "}";
    hide JsonText;
    assert "" + "{\"code\":" == "{\"code\":";
  }
}
