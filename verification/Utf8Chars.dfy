// What the byte strings of module Utf8 stand for: UTF-8 as sequences of characters
// (section 3 of RFC 3629). A character is a Unicode scalar value.
module Utf8Chars {
  import opened Chars
  import opened Utf8
  import Str = Text

  function Tail(n: nat): Octet {
    (0x80 + n % 64) as char
  }

  function EncodeChar(c: char): (t: Text)
    ensures 0 < |t| <= 4
  {
    var n := c as int;
    if n < 0x80 then [c]
    else if n < 0x800 then [(0xC0 + n / 64) as char, Tail(n)]
    else if n < 0x1_0000 then [(0xE0 + n / 4096) as char, Tail(n / 64), Tail(n)]
    else [(0xF0 + n / 262144) as char, Tail(n / 4096), Tail(n / 64), Tail(n)]
  }

  function EncodeText(s: string): Text {
    if s == "" then [] else EncodeChar(s[0]) + EncodeText(s[1..])
  }

  // ---- well-formed is what some string is encoded as ----

  lemma CharIsUnit(c: char, rest: Text)
    ensures UnitLength(EncodeChar(c) + rest) == |EncodeChar(c)|
  {
    var t := EncodeChar(c) + rest;
    var n := c as int;
    assert n < 0xD800 || 0xE000 <= n <= 0x10_FFFF;
    if n >= 0x80 {
      assert t[0] == EncodeChar(c)[0] && t[1] == EncodeChar(c)[1];
      assert n >= 0x800 ==> t[2] == EncodeChar(c)[2];
      assert n >= 0x1_0000 ==> t[3] == EncodeChar(c)[3];
    }
  }

  lemma {:induction false} EncodedIsWellFormed(s: string)
    ensures WellFormed(EncodeText(s))
  {
    if s != "" {
      EncodedIsWellFormed(s[1..]);
      CharIsUnit(s[0], EncodeText(s[1..]));
      hide EncodeChar, UnitLength;
      assert EncodeText(s)[|EncodeChar(s[0])|..] == EncodeText(s[1..]);
    }
  }

  function Bits(c: Octet): int {
    c as int - 0x80
  }

  function UnitValue(t: Text): int
    requires t != [] && UnitLength(t) > 0
  {
    match UnitLength(t)
    case 1 => t[0] as int
    case 2 => (t[0] as int - 0xC0) * 64 + Bits(t[1])
    case 3 => (t[0] as int - 0xE0) * 4096 + Bits(t[1]) * 64 + Bits(t[2])
    case _ => (t[0] as int - 0xF0) * 262144 + Bits(t[1]) * 4096 + Bits(t[2]) * 64 + Bits(t[3])
  }

  lemma Digits2(a: int, b: int)
    requires 0 <= b < 64
    ensures (a * 64 + b) / 64 == a && (a * 64 + b) % 64 == b
  {
  }

  lemma Digits3(a: int, b: int, c: int)
    requires 0 <= b < 64 && 0 <= c < 64
    ensures var n := a * 4096 + b * 64 + c; n / 4096 == a && n / 64 % 64 == b && n % 64 == c
  {
    Digits2(a * 64 + b, c);
    Digits2(a, b);
  }

  lemma Digits4(a: int, b: int, c: int, d: int)
    requires 0 <= b < 64 && 0 <= c < 64 && 0 <= d < 64
    ensures var n := a * 262144 + b * 4096 + c * 64 + d;
            n / 262144 == a && n / 4096 % 64 == b && n / 64 % 64 == c && n % 64 == d
  {
    Digits2(a * 4096 + b * 64 + c, d);
    Digits3(a, b, c);
  }

  lemma UnitRange(t: Text)
    requires t != [] && UnitLength(t) > 0
    ensures 0 <= UnitValue(t) < 0xD800 || 0xE000 <= UnitValue(t) <= 0x10_FFFF
    ensures UnitLength(t) == 1 <==> UnitValue(t) < 0x80
    ensures UnitLength(t) == 2 <==> 0x80 <= UnitValue(t) < 0x800
    ensures UnitLength(t) == 3 <==> 0x800 <= UnitValue(t) < 0x1_0000
    ensures forall i :: 1 <= i < UnitLength(t) ==> 0 <= Bits(t[i]) < 64
  {
  }

  lemma UnitIsChar(t: Text) returns (c: char)
    requires t != [] && UnitLength(t) > 0
    ensures EncodeChar(c) == t[..UnitLength(t)]
  {
    UnitRange(t);
    hide UnitLength;
    c := UnitValue(t) as char;
    match UnitLength(t)
    case 1 => assert t[..1] == [t[0]];
    case 2 =>
      Digits2(t[0] as int - 0xC0, Bits(t[1]));
      assert t[..2] == [t[0], t[1]];
    case 3 =>
      Digits3(t[0] as int - 0xE0, Bits(t[1]), Bits(t[2]));
      assert t[..3] == [t[0], t[1], t[2]];
    case _ =>
      Digits4(t[0] as int - 0xF0, Bits(t[1]), Bits(t[2]), Bits(t[3]));
      assert t[..4] == [t[0], t[1], t[2], t[3]];
  }

  // A byte string is well-formed exactly when it is the encoding of some string.
  lemma {:induction false} WellFormedIsEncoded(t: Text) returns (s: string)
    requires WellFormed(t)
    ensures EncodeText(s) == t
    decreases |t|
  {
    if t == [] {
      s := "";
    } else {
      var c := UnitIsChar(t);
      var rest := WellFormedIsEncoded(t[UnitLength(t)..]);
      hide EncodeChar, UnitLength;
      s := [c] + rest;
      assert s[1..] == rest;
      assert t == t[..UnitLength(t)] + t[UnitLength(t)..];
    }
  }

  // ---- tests on bytes are tests on characters ----

  lemma WhitespaceCons(t: Text)
    requires t != []
    ensures HasWhitespace(t) <==> WhitespaceAt(t, 0) || HasWhitespace(t[1..])
  {
    forall i | 0 < i < |t| ensures WhitespaceAt(t, i) <==> WhitespaceAt(t[1..], i - 1) {
    }
    hide WhitespaceAt;
    if i :| 0 <= i < |t[1..]| && WhitespaceAt(t[1..], i) {
      assert WhitespaceAt(t, i + 1);
    }
    if i :| 0 <= i < |t| && WhitespaceAt(t, i) {
      assert i > 0 ==> WhitespaceAt(t[1..], i - 1);
    }
  }

  lemma CharWhitespace(c: char, rest: Text)
    ensures WhitespaceAt(EncodeChar(c) + rest, 0) <==> Str.IsWhitespace(c)
  {
    var t := EncodeChar(c) + rest;
    assert |EncodeChar(c)| > 1 ==> t[1] == EncodeChar(c)[1];
    assert |EncodeChar(c)| > 2 ==> t[2] == EncodeChar(c)[2];
  }

  predicate Tails(t: Text) {
    forall i :: 0 <= i < |t| ==> '\U{0080}' <= t[i] <= '\U{00BF}'
  }

  lemma TailIsNoWhitespace(t: Text)
    requires t != [] && '\U{0080}' <= t[0] <= '\U{00BF}'
    ensures !WhitespaceAt(t, 0)
  {
  }

  lemma {:induction false} WhitespaceSkips(tails: Text, rest: Text)
    requires Tails(tails)
    ensures HasWhitespace(tails + rest) <==> HasWhitespace(rest)
  {
    hide HasWhitespace, WhitespaceAt;
    if tails == [] {
      assert tails + rest == rest;
    } else {
      var all := tails + rest;
      assert all[1..] == tails[1..] + rest;
      TailIsNoWhitespace(all);
      WhitespaceCons(all);
      WhitespaceSkips(tails[1..], rest);
    }
  }

  lemma CharShape(c: char, rest: Text)
    ensures Tails(EncodeChar(c)[1..]) && (EncodeChar(c) + rest)[1..] == EncodeChar(c)[1..] + rest
  {
  }

  lemma CharThenRest(c: char, rest: Text)
    ensures HasWhitespace(EncodeChar(c) + rest) <==> Str.IsWhitespace(c) || HasWhitespace(rest)
    ensures HasControl(EncodeChar(c) + rest) <==> IsControl(c) || HasControl(rest)
  {
    CharWhitespace(c, rest);
    CharControl(c, rest);
    CharShape(c, rest);
    hide HasWhitespace, WhitespaceAt, HasControl, ControlAt, EncodeChar;
    WhitespaceCons(EncodeChar(c) + rest);
    WhitespaceSkips(EncodeChar(c)[1..], rest);
    ControlCons(EncodeChar(c) + rest);
    ControlSkips(EncodeChar(c)[1..], rest);
  }

  lemma CharControl(c: char, rest: Text)
    ensures ControlAt(EncodeChar(c) + rest, 0) <==> IsControl(c)
  {
    var t := EncodeChar(c) + rest;
    assert |EncodeChar(c)| > 1 ==> t[1] == EncodeChar(c)[1];
  }

  // The byte tests for whitespace and controls see just the characters of those classes.
  lemma {:induction false} ByteTestsSeeCharacters(s: string)
    ensures HasWhitespace(EncodeText(s)) <==> exists i :: 0 <= i < |s| && Str.IsWhitespace(s[i])
    ensures HasControl(EncodeText(s)) <==> exists i :: 0 <= i < |s| && IsControl(s[i])
  {
    if s != "" {
      ByteTestsSeeCharacters(s[1..]);
      CharThenRest(s[0], EncodeText(s[1..]));
      hide HasWhitespace, HasControl, EncodeChar, Str.IsWhitespace, IsControl;
      assert forall i :: 0 < i < |s| ==> s[i] == s[1..][i - 1];
    }
  }
}
