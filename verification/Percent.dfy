// Percent-encoding of src-tauri/src/cloud_transport/client.rs and
// src-tauri/src/auth/pkce.rs (section 2.1 of RFC 3986).
module Percent {
  import opened Wrappers
  import opened Chars
  import opened Utf8

  // Unreserved characters: section 2.3 of RFC 3986.
  predicate Unreserved(c: char) {
    'A' <= c <= 'Z' || 'a' <= c <= 'z' || '0' <= c <= '9' || c == '-' || c == '_' || c == '.' || c == '~'
  }

  function High(c: Octet): Nibble {
    c as int / 16
  }

  function Low(c: Octet): Nibble {
    c as int % 16
  }

  function Glue(high: Nibble, low: Nibble): Octet {
    (high * 16 + low) as char
  }

  function EncodeOctet(c: Octet): Text {
    if Unreserved(c) then [c] else ['%', UpperHexDigit(High(c)), UpperHexDigit(Low(c))]
  }

  function Encode(s: Text): Text {
    if s == [] then [] else EncodeOctet(s[0]) + Encode(s[1..])
  }

  // An escape at the front of s, decoded.
  function EscapeAt(s: Text): Option<Octet> {
    if |s| > 2 && s[0] == '%' && HexValue(s[1]).Some? && HexValue(s[2]).Some?
    then Some(Glue(HexValue(s[1]).value, HexValue(s[2]).value))
    else None
  }

  // The bytes of percent_decode_lenient: a percent sign that starts no escape stands for
  // itself.
  function Decode(s: Text): Text {
    if s == [] then []
    else if EscapeAt(s).Some? then [EscapeAt(s).value] + Decode(s[3..])
    else [s[0]] + Decode(s[1..])
  }

  // The lenient decoding, front by front: an escape of two digits in either case gives its
  // byte; anything else, a percent sign without two digits included, stands for itself.
  lemma DecodeMeans(s: Text, high: Nibble, low: Nibble)
    ensures Decode([]) == []
    ensures |UPPER_HEX| == |LOWER_HEX| == 16
    ensures |s| >= 3 && s[0] == '%' && s[1] in {UPPER_HEX[high], LOWER_HEX[high]} && s[2] in {UPPER_HEX[low], LOWER_HEX[low]} ==>
              Decode(s) == [(high * 16 + low) as char] + Decode(s[3..])
    ensures s != [] && (s[0] != '%' || |s| < 3 || (forall n: Nibble :: s[1] !in {UPPER_HEX[n], LOWER_HEX[n]})
                        || (forall n: Nibble :: s[2] !in {UPPER_HEX[n], LOWER_HEX[n]})) ==>
              Decode(s) == [s[0]] + Decode(s[1..])
  {
    HexTables();
    if |s| >= 3 {
      HexDigitsMean(high, s[1]);
      HexDigitsMean(low, s[2]);
      if HexValue(s[1]).Some? {
        HexDigitsMean(HexValue(s[1]).value, s[1]);
      }
      if HexValue(s[2]).Some? {
        HexDigitsMean(HexValue(s[2]).value, s[2]);
      }
    }
    hide UPPER_HEX, LOWER_HEX, HexValue;
  }

  lemma GlueHalves(c: Octet)
    ensures Glue(High(c), Low(c)) == c
  {
    assert c as int / 16 * 16 + c as int % 16 == c as int;
  }

  lemma DecodeEncodedOctet(c: Octet, rest: Text)
    ensures Decode(EncodeOctet(c) + rest) == [c] + Decode(rest)
  {
    var text := EncodeOctet(c) + rest;
    if Unreserved(c) {
      assert text[1..] == rest;
    } else {
      GlueHalves(c);
      HexRoundTrip(High(c));
      HexRoundTrip(Low(c));
      hide UpperHexDigit, HexValue, Glue, High, Low;
      assert text[3..] == rest;
      assert EscapeAt(text) == Some(c);
    }
  }

  lemma Associate(a: Text, b: Text, c: Text)
    ensures (a + b) + c == a + (b + c)
  {
  }

  lemma EncodeCons(s: Text)
    requires s != []
    ensures Encode(s) == EncodeOctet(s[0]) + Encode(s[1..])
  {
  }

  lemma {:induction false} DecodeEncodeThen(s: Text, rest: Text)
    ensures Decode(Encode(s) + rest) == s + Decode(rest)
    decreases |s|
  {
    if s == [] {
      assert Encode(s) + rest == rest;
    } else {
      EncodeCons(s);
      hide *;
      Associate(EncodeOctet(s[0]), Encode(s[1..]), rest);
      DecodeEncodeThen(s[1..], rest);
      DecodeEncodedOctet(s[0], Encode(s[1..]) + rest);
      Associate([s[0]], s[1..], Decode(rest));
      assert s == [s[0]] + s[1..];
    }
  }

  // Decoding takes back every encoded string, whatever bytes it holds.
  lemma {:induction false} DecodeEncode(s: Text)
    ensures Decode(Encode(s)) == s
  {
    hide Encode;
    DecodeEncodeThen(s, []);
    assert Encode(s) + [] == Encode(s);
  }

  // What can occur in an encoded string: no delimiter of sections 2.2 and 3 of RFC 3986.
  predicate Encoded(c: char) {
    Unreserved(c) || c == '%'
  }

  lemma {:induction false} EncodeAlphabet(s: Text)
    ensures forall i :: 0 <= i < |Encode(s)| ==> Encoded(Encode(s)[i])
  {
    if s != [] {
      EncodeAlphabet(s[1..]);
    }
  }

  predicate UpperHex(c: char) {
    '0' <= c <= '9' || 'A' <= c <= 'F'
  }

  const UNRESERVED_MARKS := "-_.~"

  predicate Plain(c: char) {
    c in LOWER_LETTERS || c in UPPER_LETTERS || c in DIGITS || c in UNRESERVED_MARKS
  }

  // One byte: letters, digits and four marks stand for themselves, every other byte becomes
  // a percent sign and the two digits of its value.
  lemma OctetIsPlainOrEscaped(c: Octet)
    ensures Encode([c]) == if Plain(c) then [c] else ['%', UPPER_HEX[c as int / 16], UPPER_HEX[c as int % 16]]
  {
    LetterSets(c);
    HexTables();
    HexDigitsMean(High(c), c);
    HexDigitsMean(Low(c), c);
    assert Encode([c]) == EncodeOctet(c) + Encode([]);
    hide UpperHexDigit, UPPER_HEX, LOWER_LETTERS, UPPER_LETTERS, DIGITS;
  }

  // A string is encoded byte by byte.
  lemma {:induction false} EncodeConcat(a: Text, b: Text)
    ensures Encode(a + b) == Encode(a) + Encode(b)
  {
    hide EncodeOctet;
    if a == [] {
      assert a + b == b;
    } else {
      EncodeConcat(a[1..], b);
      assert (a + b)[1..] == a[1..] + b;
      Associate(EncodeOctet(a[0]), Encode(a[1..]), Encode(b));
    }
  }

  // Every percent sign of an encoded string starts an escape of two upper-case digits.
  lemma {:induction false} EscapesAreWhole(s: Text, k: nat)
    requires k < |Encode(s)| && Encode(s)[k] == '%'
    ensures k + 2 < |Encode(s)| && UpperHex(Encode(s)[k + 1]) && UpperHex(Encode(s)[k + 2])
  {
    EncodeCons(s);
    var n := |EncodeOctet(s[0])|;
    if k >= n {
      EscapesAreWhole(s[1..], k - n);
    } else {
      OctetEscape(s[0], k);
    }
  }

  lemma OctetEscape(c: Octet, k: nat)
    requires k < |EncodeOctet(c)| && EncodeOctet(c)[k] == '%'
    ensures k == 0 && |EncodeOctet(c)| == 3 && UpperHex(EncodeOctet(c)[1]) && UpperHex(EncodeOctet(c)[2])
  {
  }

  lemma {:induction false} EncodeUnreserved(s: Text)
    requires forall i :: 0 <= i < |s| ==> Unreserved(s[i])
    ensures Encode(s) == s
  {
    if s != [] {
      EncodeUnreserved(s[1..]);
    }
  }

  // An encoded string is a dot segment only when the string itself is.
  lemma EncodeKeepsDots(s: Text)
    ensures Encode(s) == "" <==> s == ""
    ensures Encode(s) == "." <==> s == "."
    ensures Encode(s) == ".." <==> s == ".."
  {
    DecodeEncode(s);
    EncodeUnreserved(".");
    EncodeUnreserved("..");
    DecodeEncode(".");
    DecodeEncode("..");
  }

  lemma {:induction false} EncodeAppend(s: Text, c: Octet)
    ensures Encode(s + [c]) == Encode(s) + EncodeOctet(c)
  {
    hide EncodeOctet;
    if s == [] {
      assert s + [c] == [c];
    } else {
      EncodeAppend(s[1..], c);
      assert (s + [c])[1..] == s[1..] + [c];
    }
  }

  // percent_encode_component, and percent_encode of pkce.rs
  method PercentEncodeComponent(s: Text) returns (out: Text)
    ensures out == Encode(s)
  {
    out := [];
    var i := 0;
    while i < |s|
      invariant 0 <= i <= |s|
      invariant out == Encode(s[..i])
    {
      EncodeAppend(s[..i], s[i]);
      assert s[..i + 1] == s[..i] + [s[i]];
      if Unreserved(s[i]) {
        out := out + [s[i]];
      } else {
        out := out + ['%'];
        out := out + [UpperHexDigit(High(s[i]))];
        out := out + [UpperHexDigit(Low(s[i]))];
      }
      i := i + 1;
    }
    assert s[..|s|] == s;
  }

  lemma DecodeEscape(s: Text, i: nat)
    requires i + 2 < |s| && s[i] == '%' && HexValue(s[i + 1]).Some? && HexValue(s[i + 2]).Some?
    ensures Decode(s[i..]) == [Glue(HexValue(s[i + 1]).value, HexValue(s[i + 2]).value)] + Decode(s[i + 3..])
  {
    hide HexValue, Glue;
    assert s[i..][3..] == s[i + 3..];
  }

  lemma DecodeOther(s: Text, i: nat)
    requires i < |s| && !(i + 2 < |s| && s[i] == '%' && HexValue(s[i + 1]).Some? && HexValue(s[i + 2]).Some?)
    ensures Decode(s[i..]) == [s[i]] + Decode(s[i + 1..])
  {
    hide HexValue, Glue;
    assert s[i..][1..] == s[i + 1..];
  }

  // percent_decode_lenient. Bytes that are not UTF-8 are replaced at the end.
  method PercentDecodeLenient(s: Text) returns (text: Text)
    ensures text == Lossy(Decode(s)) && WellFormed(text)
    ensures WellFormed(Decode(s)) ==> text == Decode(s)
  {
    hide Decode, HexValue, Glue;
    var out: Text := [];
    var i := 0;
    assert s[0..] == s;
    while i < |s|
      invariant 0 <= i <= |s|
      invariant Decode(s) == out + Decode(s[i..])
    {
      if s[i] == '%' && i + 2 < |s| {
        var h1, h2 := HexValue(s[i + 1]), HexValue(s[i + 2]);
        if h1.Some? && h2.Some? {
          DecodeEscape(s, i);
          out := out + [Glue(h1.value, h2.value)];
          i := i + 3;
          continue;
        }
      }
      DecodeOther(s, i);
      out := out + [s[i]];
      i := i + 1;
    }
    assert s[|s|..] == [];
    DecodeNothing();
    assert out + [] == out;
    text := Lossy(out);
    LossyIsWellFormed(out);
    if WellFormed(out) {
      LossyKeepsWellFormed(out);
    }
  }

  lemma DecodeNothing()
    ensures Decode([]) == []
  {
  }
}
