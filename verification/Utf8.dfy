// Byte strings: a Rust string is its UTF-8 bytes here, and a byte is a character below
// U+0100. The str operations that the request code applies to them, and
// String::from_utf8_lossy (table 3-7 and section 3.9 of the Unicode Standard).
module Utf8 {
  import opened Chars

  type Octet = c: char | c < '\U{0100}'

  type Text = seq<Octet>

  // ---- from_utf8_lossy ----

  predicate Ascii(c: Octet) {
    c < '\U{0080}'
  }

  predicate Continuation(s: Text, i: nat) {
    i < |s| && '\U{0080}' <= s[i] <= '\U{00BF}'
  }

  // The second byte of a three- or four-byte form, which some first bytes restrict.
  predicate SecondOk(s: Text)
    requires s != []
  {
    && Continuation(s, 1)
    && (s[0] == '\U{00E0}' ==> s[1] >= '\U{00A0}') && (s[0] == '\U{00ED}' ==> s[1] <= '\U{009F}')
    && (s[0] == '\U{00F0}' ==> s[1] >= '\U{0090}') && (s[0] == '\U{00F4}' ==> s[1] <= '\U{008F}')
  }

  predicate Leads2(c: Octet) { '\U{00C2}' <= c <= '\U{00DF}' }

  predicate Leads3(c: Octet) { '\U{00E0}' <= c <= '\U{00EF}' }

  predicate Leads4(c: Octet) { '\U{00F0}' <= c <= '\U{00F4}' }

  // The length of the well-formed character at the front, 0 if there is none.
  function UnitLength(s: Text): (n: nat)
    requires s != []
    ensures n <= |s|
  {
    if Ascii(s[0]) then 1
    else if Leads2(s[0]) && Continuation(s, 1) then 2
    else if Leads3(s[0]) && SecondOk(s) && Continuation(s, 2) then 3
    else if Leads4(s[0]) && SecondOk(s) && Continuation(s, 2) && Continuation(s, 3) then 4
    else 0
  }

  // The maximal ill-formed part at the front, which one replacement stands for.
  function BadLength(s: Text): (n: nat)
    requires s != []
    ensures 0 < n <= |s|
  {
    if Leads3(s[0]) && SecondOk(s) then 2
    else if Leads4(s[0]) && SecondOk(s) then (if Continuation(s, 2) then 3 else 2)
    else 1
  }

  const REPLACEMENT: Text := "\U{00EF}\U{00BF}\U{00BD}"

  function BlockLength(s: Text): (n: nat)
    requires s != []
    ensures 0 < n <= |s|
  {
    if UnitLength(s) > 0 then UnitLength(s) else BadLength(s)
  }

  function Block(s: Text): (b: Text)
    requires s != []
    ensures b != []
  {
    if UnitLength(s) > 0 then s[..UnitLength(s)] else REPLACEMENT
  }

  function Lossy(s: Text): Text
    decreases |s|
  {
    if s == [] then [] else Block(s) + Lossy(s[BlockLength(s)..])
  }

  predicate WellFormed(s: Text)
    decreases |s|
  {
    s == [] || (UnitLength(s) > 0 && WellFormed(s[UnitLength(s)..]))
  }

  // A well-formed string is left as it is.
  lemma {:induction false} LossyKeepsWellFormed(s: Text)
    requires WellFormed(s)
    ensures Lossy(s) == s
    decreases |s|
  {
    if s != [] {
      LossyKeepsWellFormed(s[UnitLength(s)..]);
      assert s == s[..UnitLength(s)] + s[UnitLength(s)..];
    }
  }

  lemma UnitThenRest(s: Text, rest: Text)
    requires s != [] && UnitLength(s) > 0
    ensures UnitLength(s[..UnitLength(s)] + rest) == UnitLength(s)
  {
    var t := s[..UnitLength(s)] + rest;
    assert t[0] == s[0];
    assert UnitLength(s) > 1 ==> t[1] == s[1];
    assert UnitLength(s) > 2 ==> t[2] == s[2];
    assert UnitLength(s) > 3 ==> t[3] == s[3];
  }

  // The result is always well-formed.
  lemma {:induction false} LossyIsWellFormed(s: Text)
    ensures WellFormed(Lossy(s))
    decreases |s|
  {
    if s != [] {
      var rest := Lossy(s[BlockLength(s)..]);
      LossyIsWellFormed(s[BlockLength(s)..]);
      var unit := if UnitLength(s) > 0 then s else REPLACEMENT;
      UnitThenRest(unit, rest);
      assert REPLACEMENT[..3] == REPLACEMENT;
      assert Lossy(s) == unit[..UnitLength(unit)] + rest;
      assert Lossy(s)[UnitLength(unit)..] == rest;
    }
  }

  // ---- str operations ----

  predicate MatchAt(s: Text, pat: Text, k: nat) {
    k + |pat| <= |s| && s[k..k + |pat|] == pat
  }

  // str::contains of a string
  predicate Contains(s: Text, pat: Text) {
    exists k :: 0 <= k <= |s| && MatchAt(s, pat, k)
  }

  predicate ControlAt(s: Text, i: nat)
    requires i < |s|
  {
    s[i] < ' ' || s[i] == '\U{007F}' || (s[i] == '\U{00C2}' && i + 1 < |s| && '\U{0080}' <= s[i + 1] <= '\U{009F}')
  }

  // Any char::is_control: C0, DEL, and C1 as the pair C2 80..9F.
  predicate HasControl(s: Text) {
    exists i :: 0 <= i < |s| && ControlAt(s, i)
  }

  predicate Pair(s: Text, i: nat, first: Octet, second: Octet) {
    i + 1 < |s| && s[i] == first && s[i + 1] == second
  }

  predicate WhitespaceAt(s: Text, i: nat)
    requires i < |s|
  {
    || '\t' <= s[i] <= '\r' || s[i] == ' ' || Pair(s, i, '\U{00C2}', '\U{0085}') || Pair(s, i, '\U{00C2}', '\U{00A0}')
    || (Pair(s, i, '\U{00E1}', '\U{009A}') && i + 2 < |s| && s[i + 2] == '\U{0080}')
    || (Pair(s, i, '\U{00E2}', '\U{0080}') && i + 2 < |s|
        && ('\U{0080}' <= s[i + 2] <= '\U{008A}' || s[i + 2] == '\U{00A8}' || s[i + 2] == '\U{00A9}' || s[i + 2] == '\U{00AF}'))
    || (Pair(s, i, '\U{00E2}', '\U{0081}') && i + 2 < |s| && s[i + 2] == '\U{009F}')
    || (Pair(s, i, '\U{00E3}', '\U{0080}') && i + 2 < |s| && s[i + 2] == '\U{0080}')
  }

  // Any char::is_whitespace: the characters of property White_Space in UTF-8.
  predicate HasWhitespace(s: Text) {
    exists i :: 0 <= i < |s| && WhitespaceAt(s, i)
  }

  function LowerOctet(c: Octet): Octet {
    if 'A' <= c <= 'Z' then (c as int + 32) as char else c
  }

  // to_ascii_lowercase
  function Lower(s: Text): (t: Text)
    ensures |t| == |s|
  {
    seq(|s|, i requires 0 <= i < |s| => LowerOctet(s[i]))
  }

  // The same text, letter case apart.
  predicate SameText(a: Text, b: Text) {
    |a| == |b| && forall i :: 0 <= i < |a| ==> SameLetter(a[i], b[i])
  }

  lemma SameOctet(x: Octet, y: Octet)
    ensures LowerOctet(x) == LowerOctet(y) <==> SameLetter(x, y)
  {
    SameLetterMeans(x, y);
    hide SameLetter;
  }

  lemma LowerMeansSameText(a: Text, b: Text)
    ensures Lower(a) == Lower(b) <==> SameText(a, b)
  {
    hide LowerOctet, SameLetter;
    if |a| == |b| {
      forall i | 0 <= i < |a| ensures Lower(a)[i] == Lower(b)[i] <==> SameLetter(a[i], b[i]) {
        SameOctet(a[i], b[i]);
      }
    }
  }

  // ---- ASCII tests do not see the replacement ----

  predicate AllAscii(s: Text) {
    forall i :: 0 <= i < |s| ==> Ascii(s[i])
  }

  predicate NoAscii(s: Text) {
    forall i :: 0 <= i < |s| ==> !Ascii(s[i])
  }

  lemma BlocksAreAsciiOrNot(s: Text)
    requires s != []
    ensures Ascii(s[0]) ==> BlockLength(s) == 1 && Block(s) == [s[0]]
    ensures !Ascii(s[0]) ==> NoAscii(s[..BlockLength(s)]) && NoAscii(Block(s))
  {
  }

  lemma LossyEmpty(s: Text)
    ensures Lossy(s) == [] <==> s == []
  {
  }

  lemma LossySplits(s: Text)
    requires s != []
    ensures s == s[..BlockLength(s)] + s[BlockLength(s)..] && Lossy(s) == Block(s) + Lossy(s[BlockLength(s)..])
  {
  }

  lemma NoAsciiLacks(s: Text, x: Octet)
    requires NoAscii(s) && Ascii(x)
    ensures x !in s
  {
  }

  lemma {:induction false} LossyStarts(s: Text, pat: Text)
    requires AllAscii(pat)
    ensures pat <= Lossy(s) <==> pat <= s
    decreases |pat|
  {
    if pat != [] && s != [] {
      BlocksAreAsciiOrNot(s);
      hide Block, BlockLength;
      if Ascii(s[0]) {
        LossyStarts(s[1..], pat[1..]);
        PrefixCons(s, pat);
        assert Lossy(s)[1..] == Lossy(s[1..]);
        PrefixCons(Lossy(s), pat);
      } else {
        assert !Ascii(Lossy(s)[0]);
      }
    }
  }

  lemma PrefixCons(s: Text, pat: Text)
    requires s != [] && pat != []
    ensures pat <= s <==> pat[0] == s[0] && pat[1..] <= s[1..]
  {
    if pat[0] == s[0] && pat[1..] <= s[1..] {
      assert pat == [pat[0]] + pat[1..];
      assert s == [s[0]] + s[1..];
      assert s[1..][..|pat| - 1] == pat[1..];
      assert s[..|pat|] == pat;
    }
    if pat <= s {
      assert s[1..][..|pat| - 1] == s[..|pat|][1..];
    }
  }

  lemma ContainsCons(s: Text, pat: Text)
    requires s != []
    ensures Contains(s, pat) <==> pat <= s || Contains(s[1..], pat)
  {
    if pat <= s {
      assert MatchAt(s, pat, 0);
    }
    if Contains(s[1..], pat) {
      var k :| 0 <= k <= |s[1..]| && MatchAt(s[1..], pat, k);
      assert s[1..][k..k + |pat|] == s[k + 1..k + 1 + |pat|];
      assert MatchAt(s, pat, k + 1);
    }
    if Contains(s, pat) {
      var k :| 0 <= k <= |s| && MatchAt(s, pat, k);
      if k > 0 {
        assert s[1..][k - 1..k - 1 + |pat|] == s[k..k + |pat|];
        assert MatchAt(s[1..], pat, k - 1);
      }
    }
  }

  lemma {:induction false} ContainsSkips(block: Text, rest: Text, pat: Text)
    requires NoAscii(block) && AllAscii(pat) && pat != []
    ensures Contains(block + rest, pat) <==> Contains(rest, pat)
  {
    if block == [] {
      assert block + rest == rest;
    } else {
      hide Contains;
      var all := block + rest;
      assert all[1..] == block[1..] + rest;
      ContainsCons(all, pat);
      assert !(pat <= all) by {
        assert all[0] == block[0];
      }
      ContainsSkips(block[1..], rest, pat);
    }
  }

  // str::contains of an ASCII pattern is not affected by the replacement.
  lemma {:induction false} LossyContains(s: Text, pat: Text)
    requires AllAscii(pat) && pat != []
    ensures Contains(Lossy(s), pat) <==> Contains(s, pat)
    decreases |s|
  {
    hide *;
    LossyEmpty(s);
    if s != [] {
      BlocksAreAsciiOrNot(s);
      LossySplits(s);
      var n, rest := BlockLength(s), s[BlockLength(s)..];
      LossyContains(rest, pat);
      if Ascii(s[0]) {
        LossyStarts(s, pat);
        ContainsCons(s, pat);
        ContainsCons(Lossy(s), pat);
        assert Lossy(s)[1..] == Lossy(rest);
      } else {
        ContainsSkips(s[..n], rest, pat);
        ContainsSkips(Block(s), Lossy(rest), pat);
      }
    }
  }

  lemma {:induction false} LossyMember(s: Text, x: Octet)
    requires Ascii(x)
    ensures x in Lossy(s) <==> x in s
    decreases |s|
  {
    hide *;
    LossyEmpty(s);
    if s != [] {
      BlocksAreAsciiOrNot(s);
      LossySplits(s);
      LossyMember(s[BlockLength(s)..], x);
      if !Ascii(s[0]) {
        NoAsciiLacks(s[..BlockLength(s)], x);
        NoAsciiLacks(Block(s), x);
      }
    }
  }

  lemma LossySingle(s: Text, x: Octet)
    requires Ascii(x)
    ensures Lossy(s) == [x] <==> s == [x]
  {
    if s != [] {
      BlocksAreAsciiOrNot(s);
      LossyEmpty(s[1..]);
      hide Block, BlockLength;
      assert s == [s[0]] + s[1..];
      assert Lossy(s)[0] == (if Ascii(s[0]) then s[0] else Block(s)[0]);
      assert Ascii(s[0]) ==> Lossy(s) == [s[0]] + Lossy(s[1..]);
    }
  }

  lemma ControlCons(s: Text)
    requires s != []
    ensures HasControl(s) <==> ControlAt(s, 0) || HasControl(s[1..])
  {
    assert forall i :: 0 < i < |s| ==> (ControlAt(s, i) <==> ControlAt(s[1..], i - 1));
    if HasControl(s[1..]) {
      var i :| 0 <= i < |s[1..]| && ControlAt(s[1..], i);
      assert ControlAt(s, i + 1);
    }
  }

  // Bytes that neither are ASCII nor start a C1 control.
  lemma {:induction false} ControlSkips(block: Text, rest: Text)
    requires NoAscii(block) && forall i :: 0 <= i < |block| ==> block[i] != '\U{00C2}'
    ensures HasControl(block + rest) <==> HasControl(rest)
  {
    if block == [] {
      assert block + rest == rest;
    } else {
      hide HasControl;
      var all := block + rest;
      assert all[1..] == block[1..] + rest;
      ControlCons(all);
      ControlSkips(block[1..], rest);
    }
  }

  // The bytes of one character after its first.
  predicate Trailing(s: Text) {
    forall i :: 1 <= i < |s| ==> '\U{0080}' <= s[i] <= '\U{00BF}'
  }

  lemma BlocksTrail(s: Text)
    requires s != [] && !Ascii(s[0])
    ensures Trailing(s[..BlockLength(s)]) && Trailing(Block(s))
  {
  }

  lemma AsciiControl(s: Text)
    requires s != [] && Ascii(s[0])
    ensures Lossy(s) == [s[0]] + Lossy(s[1..])
    ensures HasControl(Lossy(s)) <==> ControlAt(s, 0) || HasControl(Lossy(s[1..]))
  {
    BlocksAreAsciiOrNot(s);
    hide HasControl, Block, BlockLength;
    assert Lossy(s)[1..] == Lossy(s[1..]);
    ControlCons(Lossy(s));
  }

  lemma ControlOf(block: Text, rest: Text)
    requires block != [] && NoAscii(block) && Trailing(block)
    ensures HasControl(block + rest) <==> ControlAt(block + rest, 0) || HasControl(rest)
  {
    hide HasControl, ControlAt;
    ControlCons(block + rest);
    assert (block + rest)[1..] == block[1..] + rest;
    ControlSkips(block[1..], rest);
  }

  lemma BlockControl(s: Text)
    requires s != [] && !Ascii(s[0])
    ensures var rest := s[BlockLength(s)..];
            && (HasControl(s) <==> ControlAt(s, 0) || HasControl(rest))
            && (HasControl(Lossy(s)) <==> ControlAt(s, 0) || HasControl(Lossy(rest)))
  {
    hide *;
    var n, rest := BlockLength(s), s[BlockLength(s)..];
    LossySplits(s);
    BlocksAreAsciiOrNot(s);
    BlocksTrail(s);
    ControlHeads(s);
    ControlOf(s[..n], rest);
    ControlOf(Block(s), Lossy(rest));
  }

  lemma {:induction false} LossyControl(s: Text)
    ensures HasControl(Lossy(s)) <==> HasControl(s)
    decreases |s|
  {
    hide HasControl, Block, BlockLength, ControlAt;
    if s != [] {
      if Ascii(s[0]) {
        LossyControl(s[1..]);
        AsciiControl(s);
        ControlCons(s);
      } else {
        LossyControl(s[BlockLength(s)..]);
        BlockControl(s);
      }
    }
  }

  lemma ControlHeads(s: Text)
    requires s != [] && !Ascii(s[0])
    ensures ControlAt(Lossy(s), 0) <==> ControlAt(s, 0)
  {
    var n := UnitLength(s);
    assert Lossy(s) == Block(s) + Lossy(s[BlockLength(s)..]);
    if n > 0 {
      assert Lossy(s)[0] == s[0];
      assert n > 1 ==> Lossy(s)[1] == s[1];
    }
  }

  lemma LowerKeepsBlocks(s: Text)
    requires s != []
    ensures UnitLength(Lower(s)) == UnitLength(s) && BlockLength(Lower(s)) == BlockLength(s)
    ensures Block(Lower(s)) == Lower(Block(s))
  {
    assert forall i :: 0 <= i < |s| ==> (Continuation(Lower(s), i) <==> Continuation(s, i));
    assert forall i :: 0 <= i < |s| && !Ascii(s[i]) ==> Lower(s)[i] == s[i];
    assert Ascii(Lower(s)[0]) <==> Ascii(s[0]);
    assert UnitLength(Lower(s)) == UnitLength(s);
    if UnitLength(s) > 0 {
      assert Lower(s)[..UnitLength(s)] == Lower(s[..UnitLength(s)]);
    } else {
      assert Lower(REPLACEMENT) == REPLACEMENT;
    }
  }

  lemma LowerAppend(a: Text, b: Text)
    ensures Lower(a + b) == Lower(a) + Lower(b)
  {
  }

  lemma LowerDrops(s: Text, n: nat)
    requires n <= |s|
    ensures Lower(s)[n..] == Lower(s[n..])
  {
  }

  lemma {:induction false} LossyLower(s: Text)
    ensures Lower(Lossy(s)) == Lossy(Lower(s))
    decreases |s|
  {
    hide *;
    LossyEmpty(s);
    LossyEmpty(Lower(s));
    if s != [] {
      LowerKeepsBlocks(s);
      LossySplits(s);
      LossySplits(Lower(s));
      var rest := s[BlockLength(s)..];
      LossyLower(rest);
      LowerAppend(Block(s), Lossy(rest));
      LowerDrops(s, BlockLength(s));
    } else {
      assert |Lower(s)| == 0;
    }
  }
}
