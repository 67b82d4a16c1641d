// Character classes and hexadecimal digits that several codecs share.
module Chars {
  import opened Wrappers

  type Nibble = n: int | 0 <= n < 16

  // char::is_control
  predicate IsControl(c: char) {
    c <= '\U{001F}' || '\U{007F}' <= c <= '\U{009F}'
  }

  function UpperHexDigit(n: Nibble): (c: char)
    ensures c < '\U{0080}'
  {
    if n < 10 then '0' + n as char else 'A' + (n - 10) as char
  }

  function LowerHexDigit(n: Nibble): (c: char)
    ensures c < '\U{0080}'
  {
    if n < 10 then '0' + n as char else 'a' + (n - 10) as char
  }

  function HexValue(c: char): Option<Nibble> {
    if '0' <= c <= '9' then Some(c as int - '0' as int)
    else if 'a' <= c <= 'f' then Some(c as int - 'a' as int + 10)
    else if 'A' <= c <= 'F' then Some(c as int - 'A' as int + 10)
    else None
  }

  const UPPER_HEX := "0123456789ABCDEF"
  const LOWER_HEX := "0123456789abcdef"

  lemma HexTables()
    ensures |UPPER_HEX| == |LOWER_HEX| == 16
    ensures forall n :: 0 <= n < 10 ==> UPPER_HEX[n] as int == LOWER_HEX[n] as int == '0' as int + n
    ensures forall n :: 10 <= n < 16 ==> UPPER_HEX[n] as int == 'A' as int + n - 10 && LOWER_HEX[n] as int == 'a' as int + n - 10
  {
  }

  // The digits of a value, and the values of a digit in either case.
  lemma HexDigitsMean(n: Nibble, c: char)
    ensures UpperHexDigit(n) == UPPER_HEX[n] && LowerHexDigit(n) == LOWER_HEX[n]
    ensures HexValue(c) == Some(n) <==> c == UPPER_HEX[n] || c == LOWER_HEX[n]
  {
    HexTables();
    hide UPPER_HEX, LOWER_HEX;
  }

  lemma HexRoundTrip(n: Nibble)
    ensures HexValue(UpperHexDigit(n)) == HexValue(LowerHexDigit(n)) == Some(n)
  {
  }

  const UPPER_LETTERS := "ABCDEFGHIJKLMNOPQRSTUVWXYZ"
  const LOWER_LETTERS := "abcdefghijklmnopqrstuvwxyz"
  const DIGITS := "0123456789"

  lemma Letters()
    ensures |UPPER_LETTERS| == |LOWER_LETTERS| == 26
    ensures |DIGITS| == 10 && forall i :: 0 <= i < 10 ==> DIGITS[i] as int == '0' as int + i
    ensures forall i :: 0 <= i < 26 ==> UPPER_LETTERS[i] as int == 'A' as int + i && LOWER_LETTERS[i] as int == 'a' as int + i
  {
  }

  lemma LetterSets(c: char)
    ensures c in UPPER_LETTERS <==> 'A' <= c <= 'Z'
    ensures c in LOWER_LETTERS <==> 'a' <= c <= 'z'
    ensures c in DIGITS <==> '0' <= c <= '9'
  {
    Letters();
    hide *;
    if 'A' <= c <= 'Z' {
      assert UPPER_LETTERS[c as int - 'A' as int] == c;
    }
    if '0' <= c <= '9' {
      assert DIGITS[c as int - '0' as int] == c;
    }
    if 'a' <= c <= 'z' {
      assert LOWER_LETTERS[c as int - 'a' as int] == c;
    }
  }

  // The same letter in either case, or the same character.
  predicate SameLetter(x: char, y: char) {
    x == y || exists i :: 0 <= i < 26 && {x, y} == {UPPER_LETTERS[i], LOWER_LETTERS[i]}
  }

  lemma SameLetterMeans(x: char, y: char)
    ensures SameLetter(x, y) <==>
              || x == y
              || ('A' <= x <= 'Z' && y as int == x as int + 32) || ('A' <= y <= 'Z' && x as int == y as int + 32)
  {
    Letters();
    hide UPPER_LETTERS, LOWER_LETTERS;
    if 'A' <= x <= 'Z' && y as int == x as int + 32 {
      assert {x, y} == {UPPER_LETTERS[x as int - 'A' as int], LOWER_LETTERS[x as int - 'A' as int]};
    }
    if 'A' <= y <= 'Z' && x as int == y as int + 32 {
      assert {x, y} == {UPPER_LETTERS[y as int - 'A' as int], LOWER_LETTERS[y as int - 'A' as int]};
    }
    if x != y && SameLetter(x, y) {
      var i :| 0 <= i < 26 && {x, y} == {UPPER_LETTERS[i], LOWER_LETTERS[i]};
      assert UPPER_LETTERS[i] in {x, y} && LOWER_LETTERS[i] in {x, y};
    }
  }
}
