// src-tauri/src/auth/pkce.rs: unpadded base64url, used for PKCE verifiers,
// state values and SSH session ids (section 5 of RFC 4648).
module Base64Url {
  import opened Wrappers

  type Byte = b: int | 0 <= b < 256
  type Six = i: int | 0 <= i < 64

  // The alphabet A-Z a-z 0-9 - _, which the source keeps in a 64-byte table.
  function Letter(i: Six): char {
    if i < 26 then 'A' + i as char
    else if i < 52 then 'a' + (i - 26) as char
    else if i < 62 then '0' + (i - 52) as char
    else if i == 62 then '-'
    else '_'
  }

  // The sextet a character stands for: table 2 of RFC 4648, section 5.
  function Sextet(c: char): Option<Six> {
    if 'A' <= c <= 'Z' then Some(c as int - 'A' as int)
    else if 'a' <= c <= 'z' then Some(26 + c as int - 'a' as int)
    else if '0' <= c <= '9' then Some(52 + c as int - '0' as int)
    else if c == '-' then Some(62)
    else if c == '_' then Some(63)
    else None
  }

  // The 24-bit group made of three octets.
  function Group(a: int, b: int, c: int): int {
    a * 65536 + b * 256 + c
  }

  // A shift to the right (by the power of two it divides by), masked to six bits.
  function Masked(n: int, power: int): Six
    requires power > 0
  {
    n / power % 64
  }

  // The four characters of one group.
  function Letters(a: Byte, b: Byte, c: Byte): (group: string)
    ensures |group| == 4
  {
    var n := Group(a, b, c);
    [Letter(Masked(n, 262144)), Letter(Masked(n, 4096)), Letter(Masked(n, 64)), Letter(Masked(n, 1))]
  }

  // What the encoder writes, three octets at a time.
  function Encode(data: seq<Byte>): string {
    if |data| >= 3 then Letters(data[0], data[1], data[2]) + Encode(data[3..])
    else if |data| == 2 then Letters(data[0], data[1], 0)[..3]
    else if |data| == 1 then Letters(data[0], 0, 0)[..2]
    else ""
  }

  // Four characters back to three octets.
  function Octets(p: char, q: char, r: char, s: char): (octets: Option<seq<Byte>>)
    ensures octets.Some? ==> |octets.value| == 3
  {
    match (Sextet(p), Sextet(q), Sextet(r), Sextet(s))
    case (Some(a), Some(b), Some(c), Some(d)) => Some(FromSextets(a, b, c, d))
    case _ => None
  }

  function FromSextets(a: int, b: int, c: int, d: int): seq<Byte>
    requires 0 <= a < 64 && 0 <= b < 64 && 0 <= c < 64 && 0 <= d < 64
  {
    [a * 4 + b / 16, b % 16 * 16 + c / 4, c % 4 * 64 + d]
  }

  // A strict decoder: it refuses foreign characters, a lone last character
  // and non-zero unused bits (section 3.5 of RFC 4648).
  function Decode(s: string): Option<seq<Byte>> {
    if |s| >= 4 then
      match (Octets(s[0], s[1], s[2], s[3]), Decode(s[4..]))
      case (Some(head), Some(rest)) => Some(head + rest)
      case _ => None
    else if |s| == 3 then
      match Octets(s[0], s[1], s[2], 'A')
      case Some(o) => if o[2] == 0 then Some(o[..2]) else None
      case None => None
    else if |s| == 2 then
      match Octets(s[0], s[1], 'A', 'A')
      case Some(o) => if o[1] == o[2] == 0 then Some(o[..1]) else None
      case None => None
    else if |s| == 0 then Some([])
    else None
  }

  lemma LetterSextet(c: char, i: Six)
    ensures Sextet(c) == Some(i) <==> c == Letter(i)
  {
  }

  lemma Quotient(n: int, d: int, q: int, r: int)
    requires d > 0 && n == d * q + r && 0 <= r < d
    ensures n / d == q
  {
    var k := q - n / d;
    assert d * k == n % d - r;
    assert k >= 1 ==> d * k >= d;
    assert k <= -1 ==> d * k <= -d;
  }

  // The shifts and masks of the encoder take a group apart at sextet borders.
  lemma GroupSextets(a: Byte, b: Byte, c: Byte)
    ensures Masked(Group(a, b, c), 262144) == a / 4
    ensures Masked(Group(a, b, c), 4096) == a % 4 * 16 + b / 16
    ensures Masked(Group(a, b, c), 64) == b % 16 * 4 + c / 64
    ensures Masked(Group(a, b, c), 1) == c % 64
  {
    var n := Group(a, b, c);
    Quotient(n, 262144, a / 4, a % 4 * 65536 + b * 256 + c);
    Quotient(n, 4096, a * 16 + b / 16, b % 16 * 256 + c);
    Quotient(a * 16 + b / 16, 64, a / 4, a % 4 * 16 + b / 16);
    Quotient(n, 64, a * 1024 + b * 4 + c / 64, c % 64);
    Quotient(a * 1024 + b * 4 + c / 64, 64, a * 16 + b / 16, b % 16 * 4 + c / 64);
    Quotient(n, 64, a * 1024 + b * 4 + c / 64, c % 64);
  }

  // Octet borders and sextet borders cut the same 24 bits.
  lemma Regroup(a: Byte, b: Byte, c: Byte)
    ensures FromSextets(a / 4, a % 4 * 16 + b / 16, b % 16 * 4 + c / 64, c % 64) == [a, b, c]
  {
    assert (a % 4 * 16 + b / 16) / 16 == a % 4;
    assert (a % 4 * 16 + b / 16) % 16 == b / 16;
    assert (b % 16 * 4 + c / 64) / 4 == b % 16;
    assert (b % 16 * 4 + c / 64) % 4 == c / 64;
  }

  lemma Degroup(a: Six, b: Six, c: Six, d: Six)
    ensures var o := FromSextets(a, b, c, d);
            && o[0] / 4 == a && o[0] % 4 * 16 + o[1] / 16 == b
            && o[1] % 16 * 4 + o[2] / 64 == c && o[2] % 64 == d
  {
    var o := FromSextets(a, b, c, d);
    assert o[0] / 4 == a && o[0] % 4 == b / 16;
    assert o[1] / 16 == b % 16 && o[1] % 16 == c / 4;
    assert o[2] / 64 == c % 4 && o[2] % 64 == d;
  }

  lemma OctetsLetters(a: Byte, b: Byte, c: Byte)
    ensures var l := Letters(a, b, c); Octets(l[0], l[1], l[2], l[3]) == Some([a, b, c])
  {
    GroupSextets(a, b, c);
    var i, j, k, m := a / 4, a % 4 * 16 + b / 16, b % 16 * 4 + c / 64, c % 64;
    assert Letters(a, b, c) == [Letter(i), Letter(j), Letter(k), Letter(m)];
    Regroup(a, b, c);
    OctetsOfLetters(i, j, k, m);
  }

  lemma OctetsOfLetters(i: Six, j: Six, k: Six, m: Six)
    ensures Octets(Letter(i), Letter(j), Letter(k), Letter(m)) == Some(FromSextets(i, j, k, m))
  {
    LetterSextet(Letter(i), i);
    LetterSextet(Letter(j), j);
    LetterSextet(Letter(k), k);
    LetterSextet(Letter(m), m);
  }

  lemma LettersOctets(p: char, q: char, r: char, s: char)
    requires Octets(p, q, r, s).Some?
    ensures var o := Octets(p, q, r, s).value; Letters(o[0], o[1], o[2]) == [p, q, r, s]
  {
    var i, j, k, m := Sextet(p).value, Sextet(q).value, Sextet(r).value, Sextet(s).value;
    LetterSextet(p, i);
    LetterSextet(q, j);
    LetterSextet(r, k);
    LetterSextet(s, m);
    LettersOfSextets(i, j, k, m);
  }

  lemma LettersOfSextets(i: Six, j: Six, k: Six, m: Six)
    ensures var o := FromSextets(i, j, k, m);
            Letters(o[0], o[1], o[2]) == [Letter(i), Letter(j), Letter(k), Letter(m)]
  {
    var o := FromSextets(i, j, k, m);
    Degroup(i, j, k, m);
    GroupSextets(o[0], o[1], o[2]);
  }

  lemma ZeroLetters(a: Byte, b: Byte)
    ensures Letters(a, b, 0)[3] == 'A'
    ensures Letters(a, 0, 0)[2] == 'A'
  {
    GroupSextets(a, b, 0);
    GroupSextets(a, 0, 0);
  }

  lemma {:induction false} DecodeEncode(data: seq<Byte>)
    ensures Decode(Encode(data)) == Some(data)
  {
    hide Letters, Octets;
    if |data| >= 3 {
      var head, rest := Letters(data[0], data[1], data[2]), Encode(data[3..]);
      OctetsLetters(data[0], data[1], data[2]);
      DecodeEncode(data[3..]);
      assert (head + rest)[4..] == rest;
      assert data == [data[0], data[1], data[2]] + data[3..];
    } else {
      DecodeTail(data);
    }
  }

  lemma DecodeTail(data: seq<Byte>)
    requires |data| < 3
    ensures Decode(Encode(data)) == Some(data)
  {
    hide Letters, Octets;
    if |data| == 2 {
      OctetsLetters(data[0], data[1], 0);
      ZeroLetters(data[0], data[1]);
      assert Encode(data) == Letters(data[0], data[1], 0)[..3];
      assert [data[0], data[1], 0][..2] == data;
    } else if |data| == 1 {
      OctetsLetters(data[0], 0, 0);
      ZeroLetters(data[0], 0);
      assert Encode(data) == Letters(data[0], 0, 0)[..2];
      assert [data[0], 0, 0][..1] == data;
    }
  }

  lemma {:induction false} EncodeDecode(s: string)
    requires Decode(s).Some?
    ensures Encode(Decode(s).value) == s
  {
    hide Letters, Octets;
    var data := Decode(s).value;
    if |s| >= 4 {
      EncodeDecode(s[4..]);
      LettersOctets(s[0], s[1], s[2], s[3]);
      assert data[3..] == Decode(s[4..]).value;
      assert s == [s[0], s[1], s[2], s[3]] + s[4..];
    } else if |s| == 3 {
      LettersOctets(s[0], s[1], s[2], 'A');
      assert s == [s[0], s[1], s[2], 'A'][..3];
    } else if |s| == 2 {
      LettersOctets(s[0], s[1], 'A', 'A');
      assert s == [s[0], s[1], 'A', 'A'][..2];
    }
  }

  // The encoder and the strict decoder are inverse to each other.
  lemma {:induction false} EncodeIsBijective(data: seq<Byte>, s: string)
    ensures Decode(s) == Some(data) <==> s == Encode(data)
  {
    DecodeEncode(data);
    if Decode(s) == Some(data) {
      EncodeDecode(s);
    }
  }

  predicate InAlphabet(s: string) {
    forall k :: 0 <= k < |s| ==> Sextet(s[k]).Some?
  }

  lemma {:induction false} EncodeShape(data: seq<Byte>)
    ensures |Encode(data)| == 4 * (|data| / 3) + (if |data| % 3 == 0 then 0 else |data| % 3 + 1)
    ensures InAlphabet(Encode(data))
  {
    hide Letters;
    if |data| >= 3 {
      OctetsLetters(data[0], data[1], data[2]);
      EncodeShape(data[3..]);
    } else if |data| == 2 {
      OctetsLetters(data[0], data[1], 0);
    } else if |data| == 1 {
      OctetsLetters(data[0], 0, 0);
    }
  }

  // Two different 32-byte buffers give two different 43-character ids.
  lemma {:induction false} SessionIdsDiffer(a: seq<Byte>, b: seq<Byte>)
    requires |a| == |b| == 32 && a != b
    ensures |Encode(a)| == |Encode(b)| == 43
    ensures Encode(a) != Encode(b)
  {
    EncodeShape(a);
    EncodeShape(b);
    DecodeEncode(a);
    DecodeEncode(b);
  }

  lemma {:induction false} EncodeAppend(done: seq<Byte>, rest: seq<Byte>)
    requires |done| % 3 == 0
    ensures Encode(done + rest) == Encode(done) + Encode(rest)
  {
    hide Letters;
    if done == [] {
      assert done + rest == rest;
    } else {
      EncodeAppend(done[3..], rest);
      assert (done + rest)[3..] == done[3..] + rest;
      assert Encode(done + rest) == Letters(done[0], done[1], done[2]) + Encode(done[3..] + rest);
    }
  }

  method Base64UrlNoPad(data: seq<Byte>) returns (out: string)
    ensures Decode(out) == Some(data)
    ensures out == Encode(data)
  {
    hide Letter, Masked, Group, Encode;
    out := "";
    EncodeShort([]);
    var i := 0;
    while i + 3 <= |data|
      invariant 0 <= i <= |data| && i % 3 == 0
      invariant out == Encode(data[..i])
    {
      var n := Group(data[i], data[i + 1], data[i + 2]);
      EncodeGroup(data, i);
      out := out + [Letter(Masked(n, 262144))];
      out := out + [Letter(Masked(n, 4096))];
      out := out + [Letter(Masked(n, 64))];
      out := out + [Letter(Masked(n, 1))];
      assert out == Encode(data[..i]) + Letters(data[i], data[i + 1], data[i + 2]);
      i := i + 3;
    }
    EncodeAppend(data[..i], data[i..]);
    EncodeShort(data[i..]);
    assert data == data[..i] + data[i..];
    var rem := |data| - i;
    if rem == 1 {
      var n := Group(data[i], 0, 0);
      out := out + [Letter(Masked(n, 262144))];
      out := out + [Letter(Masked(n, 4096))];
    } else if rem == 2 {
      var n := Group(data[i], data[i + 1], 0);
      out := out + [Letter(Masked(n, 262144))];
      out := out + [Letter(Masked(n, 4096))];
      out := out + [Letter(Masked(n, 64))];
    }
    EncodeIsBijective(data, out);
  }

  lemma EncodeGroup(data: seq<Byte>, i: nat)
    requires i % 3 == 0 && i + 3 <= |data|
    ensures Encode(data[..i + 3]) == Encode(data[..i]) + Letters(data[i], data[i + 1], data[i + 2])
  {
    hide Letters;
    EncodeAppend(data[..i], data[i..i + 3]);
    EncodeThree(data[i..i + 3]);
    assert data[..i + 3] == data[..i] + data[i..i + 3];
  }

  lemma EncodeShort(data: seq<Byte>)
    requires |data| < 3
    ensures |data| == 2 ==> Encode(data) == Letters(data[0], data[1], 0)[..3]
    ensures |data| == 1 ==> Encode(data) == Letters(data[0], 0, 0)[..2]
    ensures |data| == 0 ==> Encode(data) == ""
  {
  }

  lemma EncodeThree(data: seq<Byte>)
    requires |data| == 3
    ensures Encode(data) == Letters(data[0], data[1], data[2])
  {
    assert Encode(data[3..]) == "";
  }
}
