// The parts of Rust's str that the modelled code relies on.
module Text {
  // char::is_whitespace: the Unicode property White_Space.
  predicate IsWhitespace(c: char) {
    || '\t' <= c <= '\r' || c == ' ' || c == '\U{0085}' || c == '\U{00A0}' || c == '\U{1680}'
    || '\U{2000}' <= c <= '\U{200A}' || c == '\U{2028}' || c == '\U{2029}' || c == '\U{202F}'
    || c == '\U{205F}' || c == '\U{3000}'
  }

  function TrimStart(s: string): string {
    if s != "" && IsWhitespace(s[0]) then TrimStart(s[1..]) else s
  }

  function TrimEnd(s: string): string {
    if s != "" && IsWhitespace(s[|s| - 1]) then TrimEnd(s[..|s| - 1]) else s
  }

  function Trim(s: string): string {
    TrimEnd(TrimStart(s))
  }

  predicate Blank(s: string) {
    Trim(s) == ""
  }

  // ---- what trimming means ----

  predicate AllWhitespace(s: string) {
    forall i :: 0 <= i < |s| ==> IsWhitespace(s[i])
  }

  // t is what is left of s without the whitespace at both ends.
  predicate IsTrimOf(t: string, s: string) {
    && (t != "" ==> !IsWhitespace(t[0]) && !IsWhitespace(t[|t| - 1]))
    && exists i :: 0 <= i <= |s| - |t| && TrimsAt(t, s, i)
  }

  predicate TrimsAt(t: string, s: string, i: nat) {
    && i + |t| <= |s| && s[i..i + |t|] == t
    && (forall j :: 0 <= j < i ==> IsWhitespace(s[j])) && (forall j :: i + |t| <= j < |s| ==> IsWhitespace(s[j]))
  }

  lemma {:induction false} TrimStartCuts(s: string) returns (i: nat)
    ensures i <= |s| && TrimStart(s) == s[i..] && AllWhitespace(s[..i])
    ensures TrimStart(s) != "" ==> !IsWhitespace(TrimStart(s)[0])
  {
    if s != "" && IsWhitespace(s[0]) {
      var k := TrimStartCuts(s[1..]);
      i := k + 1;
      assert s[1..][k..] == s[i..];
      forall j | 0 <= j < i ensures IsWhitespace(s[..i][j]) {
        assert j > 0 ==> s[..i][j] == s[1..][..k][j - 1];
      }
    } else {
      i := 0;
      assert s[0..] == s;
    }
  }

  lemma {:induction false} TrimEndCuts(s: string) returns (n: nat)
    ensures n <= |s| && TrimEnd(s) == s[..n] && AllWhitespace(s[n..])
    ensures TrimEnd(s) != "" ==> !IsWhitespace(TrimEnd(s)[|TrimEnd(s)| - 1])
  {
    if s != "" && IsWhitespace(s[|s| - 1]) {
      n := TrimEndCuts(s[..|s| - 1]);
      assert s[..|s| - 1][..n] == s[..n];
      forall j | 0 <= j < |s[n..]| ensures IsWhitespace(s[n..][j]) {
        assert n + j < |s| - 1 ==> s[n..][j] == s[..|s| - 1][n..][j];
      }
    } else {
      n := |s|;
      assert s[..n] == s;
    }
  }

  lemma TrimIsTrim(s: string)
    ensures IsTrimOf(Trim(s), s)
  {
    var i := TrimStartCuts(s);
    var rest := TrimStart(s);
    var n := TrimEndCuts(rest);
    var t := Trim(s);
    hide IsWhitespace, TrimStart, TrimEnd;
    assert s[i..i + n] == rest[..n] == t;
    assert forall j :: 0 <= j < i ==> s[j] == s[..i][j];
    assert forall j :: i + n <= j < |s| ==> s[j] == rest[n..][j - i - n];
    assert TrimsAt(t, s, i);
    if t != "" {
      assert rest[0] == t[0];
    }
  }

  // There is one such text, so Trim is it.
  lemma TrimIsUnique(s: string, t: string)
    ensures IsTrimOf(t, s) <==> t == Trim(s)
  {
    TrimIsTrim(s);
    hide Trim, IsWhitespace;
    if IsTrimOf(t, s) {
      var i :| 0 <= i <= |s| - |t| && TrimsAt(t, s, i);
      var u := Trim(s);
      var k :| 0 <= k <= |s| - |u| && TrimsAt(u, s, k);
      SameTrim(s, t, i, u, k);
      SameTrim(s, u, k, t, i);
    }
  }

  lemma SameTrim(s: string, t: string, i: nat, u: string, k: nat)
    requires TrimsAt(t, s, i) && TrimsAt(u, s, k)
    requires t != "" ==> !IsWhitespace(t[0]) && !IsWhitespace(t[|t| - 1])
    requires u != "" ==> !IsWhitespace(u[0]) && !IsWhitespace(u[|u| - 1])
    ensures t != "" ==> u == t
  {
    hide IsWhitespace;
    if t != "" {
      var last := i + |t| - 1;
      assert s[i] == t[0] && s[last] == t[|t| - 1];
      assert k <= i && last < k + |u|;
      assert s[k] == u[0] && s[k + |u| - 1] == u[|u| - 1];
      assert i == k && |t| == |u|;
    }
  }

  lemma BlankIsWhitespace(s: string)
    ensures Blank(s) <==> AllWhitespace(s)
  {
    TrimIsUnique(s, "");
    hide Trim, IsWhitespace;
    if AllWhitespace(s) {
      assert s[0..0] == "";
      assert TrimsAt("", s, 0);
    }
  }
}
