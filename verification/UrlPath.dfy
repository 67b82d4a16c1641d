// src-tauri/src/cloud_transport/client.rs, materialize_path and the query loop of
// build_request: building a path from a template and a query from pairs, and reading
// both back (sections 3.3 and 3.4 of RFC 3986).
module UrlPath {
  import opened Wrappers
  import opened Utf8
  import opened Percent

  datatype TransportError = InvalidInput | PathSmuggling | Unauthenticated

  // str::find of one character.
  function Find(s: Text, c: Octet): (at: Option<nat>)
    ensures at.Some? ==> at.value < |s| && s[at.value] == c && c !in s[..at.value]
    ensures at.None? ==> c !in s
  {
    if s == [] then None
    else if s[0] == c then Some(0)
    else
      match Find(s[1..], c)
      case None => None
      case Some(k) =>
        assert forall i :: 0 < i <= k ==> s[i] == s[1..][i - 1];
        Some(k + 1)
  }

  lemma FindIs(s: Text, c: Octet, k: nat)
    requires k < |s| && s[k] == c && c !in s[..k]
    ensures Find(s, c) == Some(k)
  {
    var at := Find(s, c);
    assert c in s;
    NotBefore(s, c, k);
    NotBefore(s, c, at.value);
  }

  lemma NotBefore(s: Text, c: Octet, k: nat)
    requires k < |s| && c !in s[..k]
    ensures forall i :: 0 <= i < k ==> s[i] != c
  {
    forall i | 0 <= i < k ensures s[i] != c {
      assert s[i] == s[..k][i];
    }
  }

  // str::split on one character.
  function Split(s: Text, c: Octet): (parts: seq<Text>)
    ensures |parts| > 0
    decreases |s|
  {
    match Find(s, c)
    case None => [s]
    case Some(k) => [s[..k]] + Split(s[k + 1..], c)
  }

  function Join(parts: seq<Text>, c: Octet): Text
    requires parts != []
  {
    if |parts| == 1 then parts[0] else parts[0] + [c] + Join(parts[1..], c)
  }

  lemma {:induction false} SplitJoin(parts: seq<Text>, c: Octet)
    requires parts != [] && forall i :: 0 <= i < |parts| ==> c !in parts[i]
    ensures Split(Join(parts, c), c) == parts
  {
    var s := Join(parts, c);
    if |parts| == 1 {
      assert c !in s;
    } else {
      var k := |parts[0]|;
      assert s[..k] == parts[0] && s[k + 1..] == Join(parts[1..], c);
      FindIs(s, c, k);
      SplitJoin(parts[1..], c);
    }
  }

  // ---- paths ----

  // The expansion loop of materialize_path.
  function Expand(template: Text, values: map<Text, Text>): Result<Text, TransportError>
    decreases |template|
  {
    match Find(template, '{')
    case None => Ok(template)
    case Some(start) => ExpandHole(template[..start], template[start + 1..], values)
  }

  // After an opening brace.
  function ExpandHole(head: Text, after: Text, values: map<Text, Text>): Result<Text, TransportError>
    decreases |after|
  {
    match Find(after, '}')
    case None => Err(InvalidInput)
    case Some(end) =>
      var name := after[..end];
      if name !in values then Err(InvalidInput)
      else Prefixed(head + Encode(values[name]), Expand(after[end + 1..], values))
  }

  function Prefixed(head: Text, r: Result<Text, TransportError>): Result<Text, TransportError> {
    match r
    case Ok(text) => Ok(head + text)
    case Err(e) => Err(e)
  }

  predicate IsDotSegment(s: Text) {
    s == "." || s == ".."
  }

  // The checks on the finished path.
  predicate CleanPath(path: Text) {
    && '{' !in path && '}' !in path && '\\' !in path
    && forall i :: 0 <= i < |Split(path, '/')| ==> !IsDotSegment(Split(path, '/')[i])
  }

  function Materialize(template: Text, values: map<Text, Text>): Result<Text, TransportError> {
    match Expand(template, values)
    case Err(e) => Err(e)
    case Ok(path) => if CleanPath(path) then Ok(path) else Err(PathSmuggling)
  }

  // Whatever the template: a finished path has no brace, no backslash and no dot segment,
  // and one that could be expanded is refused for nothing else.
  lemma MaterializedIsClean(template: Text, values: map<Text, Text>)
    ensures var r := Materialize(template, values);
            && (r.Ok? ==> r == Expand(template, values))
            && (Expand(template, values).Err? ==> r == Expand(template, values))
            && (Expand(template, values).Ok? ==>
                  var path := Expand(template, values).value;
                  (r == Err(PathSmuggling) <==>
                     '{' in path || '}' in path || '\\' in path || "." in Split(path, '/') || ".." in Split(path, '/'))
                  && (r.Err? ==> r.error == PathSmuggling))
  {
    hide Expand, Split;
  }

  method MaterializePath(template: Text, values: map<Text, Text>) returns (r: Result<Text, TransportError>)
    ensures r == Materialize(template, values)
  {
    hide Find, Split, Encode;
    var out: Text := [];
    var rest := template;
    var start := Find(rest, '{');
    PrefixedNothing(Expand(template, values));
    while start.Some?
      invariant start == Find(rest, '{')
      invariant Expand(template, values) == Prefixed(out, Expand(rest, values))
      decreases |rest|
    {
      var after := rest[start.value + 1..];
      var end := Find(after, '}');
      if end.None? {
        return Err(InvalidInput);
      }
      var name := after[..end.value];
      if name !in values {
        return Err(InvalidInput);
      }
      var encoded := PercentEncodeComponent(values[name]);
      ghost var before := out;
      out := out + rest[..start.value];
      out := out + encoded;
      ghost var tail := Expand(after[end.value + 1..], values);
      PrefixedTwice(before, rest[..start.value] + encoded, tail);
      assert before + (rest[..start.value] + encoded) == out;
      rest := after[end.value + 1..];
      start := Find(rest, '{');
    }
    out := out + rest;
    if '{' in out || '}' in out || '\\' in out {
      return Err(PathSmuggling);
    }
    var segs := Split(out, '/');
    var i := 0;
    while i < |segs|
      invariant 0 <= i <= |segs|
      invariant forall j :: 0 <= j < i ==> !IsDotSegment(segs[j])
    {
      if segs[i] == ".." || segs[i] == "." {
        return Err(PathSmuggling);
      }
      i := i + 1;
    }
    return Ok(out);
  }

  lemma PrefixedNothing(r: Result<Text, TransportError>)
    ensures Prefixed([], r) == r
  {
    if r.Ok? {
      assert [] + r.value == r.value;
    }
  }

  lemma PrefixedTwice(a: Text, b: Text, r: Result<Text, TransportError>)
    ensures Prefixed(a, Prefixed(b, r)) == Prefixed(a + b, r)
  {
    if r.Ok? {
      assert a + (b + r.value) == (a + b) + r.value;
    }
  }

  // ---- templates whose placeholders are whole segments ----

  datatype Seg = Lit(text: Text) | Hole(name: Text)

  predicate SegOk(seg: Seg) {
    match seg
    case Lit(text) => '/' !in text && '{' !in text && '}' !in text
    case Hole(name) => '}' !in name
  }

  predicate TemplateOk(segs: seq<Seg>) {
    segs != [] && forall i :: 0 <= i < |segs| ==> SegOk(segs[i])
  }

  function SegText(seg: Seg): Text {
    match seg
    case Lit(text) => text
    case Hole(name) => ['{'] + name + ['}']
  }

  function TemplateText(segs: seq<Seg>): Text
    requires segs != []
  {
    if |segs| == 1 then SegText(segs[0]) else SegText(segs[0]) + ['/'] + TemplateText(segs[1..])
  }

  predicate HolesFilled(segs: seq<Seg>, values: map<Text, Text>) {
    forall i :: 0 <= i < |segs| && segs[i].Hole? ==> segs[i].name in values
  }

  function FilledSeg(seg: Seg, values: map<Text, Text>): Text {
    match seg
    case Lit(text) => text
    case Hole(name) => if name in values then Encode(values[name]) else []
  }

  function Filled(segs: seq<Seg>, values: map<Text, Text>): seq<Text> {
    seq(|segs|, i requires 0 <= i < |segs| => FilledSeg(segs[i], values))
  }

  lemma ExpandHoleLiteral(head: Text, inner: Text, after: Text, values: map<Text, Text>)
    ensures ExpandHole(head + inner, after, values) == Prefixed(head, ExpandHole(inner, after, values))
  {
    hide Find, Expand, Encode;
    match Find(after, '}')
    case None =>
    case Some(end) =>
      if after[..end] in values {
        var encoded := Encode(values[after[..end]]);
        PrefixedTwice(head, inner + encoded, Expand(after[end + 1..], values));
        assert head + (inner + encoded) == head + inner + encoded;
      }
  }

  lemma ExpandLiteral(head: Text, rest: Text, values: map<Text, Text>)
    requires '{' !in head
    ensures Expand(head + rest, values) == Prefixed(head, Expand(rest, values))
  {
    hide Find, ExpandHole;
    var t := head + rest;
    match Find(rest, '{')
    case None =>
      assert '{' !in t;
      assert Find(t, '{').None?;
    case Some(k) =>
      assert t[..|head| + k] == head + rest[..k];
      FindIs(t, '{', |head| + k);
      assert t[|head| + k + 1..] == rest[k + 1..];
      ExpandHoleLiteral(head, rest[..k], rest[k + 1..], values);
  }

  lemma ExpandOpened(after: Text, values: map<Text, Text>)
    ensures Expand(['{'] + after, values) == ExpandHole([], after, values)
  {
    hide ExpandHole;
    var t := ['{'] + after;
    FindIs(t, '{', 0);
    assert t[..0] == [] && t[1..] == after;
  }

  lemma ExpandPlaceholder(name: Text, rest: Text, values: map<Text, Text>)
    requires '}' !in name
    ensures Expand(['{'] + name + ['}'] + rest, values)
         == if name in values then Prefixed(Encode(values[name]), Expand(rest, values)) else Err(InvalidInput)
  {
    hide Split, Encode, Find, Expand;
    var after := name + ['}'] + rest;
    assert ['{'] + name + ['}'] + rest == ['{'] + after;
    ExpandOpened(after, values);
    assert after[..|name|] == name && after[|name| + 1..] == rest;
    FindIs(after, '}', |name|);
    if name in values {
      assert [] + Encode(values[name]) == Encode(values[name]);
    }
  }

  lemma ExpandSeg(seg: Seg, rest: Text, values: map<Text, Text>)
    requires SegOk(seg)
    ensures Expand(SegText(seg) + rest, values)
         == if seg.Hole? && seg.name !in values then Err(InvalidInput)
            else Prefixed(FilledSeg(seg, values), Expand(rest, values))
  {
    hide Expand, Encode, Prefixed;
    match seg
    case Lit(text) => ExpandLiteral(text, rest, values);
    case Hole(name) => ExpandPlaceholder(name, rest, values);
  }

  lemma HolesFilledCons(segs: seq<Seg>, values: map<Text, Text>)
    requires segs != []
    ensures HolesFilled(segs, values) <==>
              (segs[0].Hole? ==> segs[0].name in values) && HolesFilled(segs[1..], values)
  {
    assert forall i :: 0 < i < |segs| ==> segs[i] == segs[1..][i - 1];
  }

  lemma {:induction false} ExpandTemplate(segs: seq<Seg>, values: map<Text, Text>)
    requires TemplateOk(segs)
    ensures Expand(TemplateText(segs), values)
         == if HolesFilled(segs, values) then Ok(Join(Filled(segs, values), '/')) else Err(InvalidInput)
    decreases segs
  {
    hide Expand, SegText, FilledSeg;
    HolesFilledCons(segs, values);
    if |segs| == 1 {
      ExpandSeg(segs[0], [], values);
      ExpandEmpty(values);
      assert SegText(segs[0]) + [] == SegText(segs[0]);
      assert FilledSeg(segs[0], values) + [] == FilledSeg(segs[0], values);
    } else {
      var rest := TemplateText(segs[1..]);
      assert Filled(segs, values)[1..] == Filled(segs[1..], values);
      ExpandTemplate(segs[1..], values);
      ExpandLiteral(['/'], rest, values);
      ExpandSeg(segs[0], ['/'] + rest, values);
      assert SegText(segs[0]) + (['/'] + rest) == SegText(segs[0]) + ['/'] + rest;
      if HolesFilled(segs, values) {
        var joined := Join(Filled(segs[1..], values), '/');
        assert FilledSeg(segs[0], values) + (['/'] + joined) == FilledSeg(segs[0], values) + ['/'] + joined;
        assert Filled(segs, values)[0] == FilledSeg(segs[0], values);
      }
    }
  }

  lemma ExpandEmpty(values: map<Text, Text>)
    ensures Expand([], values) == Ok([])
  {
  }

  // What a template needs of its literal segments.
  predicate LiteralsClean(segs: seq<Seg>) {
    forall i :: 0 <= i < |segs| && segs[i].Lit? ==> '\\' !in segs[i].text && !IsDotSegment(segs[i].text)
  }

  // A template fills to Ok exactly when every placeholder has a value, no literal
  // segment is suspect and no value is a dot segment; the path then has the segments of
  // the template, literals unchanged, and each placeholder's segment decodes to its
  // value and to nothing else.
  lemma PathRoundTrip(segs: seq<Seg>, values: map<Text, Text>)
    requires TemplateOk(segs)
    ensures var r := Materialize(TemplateText(segs), values);
            && (r.Ok? <==>
                  && HolesFilled(segs, values) && LiteralsClean(segs)
                  && forall i :: 0 <= i < |segs| && segs[i].Hole? ==> !IsDotSegment(values[segs[i].name]))
            && (r.Err? ==> (r.error.InvalidInput? <==> !HolesFilled(segs, values)))
            && (r.Ok? ==>
                  var parts := Split(r.value, '/');
                  && |parts| == |segs|
                  && (forall i :: 0 <= i < |segs| ==>
                        && !IsDotSegment(parts[i])
                        && (segs[i].Lit? ==> parts[i] == segs[i].text)
                        && (segs[i].Hole? ==> Decode(parts[i]) == values[segs[i].name])))
  {
    hide Expand, Encode, Decode, Find, Split;
    ExpandTemplate(segs, values);
    if HolesFilled(segs, values) {
      var parts := Filled(segs, values);
      forall i | 0 <= i < |parts|
        ensures '/' !in parts[i] && '{' !in parts[i] && '}' !in parts[i]
        ensures '\\' in parts[i] ==> segs[i].Lit?
        ensures segs[i].Hole? ==> Decode(parts[i]) == values[segs[i].name]
        ensures segs[i].Hole? ==> (IsDotSegment(parts[i]) <==> IsDotSegment(values[segs[i].name]))
      {
        if segs[i].Hole? {
          EncodeAlphabet(values[segs[i].name]);
          DecodeEncode(values[segs[i].name]);
          EncodeKeepsDots(values[segs[i].name]);
        }
      }
      SplitJoin(parts, '/');
      JoinMembers(parts, '/');
    }
  }

  lemma {:induction false} JoinMembers(parts: seq<Text>, c: Octet)
    requires parts != []
    ensures forall x :: x in Join(parts, c) <==> (x == c && |parts| > 1) || exists i :: 0 <= i < |parts| && x in parts[i]
  {
    if |parts| > 1 {
      var rest := parts[1..];
      JoinMembers(rest, c);
      forall x ensures x in Join(parts, c) <==> x == c || exists i :: 0 <= i < |parts| && x in parts[i] {
        if x in Join(rest, c) && x != c {
          var i :| 0 <= i < |rest| && x in rest[i];
          assert x in parts[i + 1];
        }
        if i :| 0 <= i < |parts| && x in parts[i] {
          assert i > 0 ==> x in rest[i - 1];
        }
      }
    }
  }

  // ---- queries ----

  function PairText(p: (Text, Text)): Text {
    Encode(p.0) + ['='] + Encode(p.1)
  }

  function QueryText(pairs: seq<(Text, Text)>): Text {
    if pairs == [] then []
    else if |pairs| == 1 then PairText(pairs[0])
    else QueryText(pairs[..|pairs| - 1]) + ['&'] + PairText(pairs[|pairs| - 1])
  }

  // Reading a query: pairs at '&', each at its first '=', both halves decoded.
  function ParsePair(s: Text): (Text, Text) {
    match Find(s, '=')
    case None => (Decode(s), [])
    case Some(k) => (Decode(s[..k]), Decode(s[k + 1..]))
  }

  function ParseQuery(s: Text): seq<(Text, Text)> {
    var parts := Split(s, '&');
    seq(|parts|, i requires 0 <= i < |parts| => ParsePair(parts[i]))
  }

  lemma ParsePairText(p: (Text, Text))
    ensures ParsePair(PairText(p)) == p
    ensures '&' !in PairText(p)
  {
    hide Encode, Decode, Find;
    EncodeAlphabet(p.0);
    EncodeAlphabet(p.1);
    var s := PairText(p);
    var k := |Encode(p.0)|;
    assert s[..k] == Encode(p.0) && s[k + 1..] == Encode(p.1);
    FindIs(s, '=', k);
    DecodeEncode(p.0);
    DecodeEncode(p.1);
  }

  function PairTexts(pairs: seq<(Text, Text)>): seq<Text> {
    seq(|pairs|, i requires 0 <= i < |pairs| => PairText(pairs[i]))
  }

  lemma {:induction false} JoinAppend(parts: seq<Text>, last: Text, c: Octet)
    requires parts != []
    ensures Join(parts + [last], c) == Join(parts, c) + [c] + last
  {
    if |parts| == 1 {
      assert (parts + [last])[1..] == [last];
    } else {
      JoinAppend(parts[1..], last, c);
      assert (parts + [last])[1..] == parts[1..] + [last];
    }
  }

  lemma {:induction false} QueryIsJoin(pairs: seq<(Text, Text)>)
    requires pairs != []
    ensures QueryText(pairs) == Join(PairTexts(pairs), '&')
  {
    hide PairText;
    if |pairs| > 1 {
      var init, last := pairs[..|pairs| - 1], pairs[|pairs| - 1];
      PairTextsSplit(pairs);
      QueryIsJoin(init);
      QuerySplit(pairs);
      hide *;
      JoinAppend(PairTexts(init), PairText(last), '&');
    }
  }

  lemma PairTextsSplit(pairs: seq<(Text, Text)>)
    requires pairs != []
    ensures var init, last := pairs[..|pairs| - 1], pairs[|pairs| - 1];
            PairTexts(pairs) == PairTexts(init) + [PairText(last)] && |PairTexts(init)| == |init|
  {
    hide PairText;
  }

  lemma QuerySplit(pairs: seq<(Text, Text)>)
    requires |pairs| > 1
    ensures QueryText(pairs) == QueryText(pairs[..|pairs| - 1]) + ['&'] + PairText(pairs[|pairs| - 1])
  {
    hide PairText;
  }

  // A built query reads back as exactly the pairs it was built from, in their order.
  lemma QueryRoundTrip(pairs: seq<(Text, Text)>)
    requires pairs != []
    ensures ParseQuery(QueryText(pairs)) == pairs
  {
    hide Encode, PairText, ParsePair, Split, Join;
    QueryIsJoin(pairs);
    var texts := PairTexts(pairs);
    forall i | 0 <= i < |pairs| ensures '&' !in texts[i] && ParsePair(texts[i]) == pairs[i] {
      ParsePairText(pairs[i]);
    }
    SplitJoin(texts, '&');
  }

  method AppendQuery(url: Text, pairs: seq<(Text, Text)>) returns (out: Text)
    ensures out == url + QueryText(pairs)
  {
    hide Encode;
    out := url;
    var first := true;
    var i := 0;
    while i < |pairs|
      invariant 0 <= i <= |pairs| && (first <==> i == 0)
      invariant out == url + QueryText(pairs[..i])
    {
      assert pairs[..i + 1][..i] == pairs[..i];
      if !first {
        out := out + ['&'];
      }
      first := false;
      var key := PercentEncodeComponent(pairs[i].0);
      var value := PercentEncodeComponent(pairs[i].1);
      out := out + key;
      out := out + ['='];
      out := out + value;
      assert out == url + (QueryText(pairs[..i]) + (if i > 0 then ['&'] else []) + PairText(pairs[i]));
      i := i + 1;
    }
    assert pairs[..|pairs|] == pairs;
  }
}
