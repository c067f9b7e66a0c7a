/** Printing an accepted origin-form target and parsing the text again. */
module RqTargetRoundTrip {
  import opened Octets
  import opened NumericUtils
  import opened PercentCodec
  import opened PathNormalization
  import opened DotSegments
  import opened RqTarget

  // A target that names no scheme: it opens with a slash and has no "://".
  predicate OriginForm(raw: Bytes) {
    raw != [] && raw[0] == '/' && FindStr(raw, SCHEME_SEP, 0).None?
  }

  // The raw path of an origin-form target, up to '?' or '#'.
  function RawPath(raw: Bytes): Bytes { raw[..FindAny(raw, ['?', '#'], 0)] }

  function RawQuery(raw: Bytes): Component { QueryPart(raw, FindAny(raw, ['?', '#'], 0)).0 }

  function RawFragment(raw: Bytes): Component {
    FragmentPart(raw, QueryPart(raw, FindAny(raw, ['?', '#'], 0)).1)
  }

  function Parts(path: Bytes, query: Component, fragment: Component): Target {
    Target({}, None, None, None, None, Some(path), query, fragment)
  }

  /** For an origin-form target, normalisation touches path and query only. */
  lemma OriginFormSplit(raw: Bytes)
    requires OriginForm(raw) && |raw| <= RQ_TARGET_LEN_LIMIT
    ensures RawPath(raw) != [] && RawPath(raw)[0] == '/'
    ensures Parse(raw) == NormQuery(NormPath(Checked(Parts(RawPath(raw), RawQuery(raw), RawFragment(raw)))))
  {
    var e := FindAny(raw, ['?', '#'], 0);
    assert Split(raw) == Parts(RawPath(raw), RawQuery(raw), RawFragment(raw)) by {
      assert PathPart(raw, 0) == (Some(raw[0..e]), e);
      assert raw[0..e] == raw[..e];
    }
    var c := Checked(Split(raw));
    assert NormPort(NormHost(c)) == c;
  }

  // The value a clean path and query take.
  predicate CleanPath(path: Bytes) {
    ValidPath(path) && Decode(path, PATH_KEEP).Some? && Rooted(FlattenedPath(path))
    && RemoveDots(FlattenedPath(path)).Some?
  }

  predicate CleanQuery(query: Component) {
    query.Some? ==> ValidChars(QueryChars, query.value) && Decode(query.value, QUERY_KEEP).Some?
  }

  function CleanTarget(path: Bytes, query: Component): Target
    requires CleanPath(path) && CleanQuery(query)
  {
    Target({}, None, None, None, None, RemoveDots(FlattenedPath(path)),
           if query.None? then None else Some(UpperHex(Decode(query.value, QUERY_KEEP).value)), None)
  }

  /** Checking and normalising the parts leaves no flag exactly when they are clean. */
  lemma CleanParts(path: Bytes, query: Component, fragment: Component)
    requires path != [] && path[0] == '/'
    ensures var t := NormQuery(NormPath(Checked(Parts(path, query, fragment))));
            && (t.Good() <==> CleanPath(path) && CleanQuery(query) && fragment.None?)
            && (t.Good() ==> t == CleanTarget(path, query))
  {
    FlattenedPathIsRooted(path);
    var s := Parts(path, query, fragment);
    var c := Checked(s);
    assert c.validity == PathFlags(s.path) + QueryFlags(s.query) + FragmentFlags(s.fragment);
    var n := NormPath(c);
    assert n.validity == c.validity + FlagUnless(Decode(path, PATH_KEEP).Some?, BadPath)
                         + FlagUnless(RemoveDots(FlattenedPath(path)).Some?, BadPath);
    assert n.query == query;
    var t := NormQuery(n);
    assert t.validity
           == n.validity + if query.None? then {} else FlagUnless(Decode(query.value, QUERY_KEEP).Some?, BadQuery);
    assert t.validity == {} <==>
           PathFlags(s.path) == {} && QueryFlags(s.query) == {} && FragmentFlags(s.fragment) == {}
           && Decode(path, PATH_KEEP).Some? && RemoveDots(FlattenedPath(path)).Some?
           && (query.Some? ==> Decode(query.value, QUERY_KEEP).Some?);
  }

  /** An origin-form target is accepted exactly when it fits, has no fragment,
      and its path and query are clean; then these give its value. */
  lemma OriginFormAccepted(raw: Bytes)
    requires OriginForm(raw)
    ensures Parse(raw).Good() <==>
            && |raw| <= RQ_TARGET_LEN_LIMIT && CleanPath(RawPath(raw)) && CleanQuery(RawQuery(raw))
            && RawFragment(raw).None?
    ensures Parse(raw).Good() ==> Parse(raw) == CleanTarget(RawPath(raw), RawQuery(raw))
  {
    if |raw| > RQ_TARGET_LEN_LIMIT {
      assert TooLong in Parse(raw).validity;
    } else {
      OriginFormSplit(raw);
      CleanParts(RawPath(raw), RawQuery(raw), RawFragment(raw));
    }
  }

  // ----- what the encoder's output looks like

  predicate Escaped(keep: KeepSet, c: char) {
    c == '%' || IsHexDigit(c) || InUnreserved(c) || InKeepSet(keep, c)
  }

  lemma {:induction false} EncodeAlphabet(s: Bytes, keep: KeepSet)
    ensures forall i :: 0 <= i < |Encode(s, keep)| ==> Escaped(keep, Encode(s, keep)[i])
    ensures |Encode(s, keep)| >= |s|
  {
    if s != [] {
      EncodeAlphabet(s[1..], keep);
      var piece := EncodeByte(keep, s[0]);
      assert forall i :: 0 <= i < |piece| ==> Escaped(keep, piece[i]);
    }
  }

  lemma {:induction false} EncodeIsValid(s: Bytes, keep: KeepSet, alphabet: Alphabet)
    requires forall c: Byte :: InKeepSet(keep, c) ==> Allowed(alphabet, c)
    ensures ValidChars(alphabet, Encode(s, keep))
  {
    if s != [] {
      EncodeIsValid(s[1..], keep, alphabet);
      var piece, rest := EncodeByte(keep, s[0]), Encode(s[1..], keep);
      if CopiedByEncode(keep, s[0]) {
        assert (piece + rest)[1..] == rest;
      } else {
        assert IsEncodedOctet(piece + rest) && (piece + rest)[3..] == rest;
      }
    }
  }

  lemma EncodePathShape(p: Bytes)
    requires p != [] && p[0] == '/' && (|p| >= 2 ==> p[1] != '/')
    ensures ValidPath(Encode(p, PATH_KEEP))
    ensures forall i :: 0 <= i < |Encode(p, PATH_KEEP)| ==> Encode(p, PATH_KEEP)[i] !in [':', '?', '#']
  {
    EncodeIsValid(p, PATH_KEEP, PathChars);
    EncodeKeepsPathStart(p);
    EncodeAlphabet(p, PATH_KEEP);
    EscapedIsInPath();
    hide Encode;
    hide ValidChars;
    hide Escaped;
  }

  lemma EscapedIsInPath()
    ensures forall c: char :: Escaped(PATH_KEEP, c) ==> c !in [':', '?', '#']
  {
  }

  lemma EncodeKeepsPathStart(p: Bytes)
    requires p != [] && p[0] == '/' && (|p| >= 2 ==> p[1] != '/')
    ensures var s := Encode(p, PATH_KEEP); s != [] && s[0] == '/' && (|s| >= 2 ==> s[1] != '/')
  {
    assert Encode(p, PATH_KEEP) == [p[0]] + Encode(p[1..], PATH_KEEP);
    if |p| >= 2 {
      var rest := Encode(p[1..][1..], PATH_KEEP);
      assert Encode(p[1..], PATH_KEEP) == EncodeByte(PATH_KEEP, p[1]) + rest;
      assert EncodeByte(PATH_KEEP, p[1])[0] != '/';
    }
  }

  lemma EncodeQueryShape(q: Bytes)
    ensures ValidChars(QueryChars, Encode(q, QUERY_KEEP))
    ensures forall i :: 0 <= i < |Encode(q, QUERY_KEEP)| ==> Encode(q, QUERY_KEEP)[i] !in [':', '?', '#']
  {
    EncodeIsValid(q, QUERY_KEEP, QueryChars);
    EncodeAlphabet(q, QUERY_KEEP);
  }

  predicate NoDelimiters(s: Bytes) {
    forall i :: 0 <= i < |s| ==> s[i] !in [':', '?', '#']
  }

  lemma NoColonNoScheme(raw: Bytes)
    requires forall i :: 0 <= i < |raw| ==> raw[i] != ':'
    ensures FindStr(raw, SCHEME_SEP, 0).None?
  {
    forall k | 0 <= k ensures !OccursAt(raw, SCHEME_SEP, k) {
      assert k + 3 <= |raw| ==> raw[k..k + 3][0] == raw[k];
    }
  }

  lemma PathAlone(path: Bytes)
    requires path != [] && path[0] == '/' && NoDelimiters(path)
    ensures OriginForm(path) && RawPath(path) == path && RawQuery(path).None? && RawFragment(path).None?
  {
    NoColonNoScheme(path);
    assert FindAny(path, ['?', '#'], 0) == |path|;
  }

  lemma PathAndQuery(path: Bytes, query: Bytes)
    requires path != [] && path[0] == '/' && NoDelimiters(path) && NoDelimiters(query)
    ensures var raw := path + (['?'] + query);
            OriginForm(raw) && RawPath(raw) == path && RawQuery(raw) == Some(query) && RawFragment(raw).None?
  {
    var raw := path + (['?'] + query);
    assert forall i :: 0 <= i < |raw| ==>
      raw[i] == if i < |path| then path[i] else if i == |path| then '?' else query[i - |path| - 1];
    NoColonNoScheme(raw);
    var e := FindAny(raw, ['?', '#'], 0);
    assert raw[|path|] == '?' && forall i :: 0 <= i < |path| ==> raw[i] == path[i] && raw[i] !in ['?', '#'];
    assert e == |path| && raw[..e] == path;
    assert FindAny(raw, ['#'], e + 1) == |raw|;
    assert raw[e + 1..|raw|] == query;
  }

  lemma PrintOfParts(t: Target)
    requires t == Target({}, None, None, None, None, t.path, t.query, None) && t.path.Some?
    ensures Print(t) == Encode(t.path.value, PATH_KEEP)
                        + if t.query.None? then [] else ['?'] + Encode(t.query.value, QUERY_KEEP)
  {
    var path := Encode(t.path.value, PATH_KEEP);
    var s5 := Streamed([], [], Some(path), []);
    assert s5 == path;
    var s6 := Streamed(s5, ['?'], Encoded(t.query, QUERY_KEEP), []);
    assert Print(t) == s6;
    if t.query.Some? {
      var query := Encode(t.query.value, QUERY_KEEP);
      assert ['?'] + query + [] == ['?'] + query;
    }
  }

  /** The printed text splits into the encoded path and the encoded query. */
  lemma PrintedParts(t: Target)
    requires t == Target({}, None, None, None, None, t.path, t.query, None) && t.path.Some?
    requires var p := t.path.value; p != [] && p[0] == '/' && (|p| >= 2 ==> p[1] != '/')
    ensures var raw := Print(t);
            && OriginForm(raw) && RawPath(raw) == Encode(t.path.value, PATH_KEEP)
            && RawQuery(raw) == Encoded(t.query, QUERY_KEEP) && RawFragment(raw).None?
  {
    var path := Encode(t.path.value, PATH_KEEP);
    EncodePathShape(t.path.value);
    PrintOfParts(t);
    if t.query.None? {
      assert path + [] == path;
      PathAlone(path);
    } else {
      var query := Encode(t.query.value, QUERY_KEEP);
      EncodeQueryShape(t.query.value);
      PathAndQuery(path, query);
    }
  }

  // ----- the normalised path

  /** Upper-casing moves no slash, dot or percent sign. */
  lemma UpperHexKeepsPunctuation(s: Bytes)
    ensures forall i :: 0 <= i < |s| ==>
              (UpperHex(s)[i] == '/' <==> s[i] == '/') && (UpperHex(s)[i] == '.' <==> s[i] == '.')
    ensures NoDoubleSlash(s) ==> NoDoubleSlash(UpperHex(s))
  {
  }

  lemma DecodeKeepsLeadingSlash(s: Bytes)
    requires Decode(s, PATH_KEEP).Some?
    ensures var d := Decode(s, PATH_KEEP).value;
            && (d == [] <==> s == [])
            && (s != [] ==> (d[0] == '/' <==> s[0] == '/'))
  {
    if s != [] && s[0] == '%' {
      var piece := DecodeEscape(PATH_KEEP, s[..3]).value;
      assert piece != [] && piece[0] != '/';
    }
  }

  /** The path an accepted target carries: rooted, without double slashes and
      without dot segments. */
  lemma CleanPathShape(path: Bytes)
    requires CleanPath(path)
    ensures var p := RemoveDots(FlattenedPath(path)).value;
            p != [] && p[0] == '/' && NoDoubleSlash(p) && Dotless(Segments(p))
  {
    var d := Decode(path, PATH_KEEP).value;
    DecodeKeepsLeadingSlash(path);
    DecodeKeepsLeadingSlash(path[1..]);
    assert Decode(path, PATH_KEEP) == Prepend(['/'], Decode(path[1..], PATH_KEEP));
    assert d[1..] == Decode(path[1..], PATH_KEEP).value;
    assert |d| >= 2 ==> d[1] == d[1..][0] != '/';
    UpperHexKeepsPunctuation(d);
    var u := UpperHex(d);
    CollapseShape(u);
    RemoveDotsNoDoubleSlash(Collapse(u));
    RemoveDotsRefinesRfc(Collapse(u));
  }

  lemma {:induction false} SamePunctuation(a: Bytes, b: Bytes)
    requires |a| == |b| && Rooted(a)
    requires forall i :: 0 <= i < |a| ==> (a[i] == '/' <==> b[i] == '/') && (a[i] == '.' <==> b[i] == '.')
    ensures Rooted(b)
    ensures Dotless(Segments(a)) ==> Dotless(Segments(b))
  {
    if a != [] && Dotless(Segments(a)) {
      var e := SegmentEnd(a);
      assert forall k :: 1 <= k < e ==> a[k] == a[1..e][k - 1];
      assert SegmentEnd(b) == e by {
        var f := SegmentEnd(b);
        assert forall k :: 1 <= k < f ==> b[k] == b[1..f][k - 1];
      }
      SamePunctuation(a[e..], b[e..]);
      assert Segments(a)[0] == a[1..e] && Segments(a)[1..] == Segments(a[e..]);
      assert forall i :: 0 <= i < |Segments(a[e..])| ==> Segments(a[e..])[i] == Segments(a)[i + 1];
      SameDots(a[1..e], b[1..e]);
    }
  }

  lemma SameDots(x: Bytes, y: Bytes)
    requires |x| == |y| && forall i :: 0 <= i < |x| ==> (x[i] == '.' <==> y[i] == '.')
    ensures y == DOT ==> x == DOT
    ensures y == DOTDOT ==> x == DOTDOT
  {
  }

  /** Normalising the printed path only upper-cases it. */
  lemma ReflattenedPath(p: Bytes)
    requires p != [] && p[0] == '/' && NoDoubleSlash(p) && Dotless(Segments(p))
    ensures Decode(Encode(p, PATH_KEEP), PATH_KEEP) == Some(p)
    ensures FlattenedPath(Encode(p, PATH_KEEP)) == UpperHex(p) && Rooted(UpperHex(p))
    ensures RemoveDots(UpperHex(p)) == Some(UpperHex(p))
  {
    CodecRoundTrip(p, PATH_KEEP, PATH_KEEP);
    UpperHexKeepsPunctuation(p);
    CollapseIdentity(UpperHex(p));
    SamePunctuation(p, UpperHex(p));
    RemoveDotsIdentity(UpperHex(p));
  }

  lemma ReparsedQuery(q: Bytes)
    requires HexIsUpper(q)
    ensures Decode(Encode(q, QUERY_KEEP), QUERY_KEEP) == Some(q) && UpperHex(q) == q
  {
    CodecRoundTrip(q, QUERY_KEEP, QUERY_KEEP);
    UpperHexFixpoint(q);
  }

  /** Print and reparse: for every accepted origin-form target, constructing a
      target from its text gives an accepted, equal target exactly when the
      text is within the length limit and no lower-case letter follows a '%'
      in the normalised path. */
  lemma PrintReparse(raw: Bytes)
    requires OriginForm(raw) && Parse(raw).Good()
    ensures var t := Parse(raw);
            Parse(Print(t)) == t <==> |Print(t)| <= RQ_TARGET_LEN_LIMIT && HexIsUpper(t.path.value)
  {
    OriginFormAccepted(raw);
    var t := Parse(raw);
    CleanPathShape(RawPath(raw));
    var p := t.path.value;
    PrintedParts(t);
    var text := Print(t);
    OriginFormAccepted(text);
    EncodePathShape(p);
    ReflattenedPath(p);
    if t.query.Some? {
      UpperHexIdempotent(Decode(RawQuery(raw).value, QUERY_KEEP).value);
      ReparsedQuery(t.query.value);
      EncodeQueryShape(t.query.value);
    }
    assert CleanPath(RawPath(text)) && CleanQuery(RawQuery(text));
    UpperHexFixpoint(p);
    if |text| > RQ_TARGET_LEN_LIMIT {
      assert TooLong in Parse(text).validity;
    } else {
      assert Parse(text) == t.(path := Some(UpperHex(p)));
    }
  }
}
