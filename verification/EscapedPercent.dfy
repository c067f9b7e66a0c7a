/** Which raw paths print and reparse: those without an escaped percent sign
    always do, and one with it need not. */
module EscapedPercent {
  import opened Octets
  import opened NumericUtils
  import opened PercentCodec
  import opened PathNormalization
  import opened DotSegments
  import opened RqTarget
  import opened RqTargetRoundTrip

  const PERCENT_25: Bytes := ['%', '2', '5']

  predicate NoEscapedPercent(path: Bytes) {
    forall i :: 0 <= i <= |path| ==> !OccursAt(path, PERCENT_25, i)
  }

  // Every '%' opens an escape.
  predicate OnlyEscapes(s: Bytes) {
    forall i :: 0 <= i < |s| && s[i] == '%' ==> i + 2 < |s| && IsHexDigit(s[i + 1]) && IsHexDigit(s[i + 2])
  }

  lemma OnlyEscapesConcat(a: Bytes, b: Bytes)
    requires OnlyEscapes(a) && OnlyEscapes(b)
    ensures OnlyEscapes(a + b)
  {
    forall i | 0 <= i < |a + b| && (a + b)[i] == '%'
      ensures i + 2 < |a + b| && IsHexDigit((a + b)[i + 1]) && IsHexDigit((a + b)[i + 2])
    {
      if i >= |a| {
        assert b[i - |a|] == '%';
      }
    }
  }

  lemma DecodedEscape(esc: Bytes)
    requires IsEncodedOctet(esc) && |esc| == 3 && esc != PERCENT_25
    ensures DecodeEscape(PATH_KEEP, esc).Some? && OnlyEscapes(DecodeEscape(PATH_KEEP, esc).value)
  {
    HexPair(esc[1..], USHORT_MAX);
    TwoHexDigits(esc[1..]);
    assert esc == [esc[0], esc[1], esc[2]];
  }

  lemma NoEscapedPercentSuffix(s: Bytes, n: nat)
    requires n <= |s| && NoEscapedPercent(s)
    ensures NoEscapedPercent(s[n..])
  {
    forall i | 0 <= i <= |s[n..]| ensures !OccursAt(s[n..], PERCENT_25, i) {
      assert !OccursAt(s, PERCENT_25, n + i);
      assert n + i + 3 <= |s| ==> s[n..][i..i + 3] == s[n + i..n + i + 3];
    }
  }

  lemma {:induction false} DecodeLeavesEscapes(s: Bytes)
    requires ValidChars(PathChars, s) && NoEscapedPercent(s)
    ensures Decode(s, PATH_KEEP).Some? ==> OnlyEscapes(Decode(s, PATH_KEEP).value)
  {
    if s != [] {
      if IsEncodedOctet(s) {
        assert !OccursAt(s, PERCENT_25, 0) && s[..3] == s[0..3];
        NoEscapedPercentSuffix(s, 3);
        DecodeLeavesEscapes(s[3..]);
        DecodedEscape(s[..3]);
        if Decode(s[3..], PATH_KEEP).Some? {
          OnlyEscapesConcat(DecodeEscape(PATH_KEEP, s[..3]).value, Decode(s[3..], PATH_KEEP).value);
        }
      } else {
        NoEscapedPercentSuffix(s, 1);
        DecodeLeavesEscapes(s[1..]);
        if Decode(s[1..], PATH_KEEP).Some? {
          OnlyEscapesConcat([s[0]], Decode(s[1..], PATH_KEEP).value);
        }
      }
    }
  }

  // Every '%' opens an escape in upper case.
  predicate OnlyUpperEscapes(s: Bytes) {
    OnlyEscapes(s) && HexIsUpper(s)
  }

  lemma UpperHexLeavesUpperEscapes(s: Bytes)
    requires OnlyEscapes(s)
    ensures OnlyUpperEscapes(UpperHex(s))
  {
    UpperHexIdempotent(s);
  }

  // In a concatenation of strings with whole escapes, a byte after a percent
  // sign has that percent sign in its own part.
  lemma AfterPercentInPart(a: Bytes, b: Bytes, j: nat)
    requires OnlyEscapes(a) && OnlyEscapes(b) && AfterPercent(a + b, j)
    ensures if j < |a| then AfterPercent(a, j) else AfterPercent(b, j - |a|)
  {
    var s := a + b;
    var i := if j >= 1 && s[j - 1] == '%' then j - 1 else j - 2;
    assert s[i] == '%' && (i < |a| ==> a[i] == '%') && (i >= |a| ==> b[i - |a|] == '%');
  }

  lemma HexIsUpperConcat(a: Bytes, b: Bytes)
    requires OnlyUpperEscapes(a) && OnlyUpperEscapes(b)
    ensures OnlyUpperEscapes(a + b)
  {
    OnlyEscapesConcat(a, b);
    hide AfterPercent;
    hide OnlyEscapes;
    forall j | 0 <= j < |a + b| && AfterPercent(a + b, j) ensures !IsLower((a + b)[j]) {
      AfterPercentInPart(a, b, j);
    }
  }

  lemma UpperEscapesSlice(s: Bytes, lo: nat, hi: nat)
    requires lo <= hi <= |s| && OnlyUpperEscapes(s)
    requires hi < |s| ==> s[hi] == '/'
    ensures OnlyUpperEscapes(s[lo..hi])
  {
    var t := s[lo..hi];
    forall i | 0 <= i < |t| && t[i] == '%' ensures i + 2 < |t| && IsHexDigit(t[i + 1]) && IsHexDigit(t[i + 2]) {
      assert s[lo + i] == '%';
    }
    forall j | 0 <= j < |t| && AfterPercent(t, j) ensures !IsLower(t[j]) {
      assert AfterPercent(s, lo + j);
    }
  }

  lemma {:induction false} CollapseLeavesUpperEscapes(s: Bytes, i: nat)
    requires i <= |s| && OnlyUpperEscapes(s)
    ensures OnlyUpperEscapes(CollapseFrom(s, i))
    decreases |s| - i
  {
    if i < |s| {
      if s[i] == '%' {
        assert AfterPercent(s, i + 1) && AfterPercent(s, i + 2);
        CollapseFromCopies(s, i, i + 3);
        CollapseLeavesUpperEscapes(s, i + 3);
        HexIsUpperConcat(s[i..i + 3], CollapseFrom(s, i + 3));
      } else {
        CollapseLeavesUpperEscapes(s, i + 1);
        HexIsUpperConcat([s[i]], CollapseFrom(s, i + 1));
      }
    }
  }

  predicate AllUpperEscapes(segs: seq<Bytes>) {
    forall i :: 0 <= i < |segs| ==> OnlyUpperEscapes(segs[i])
  }

  lemma {:induction false} SegmentsUpperEscapes(p: Bytes)
    requires Rooted(p) && OnlyUpperEscapes(p)
    ensures AllUpperEscapes(Segments(p))
  {
    if p != [] {
      var e := SegmentEnd(p);
      UpperEscapesSlice(p, 1, e);
      UpperEscapesSlice(p, e, |p|);
      SegmentsUpperEscapes(p[e..]);
    }
  }

  lemma {:induction false} PathUpperEscapes(segs: seq<Bytes>)
    requires AllUpperEscapes(segs)
    ensures OnlyUpperEscapes(Path(segs))
  {
    if segs != [] {
      PathUpperEscapes(segs[1..]);
      HexIsUpperConcat(['/'], segs[0]);
      HexIsUpperConcat(['/'] + segs[0], Path(segs[1..]));
    }
  }

  lemma {:induction false} ResolveUpperEscapes(segs: seq<Bytes>, stack: seq<Bytes>)
    requires AllUpperEscapes(segs) && AllUpperEscapes(stack)
    ensures Resolve(segs, stack).Some? ==> AllUpperEscapes(Resolve(segs, stack).value)
  {
    if segs != [] {
      if segs[0] == DOT {
        ResolveUpperEscapes(segs[1..], stack);
      } else if segs[0] == DOTDOT {
        ResolveUpperEscapes(segs[1..], if stack == [] then [] else stack[..|stack| - 1]);
      } else {
        ResolveUpperEscapes(segs[1..], stack + [segs[0]]);
      }
    }
  }

  /** A clean path without an escaped percent sign normalises to one whose
      escapes are all in upper case. */
  lemma NoEscapedPercentIsUpper(path: Bytes)
    requires CleanPath(path) && NoEscapedPercent(path)
    ensures HexIsUpper(RemoveDots(FlattenedPath(path)).value)
  {
    DecodeLeavesEscapes(path);
    var u := UpperHex(Decode(path, PATH_KEEP).value);
    UpperHexLeavesUpperEscapes(Decode(path, PATH_KEEP).value);
    CollapseLeavesUpperEscapes(u, 0);
    var flat := FlattenedPath(path);
    SegmentsUpperEscapes(flat);
    ResolveUpperEscapes(Segments(flat), []);
    PathUpperEscapes(Resolve(Segments(flat), []).value);
  }

  /** Print and reparse without the case condition: an accepted origin-form
      target with no escaped percent sign in its path survives whenever its
      text fits. */
  lemma PrintReparseWithoutEscapedPercent(raw: Bytes)
    requires OriginForm(raw) && Parse(raw).Good() && NoEscapedPercent(RawPath(raw))
    requires |Print(Parse(raw))| <= RQ_TARGET_LEN_LIMIT
    ensures Parse(Print(Parse(raw))) == Parse(raw)
  {
    OriginFormAccepted(raw);
    NoEscapedPercentIsUpper(RawPath(raw));
    PrintReparse(raw);
  }

  // "/%25//ab", what it decodes to, and what that collapses to
  const EXAMPLE: Bytes := ['/', '%', '2', '5', '/', '/', 'a', 'b']
  const EXAMPLE_DECODED: Bytes := ['/', '%', '/', '/', 'a', 'b']
  const EXAMPLE_PATH: Bytes := ['/', '%', '/', 'a', 'b']

  lemma {:induction false} PlainBytes(s: Bytes)
    requires forall i :: 0 <= i < |s| ==> s[i] == '/' || IsLower(s[i])
    ensures ValidChars(PathChars, s) && Decode(s, PATH_KEEP) == Some(s)
  {
    if s != [] {
      PlainBytes(s[1..]);
      assert [s[0]] + s[1..] == s;
    }
  }

  lemma ExampleIsValid()
    ensures ValidPath(EXAMPLE)
  {
    PlainBytes(EXAMPLE[4..]);
    assert EXAMPLE[1..][3..] == EXAMPLE[4..];
  }

  lemma PercentEscapeDecodes()
    ensures DecodeEscape(PATH_KEEP, PERCENT_25) == Some(['%'])
  {
    assert PERCENT_25[1..] == ['2', '5'];
    HexPair(['2', '5'], USHORT_MAX);
    TwoHexDigits(['2', '5']);
  }

  lemma ExampleDecodes()
    ensures ValidPath(EXAMPLE) && Decode(EXAMPLE, PATH_KEEP) == Some(EXAMPLE_DECODED)
  {
    var tail := EXAMPLE[4..];
    ExampleIsValid();
    PlainBytes(tail);
    PercentEscapeDecodes();
    hide DecodeEscape;
    hide ValidPath;
    assert EXAMPLE[1..][3..] == tail && EXAMPLE[1..][..3] == PERCENT_25;
    assert Decode(EXAMPLE[1..], PATH_KEEP) == Prepend(['%'], Some(tail));
    assert Decode(EXAMPLE, PATH_KEEP) == Prepend(['/'], Some(['%'] + tail));
    assert ['/'] + (['%'] + tail) == EXAMPLE_DECODED;
  }

  lemma ExampleCollapses()
    ensures Collapse(UpperHex(EXAMPLE_DECODED)) == EXAMPLE_PATH
  {
    var d := EXAMPLE_DECODED;
    assert UpperHex(d) == d;
    CollapseFromCopies(d, 4, 6);
    assert CollapseFrom(d, 6) == [] && d[4..6] == ['a', 'b'];
    assert CollapseFrom(d, 3) == ['/'] + ['a', 'b'];
    assert Dropped(d, 2) && CollapseFrom(d, 2) == CollapseFrom(d, 3);
    assert CollapseFrom(d, 1) == ['%'] + CollapseFrom(d, 2);
    assert CollapseFrom(d, 0) == ['/'] + CollapseFrom(d, 1);
  }

  lemma ExampleIsDotless()
    ensures RemoveDots(EXAMPLE_PATH) == Some(EXAMPLE_PATH)
  {
    SegmentsSplit(['a', 'b'], []);
    SegmentsSplit(['%'], ['/', 'a', 'b']);
    assert ['/'] + ['a', 'b'] + [] == ['/', 'a', 'b'];
    assert ['/'] + ['%'] + ['/', 'a', 'b'] == EXAMPLE_PATH;
    assert Segments(EXAMPLE_PATH) == [['%'], ['a', 'b']];
    RemoveDotsIdentity(EXAMPLE_PATH);
  }

  /** An escaped percent sign can break it: in "/%25//ab" collapsing moves a
      lower-case letter next to the '%' after the upper-casing pass is over. */
  lemma EscapedPercentBreaksReparse()
    ensures OriginForm(EXAMPLE) && Parse(EXAMPLE).Good()
    ensures Parse(Print(Parse(EXAMPLE))) != Parse(EXAMPLE)
  {
    PathAlone(EXAMPLE);
    ExampleDecodes();
    ExampleCollapses();
    ExampleIsDotless();
    OriginFormAccepted(EXAMPLE);
    assert AfterPercent(EXAMPLE_PATH, 3) && IsLower(EXAMPLE_PATH[3]);
    PrintReparse(EXAMPLE);
  }
}
