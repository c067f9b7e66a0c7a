/** The path passes of RqTarget::Normalize_: upper-casing of escapes, slash
    collapsing and dot-segment removal, each stated on its own terms. */
module PathNormalization {
  import opened Octets

  // ----- ConvertEncodedHexToUpper_

  // s[j] is one of the two bytes after a '%' that stands before position n
  // and has two bytes after it.
  predicate AfterPercentBelow(s: Bytes, j: int, n: int) {
    0 <= j < |s|
    && ((1 <= j <= n && j + 1 < |s| && s[j - 1] == '%') || (2 <= j <= n + 1 && s[j - 2] == '%'))
  }

  predicate AfterPercent(s: Bytes, j: int) { AfterPercentBelow(s, j, |s|) }

  function UpperHex(s: Bytes): (r: Bytes)
    ensures |r| == |s|
    ensures forall j :: 0 <= j < |s| ==> r[j] == if AfterPercent(s, j) then ToUpper(s[j]) else s[j]
  {
    seq(|s|, j requires 0 <= j < |s| => if AfterPercent(s, j) then ToUpper(s[j]) else s[j])
  }

  /** What a caller can read off the string: no lower-case letter stands in
      the two bytes after a '%'. */
  predicate HexIsUpper(s: Bytes) {
    forall j :: 0 <= j < |s| && AfterPercent(s, j) ==> !IsLower(s[j])
  }

  lemma UpperHexFixpoint(s: Bytes)
    ensures UpperHex(s) == s <==> HexIsUpper(s)
  {
    if UpperHex(s) == s {
      forall j | AfterPercent(s, j) ensures !IsLower(s[j]) {
        assert UpperHex(s)[j] == ToUpper(s[j]);
      }
    }
  }

  lemma UpperHexIdempotent(s: Bytes)
    ensures HexIsUpper(UpperHex(s))
  {
    var r := UpperHex(s);
    forall j | AfterPercent(r, j) ensures !IsLower(r[j]) {
      assert AfterPercent(s, j);
    }
  }

  method ConvertEncodedHexToUpper(str: Bytes) returns (r: Bytes)
    ensures r == UpperHex(str)
  {
    r := str;
    var i := 0;
    while i < |r|
      invariant 0 <= i <= |r| == |str|
      invariant forall j :: 0 <= j < |str| ==> r[j] == if AfterPercentBelow(str, j, i) then ToUpper(str[j]) else str[j]
    {
      if r[i] == '%' && i + 2 < |r| {
        r := r[i + 1 := ToUpper(r[i + 1])];
        r := r[i + 2 := ToUpper(r[i + 2])];
      }
      i := i + 1;
    }
    assert forall j :: 0 <= j < |str| ==> r[j] == UpperHex(str)[j];
  }

  // ----- CollapseSlashes_

  // The byte CollapseSlashes_ drops: a slash, not the first byte, before a slash.
  predicate Dropped(s: Bytes, i: int) {
    0 < i && i + 1 < |s| && s[i] == '/' && s[i + 1] == '/'
  }

  function CollapseFrom(s: Bytes, i: nat): Bytes
    requires i <= |s|
    decreases |s| - i
  {
    if i == |s| then []
    else if Dropped(s, i) then CollapseFrom(s, i + 1)
    else [s[i]] + CollapseFrom(s, i + 1)
  }

  function Collapse(s: Bytes): Bytes { CollapseFrom(s, 0) }

  method CollapseSlashes(str: Bytes) returns (collapsed: Bytes)
    ensures collapsed == Collapse(str)
  {
    collapsed := [];
    var i := 0;
    while i < |str|
      invariant 0 <= i <= |str|
      invariant Collapse(str) == collapsed + CollapseFrom(str, i)
    {
      if str[i] == '/' {
        if i > 0 && i + 1 < |str| && str[i + 1] == '/' {
          i := i + 1;
          continue;
        }
      }
      collapsed := collapsed + [str[i]];
      i := i + 1;
    }
  }

  predicate NoDoubleSlash(s: Bytes) {
    forall i :: 0 <= i < |s| - 1 ==> s[i] == '/' ==> s[i + 1] != '/'
  }

  /** The non-empty segments of a path. */
  function Words(s: Bytes): seq<Bytes> {
    if s == [] then []
    else if s[0] == '/' then Words(s[1..])
    else var e := FindAny(s, ['/'], 0); [s[..e]] + Words(s[e..])
  }

  lemma {:induction false} CollapseFromShape(s: Bytes, i: nat)
    requires 0 < i <= |s|
    ensures NoDoubleSlash(CollapseFrom(s, i))
    ensures i < |s| ==> CollapseFrom(s, i) != [] && CollapseFrom(s, i)[0] == s[i]
    ensures i < |s| ==> CollapseFrom(s, i)[|CollapseFrom(s, i)| - 1] == s[|s| - 1]
    ensures |CollapseFrom(s, i)| <= |s| - i
    decreases |s| - i
  {
    if i < |s| {
      CollapseFromShape(s, i + 1);
    }
  }

  /** Collapsing leaves no double slash and keeps the first and the last byte,
      provided the path does not open with one (which ValidatePath_ refuses). */
  lemma CollapseShape(s: Bytes)
    requires |s| >= 2 ==> !(s[0] == '/' && s[1] == '/')
    ensures NoDoubleSlash(Collapse(s))
    ensures s != [] ==> Collapse(s) != [] && Collapse(s)[0] == s[0]
    ensures s != [] ==> Collapse(s)[|Collapse(s)| - 1] == s[|s| - 1]
  {
    if s != [] {
      CollapseFromShape(s, 1);
      assert Collapse(s) == [s[0]] + CollapseFrom(s, 1);
    }
  }

  lemma {:induction false} CollapseFromIdentity(s: Bytes, i: nat)
    requires i <= |s|
    requires NoDoubleSlash(s)
    ensures CollapseFrom(s, i) == s[i..]
    decreases |s| - i
  {
    if i < |s| {
      CollapseFromIdentity(s, i + 1);
      assert s[i..] == [s[i]] + s[i + 1..];
    }
  }

  lemma {:induction false} CollapseIdentity(s: Bytes)
    requires NoDoubleSlash(s)
    ensures Collapse(s) == s
  {
    CollapseFromIdentity(s, 0);
  }

  // The word that starts at the front of s, and what follows it.
  lemma WordsOfPrefix(w: Bytes, rest: Bytes)
    requires w != [] && '/' !in w
    requires rest == [] || rest[0] == '/'
    ensures Words(w + rest) == [w] + Words(rest)
  {
    var s := w + rest;
    var e := FindAny(s, ['/'], 0);
    assert forall k :: 0 <= k < |w| ==> s[k] == w[k] && s[k] != '/';
    assert rest != [] ==> s[|w|] == '/';
    assert s[..e] == w && s[e..] == rest;
  }

  /** Collapsing keeps exactly the non-empty segments, in order. */
  lemma {:induction false} CollapseFromWords(s: Bytes, i: nat)
    requires i <= |s|
    ensures Words(CollapseFrom(s, i)) == Words(s[i..])
    decreases |s| - i
  {
    if i == |s| {
      assert s[i..] == [];
    } else if s[i] == '/' {
      CollapseFromWords(s, i + 1);
      assert s[i..][1..] == s[i + 1..];
      if !Dropped(s, i) {
        assert ([s[i]] + CollapseFrom(s, i + 1))[1..] == CollapseFrom(s, i + 1);
      }
    } else {
      var e := FindAny(s, ['/'], i);
      CollapseFromWords(s, e);
      CollapseFromWord(s, i, e);
    }
  }

  lemma CollapseFromWord(s: Bytes, i: nat, e: nat)
    requires i < e <= |s| && '/' !in s[i..e] && (e < |s| ==> s[e] == '/')
    requires Words(CollapseFrom(s, e)) == Words(s[e..])
    ensures Words(CollapseFrom(s, i)) == Words(s[i..])
  {
    CollapseFromCopies(s, i, e);
    if e < |s| {
      CollapseFromHead(s, e);
    }
    assert s[i..] == s[i..e] + s[e..];
    hide Words;
    WordsOfPrefix(s[i..e], CollapseFrom(s, e));
    WordsOfPrefix(s[i..e], s[e..]);
  }

  lemma {:induction false} CollapseFromCopies(s: Bytes, i: nat, e: nat)
    requires i <= e <= |s|
    requires '/' !in s[i..e]
    ensures CollapseFrom(s, i) == s[i..e] + CollapseFrom(s, e)
    decreases e - i
  {
    if i < e {
      assert s[i] == s[i..e][0] && s[i..e] == [s[i]] + s[i + 1..e];
      CollapseFromCopies(s, i + 1, e);
    }
  }

  lemma {:induction false} CollapseFromHead(s: Bytes, i: nat)
    requires i < |s|
    ensures CollapseFrom(s, i) != [] && CollapseFrom(s, i)[0] == s[i]
    decreases |s| - i
  {
    if Dropped(s, i) {
      CollapseFromHead(s, i + 1);
    }
  }

  lemma CollapseKeepsWords(s: Bytes)
    ensures Words(Collapse(s)) == Words(s)
  {
    CollapseFromWords(s, 0);
    assert s[0..] == s;
  }

  // ----- segments

  predicate Rooted(p: Bytes) { p == [] || p[0] == '/' }

  function SegmentEnd(p: Bytes): (e: nat)
    requires p != []
    ensures 1 <= e <= |p|
    ensures e < |p| ==> p[e] == '/'
    ensures '/' !in p[1..e]
  {
    var e := FindAny(p, ['/'], 1);
    assert forall k :: 1 <= k < e ==> p[k] != '/';
    e
  }

  /** The segments of a rooted path: the pieces between its slashes. */
  function Segments(p: Bytes): seq<Bytes>
    requires Rooted(p)
  {
    if p == [] then []
    else var e := SegmentEnd(p); [p[1..e]] + Segments(p[e..])
  }

  function Path(segs: seq<Bytes>): (p: Bytes)
    ensures Rooted(p)
  {
    if segs == [] then [] else ['/'] + segs[0] + Path(segs[1..])
  }

  predicate Slashless(segs: seq<Bytes>) { forall i :: 0 <= i < |segs| ==> '/' !in segs[i] }

  lemma {:induction false} PathOfSegments(p: Bytes)
    requires Rooted(p)
    ensures Path(Segments(p)) == p && Slashless(Segments(p))
  {
    if p != [] {
      var e := SegmentEnd(p);
      PathOfSegments(p[e..]);
      assert p == ['/'] + p[1..e] + p[e..];
      assert ([p[1..e]] + Segments(p[e..]))[1..] == Segments(p[e..]);
    }
  }

  lemma SegmentsSplit(seg: Bytes, rest: Bytes)
    requires '/' !in seg && Rooted(rest)
    ensures Segments(['/'] + seg + rest) == [seg] + Segments(rest)
  {
    var p := ['/'] + seg + rest;
    var e := SegmentEnd(p);
    assert forall k :: 1 <= k < 1 + |seg| ==> p[k] == seg[k - 1];
    assert rest != [] ==> p[1 + |seg|] == '/';
    assert p[1..e] == seg && p[e..] == rest;
  }

  lemma {:induction false} SegmentsOfPath(segs: seq<Bytes>)
    requires Slashless(segs)
    ensures Segments(Path(segs)) == segs
  {
    if segs != [] {
      SegmentsOfPath(segs[1..]);
      SegmentsSplit(segs[0], Path(segs[1..]));
    }
  }

  lemma {:induction false} PathAppend(segs: seq<Bytes>, seg: Bytes)
    ensures Path(segs + [seg]) == Path(segs) + ['/'] + seg
  {
    if segs == [] {
      assert segs + [seg] == [seg] && [seg][1..] == [];
    } else {
      PathAppend(segs[1..], seg);
      assert (segs + [seg])[1..] == segs[1..] + [seg] && (segs + [seg])[0] == segs[0];
      var front, rest := ['/'] + segs[0], Path(segs[1..]);
      Assoc(front, rest, ['/']);
      Assoc(front, rest + ['/'], seg);
    }
  }
}
