/** Percent coding (section 2.1 of RFC 3986): http::PercentDecode and
    http::PercentEncode. */
module PercentCodec {
  import opened Octets
  import opened NumericUtils

  // A null char* is None; the sets passed by the callers hold no NUL.
  type KeepSet = Option<Bytes>

  // The table kUnreserved, and the terminator strchr also finds.
  predicate Unreserved(c: char) { IsAlnum(c) || c == '-' || c == '.' || c == '_' || c == '~' }

  predicate InUnreserved(c: char) { c == '\0' || Unreserved(c) }

  predicate InKeepSet(keep: KeepSet, c: char) { keep.Some? && StrChr(keep.value, c) }

  // Bytes the encoder copies; NUL is among them because strchr finds it.
  predicate CopiedByEncode(keep: KeepSet, c: Byte) {
    InUnreserved(c) || InKeepSet(keep, c)
  }

  function EncodeByte(keep: KeepSet, c: Byte): (r: Bytes)
    ensures r == [c] || (|r| == 3 && r[0] == '%')
  {
    if CopiedByEncode(keep, c) then [c] else ['%'] + ByteToHexStr(c as int)
  }

  function Encode(s: Bytes, keep: KeepSet): Bytes {
    if s == [] then [] else EncodeByte(keep, s[0]) + Encode(s[1..], keep)
  }

  /** What one escape `%XY` (the three bytes `esc`) decodes to. */
  function DecodeEscape(keep: KeepSet, esc: Bytes): Option<Bytes>
    requires |esc| == 3
  {
    HexPair(esc[1..], USHORT_MAX);
    match HexToUnsigned(esc[1..], USHORT_MAX)
    case None => None
    case Some(v) => Some(if InKeepSet(keep, v as char) then esc else [v as char])
  }

  function Decode(s: Bytes, keep: KeepSet): Option<Bytes> {
    if s == [] then Some([])
    else if s[0] == '%' then
      if |s| < 3 then None
      else match DecodeEscape(keep, s[..3])
        case None => None
        case Some(piece) => Prepend(piece, Decode(s[3..], keep))
    else Prepend([s[0]], Decode(s[1..], keep))
  }

  function Prepend(piece: Bytes, rest: Option<Bytes>): Option<Bytes> {
    if rest.Some? then Some(piece + rest.value) else None
  }

  lemma PrependEmpty(r: Option<Bytes>)
    ensures Prepend([], r) == r
  {
    if r.Some? {
      assert [] + r.value == r.value;
    }
  }

  lemma PrependTwice(a: Bytes, b: Bytes, r: Option<Bytes>)
    ensures Prepend(a, Prepend(b, r)) == Prepend(a + b, r)
  {
    if r.Some? {
      assert a + (b + r.value) == (a + b) + r.value;
    }
  }

  method PercentDecode(str: Bytes, dontDecode: KeepSet) returns (r: Option<Bytes>)
    ensures r == Decode(str, dontDecode)
  {
    var decoded: Bytes := [];
    var i := 0;
    PrependEmpty(Decode(str, dontDecode));
    assert str[0..] == str;
    while i < |str|
      invariant 0 <= i <= |str|
      invariant Decode(str, dontDecode) == Prepend(decoded, Decode(str[i..], dontDecode))
    {
      if str[i] == '%' {
        if i + 2 >= |str| {
          return None;
        }
        assert str[i..][..3][1..] == str[i + 1..i + 3];
        assert str[i..][..3] == str[i..i + 3] && str[i..][3..] == str[i + 3..];
        HexPair(str[i + 1..i + 3], USHORT_MAX);
        var ascii := HexToUnsigned(str[i + 1..i + 3], USHORT_MAX);
        if ascii.None? {
          return None;
        }
        ghost var rest := Decode(str[i + 3..], dontDecode);
        if dontDecode.Some? && StrChr(dontDecode.value, ascii.value as char) {
          PrependTwice(decoded, str[i..i + 3], rest);
          decoded := decoded + str[i..i + 3];
        } else {
          PrependTwice(decoded, [ascii.value as char], rest);
          decoded := decoded + [ascii.value as char];
        }
        i := i + 3;
      } else {
        assert str[i..][1..] == str[i + 1..];
        PrependTwice(decoded, [str[i]], Decode(str[i + 1..], dontDecode));
        decoded := decoded + [str[i]];
        i := i + 1;
      }
    }
    assert str[i..] == [] && decoded + [] == decoded;
    return Some(decoded);
  }

  lemma EncodeSplit(done: Bytes, str: Bytes, i: nat, keep: KeepSet)
    requires i < |str|
    ensures done + Encode(str[i..], keep) == (done + EncodeByte(keep, str[i])) + Encode(str[i + 1..], keep)
  {
    assert str[i..][1..] == str[i + 1..];
  }

  method PercentEncode(str: Bytes, dontEncode: KeepSet) returns (encoded: Bytes)
    ensures encoded == Encode(str, dontEncode)
  {
    encoded := [];
    var i := 0;
    assert str[0..] == str;
    while i < |str|
      invariant 0 <= i <= |str|
      invariant Encode(str, dontEncode) == encoded + Encode(str[i..], dontEncode)
    {
      var c := str[i];
      EncodeSplit(encoded, str, i, dontEncode);
      if InUnreserved(c) || (dontEncode.Some? && StrChr(dontEncode.value, c)) {
        encoded := encoded + [c];
      } else {
        encoded := encoded + (['%'] + ByteToHexStr(c as int));
      }
      i := i + 1;
    }
    assert str[i..] == [] && encoded + [] == encoded;
  }

  // ----- the codec law

  // Decoding the encoding of c yields c itself, not its escape.
  predicate Survives(c: Byte, encodeKeep: KeepSet, decodeKeep: KeepSet) {
    CopiedByEncode(encodeKeep, c) || !InKeepSet(decodeKeep, c)
  }

  /** Decoding after encoding: every byte comes back, except that one that was
      escaped and is in the decoder's keep set comes back as its escape. */
  function DecodedEncoding(s: Bytes, encodeKeep: KeepSet, decodeKeep: KeepSet): Bytes {
    if s == [] then []
    else (if Survives(s[0], encodeKeep, decodeKeep) then [s[0]] else EncodeByte(encodeKeep, s[0]))
         + DecodedEncoding(s[1..], encodeKeep, decodeKeep)
  }

  lemma {:induction false} DecodeOfEncode(s: Bytes, encodeKeep: KeepSet, decodeKeep: KeepSet)
    requires !InKeepSet(encodeKeep, '%')
    ensures Decode(Encode(s, encodeKeep), decodeKeep) == Some(DecodedEncoding(s, encodeKeep, decodeKeep))
  {
    if s != [] {
      var c, piece, rest := s[0], EncodeByte(encodeKeep, s[0]), Encode(s[1..], encodeKeep);
      DecodeOfEncode(s[1..], encodeKeep, decodeKeep);
      assert Encode(s, encodeKeep) == piece + rest;
      if CopiedByEncode(encodeKeep, c) {
        assert c != '%' && (piece + rest)[1..] == rest;
      } else {
        assert (piece + rest)[..3] == piece && (piece + rest)[3..] == rest;
        assert piece[1..] == ByteToHexStr(c as int);
        HexPair(piece[1..], USHORT_MAX);
        assert DecodeEscape(decodeKeep, piece) == Some(if InKeepSet(decodeKeep, c) then piece else [c]);
      }
    }
  }

  lemma {:induction false} DecodedEncodingIsIdentity(s: Bytes, encodeKeep: KeepSet, decodeKeep: KeepSet)
    ensures |DecodedEncoding(s, encodeKeep, decodeKeep)| >= |s|
    ensures DecodedEncoding(s, encodeKeep, decodeKeep) == s
            <==> forall i :: 0 <= i < |s| ==> Survives(s[i], encodeKeep, decodeKeep)
  {
    if s != [] {
      DecodedEncodingIsIdentity(s[1..], encodeKeep, decodeKeep);
      var tail := DecodedEncoding(s[1..], encodeKeep, decodeKeep);
      if Survives(s[0], encodeKeep, decodeKeep) {
        assert DecodedEncoding(s, encodeKeep, decodeKeep) == [s[0]] + tail;
        assert [s[0]] + tail == s <==> tail == s[1..] by {
          assert ([s[0]] + tail)[1..] == tail;
          assert [s[0]] + s[1..] == s;
        }
        assert forall i :: 1 <= i < |s| ==> s[i] == s[1..][i - 1];
      } else {
        assert |DecodedEncoding(s, encodeKeep, decodeKeep)| == 3 + |tail| > |s|;
      }
    }
  }

  // ----- an encoder that copies '%'

  predicate CopiesPercent(keep: KeepSet) { InKeepSet(keep, '%') }

  // An escape `%XY` opens the string, and the byte it stands for.
  predicate EscapeOpens(s: Bytes) { |s| >= 3 && s[0] == '%' && IsHexDigit(s[1]) && IsHexDigit(s[2]) }

  function EscapedByte(s: Bytes): Byte
    requires EscapeOpens(s)
  {
    TwoHexDigits(s[1..3]);
    HexValue(s[1..3]) as char
  }

  predicate KeptEscape(s: Bytes, decodeKeep: KeepSet) { EscapeOpens(s) && InKeepSet(decodeKeep, EscapedByte(s)) }

  /** The byte at `i` comes back: it survives, and a percent sign that is copied
      opens an escape which the decoder leaves as it is. */
  predicate ComesBack(s: Bytes, i: nat, encodeKeep: KeepSet, decodeKeep: KeepSet)
    requires i < |s|
  {
    && Survives(s[i], encodeKeep, decodeKeep)
    && (s[i] == '%' && CopiesPercent(encodeKeep) ==> KeptEscape(s[i..], decodeKeep))
  }

  function RoundTrip(s: Bytes, encodeKeep: KeepSet, decodeKeep: KeepSet): Option<Bytes> {
    Decode(Encode(s, encodeKeep), decodeKeep)
  }

  lemma OtherByteFirst(s: Bytes, ek: KeepSet, dk: KeepSet)
    requires s != [] && s[0] != '%'
    ensures RoundTrip(s, ek, dk)
            == Prepend(if Survives(s[0], ek, dk) then [s[0]] else EncodeByte(ek, s[0]), RoundTrip(s[1..], ek, dk))
  {
    var c, piece, rest := s[0], EncodeByte(ek, s[0]), Encode(s[1..], ek);
    assert Encode(s, ek) == piece + rest;
    if CopiedByEncode(ek, c) {
      assert (piece + rest)[1..] == rest;
    } else {
      assert (piece + rest)[..3] == piece && (piece + rest)[3..] == rest;
      assert piece[1..] == ByteToHexStr(c as int);
      HexPair(piece[1..], USHORT_MAX);
      assert DecodeEscape(dk, piece) == Some(if InKeepSet(dk, c) then piece else [c]);
    }
  }

  lemma EscapeFirst(s: Bytes, ek: KeepSet, dk: KeepSet)
    requires CopiesPercent(ek) && EscapeOpens(s)
    ensures RoundTrip(s, ek, dk)
            == Prepend(if KeptEscape(s, dk) then s[..3] else [EscapedByte(s)], RoundTrip(s[3..], ek, dk))
  {
    var rest := Encode(s[3..], ek);
    assert s[1..][1..] == s[2..] && s[2..][1..] == s[3..];
    assert Encode(s[2..], ek) == [s[2]] + rest;
    assert Encode(s[1..], ek) == [s[1]] + Encode(s[2..], ek);
    var e := Encode(s, ek);
    assert e == ['%', s[1], s[2]] + rest && e[..3] == s[..3] && e[3..] == rest;
    assert s[..3][1..] == s[1..3];
    HexPair(s[1..3], USHORT_MAX);
  }

  lemma BrokenEscapeFirst(s: Bytes, ek: KeepSet, dk: KeepSet)
    requires CopiesPercent(ek) && s != [] && s[0] == '%' && !EscapeOpens(s)
    ensures RoundTrip(s, ek, dk) == None
  {
    var e := Encode(s, ek);
    assert e == ['%'] + Encode(s[1..], ek);
    if |e| >= 3 {
      assert |s| >= 2;
      assert Encode(s[1..], ek) == EncodeByte(ek, s[1]) + Encode(s[1..][1..], ek);
      if IsHexDigit(s[1]) {
        assert |s| >= 3 && s[1..][1..] == s[2..];
        assert Encode(s[2..], ek) == EncodeByte(ek, s[2]) + Encode(s[2..][1..], ek);
      }
      assert e[..3][1..] == e[1..3];
      HexPair(e[1..3], USHORT_MAX);
    }
  }

  // Every percent sign in `p` opens an escape that the decoder resolves.
  predicate LossyOnly(p: Bytes, dk: KeepSet) {
    forall i :: 0 <= i < |p| && p[i] == '%' ==> EscapeOpens(p[i..]) && !KeptEscape(p[i..], dk)
  }

  lemma LossyAppend(p: Bytes, more: Bytes, dk: KeepSet)
    requires LossyOnly(p, dk) && LossyOnly(more, dk) && p != []
    ensures LossyOnly(p[1..] + more, dk)
  {
    var r := p[1..] + more;
    forall i | 0 <= i < |r| && r[i] == '%' ensures EscapeOpens(r[i..]) && !KeptEscape(r[i..], dk) {
      if i < |p| - 1 {
        assert r[i] == p[i + 1] && EscapeOpens(p[i + 1..]);
        assert r[i..][1..3] == p[i + 1..][1..3];
      } else {
        assert r[i..] == more[i - (|p| - 1)..];
      }
    }
  }

  // What starts with a kept escape does not start with such a `p`.
  lemma KeptIsNotLossy(p: Bytes, t: Bytes, kept: Bytes, rest: Bytes, dk: KeepSet)
    requires p != [] && LossyOnly(p, dk) && KeptEscape(kept, dk) && |kept| == 3
    ensures kept + rest != p + t
  {
    assert (p + t)[0] == p[0] && (kept + rest)[0] == '%' && p[0..] == p;
    if p[0] == '%' {
      assert (p + t)[..3] == p[..3] && (kept + rest)[..3] == kept[..3];
      SameEscape(p, kept);
    }
  }

  lemma SameEscape(a: Bytes, b: Bytes)
    requires EscapeOpens(a) && EscapeOpens(b)
    ensures a[..3] == b[..3] ==> EscapedByte(a) == EscapedByte(b)
  {
    assert a[1..3] == a[..3][1..3] && b[1..3] == b[..3][1..3];
  }

  lemma Rotated(p: Bytes, c: Byte, t: Bytes, head: Bytes, rest: Bytes, d: Bytes)
    requires p != [] && t == head + rest
    ensures [c] + d == p + t ==> c == p[0] && d == (p[1..] + head) + rest
  {
    if [c] + d == p + t {
      assert (p + t)[0] == c && d == ([c] + d)[1..] == (p + t)[1..] == p[1..] + t;
      Assoc(p[1..], head, rest);
    }
  }

  /** Bytes that an escape lost never come back: a round trip does not put
      anything in front of the string it was given. */
  lemma {:induction false} NothingInFront(t: Bytes, p: Bytes, ek: KeepSet, dk: KeepSet)
    requires CopiesPercent(ek) && p != [] && LossyOnly(p, dk)
    ensures RoundTrip(t, ek, dk) != Some(p + t)
    decreases |t|
  {
    if t == [] {
      assert RoundTrip(t, ek, dk) == Some([]);
    } else if t[0] != '%' {
      OtherByteFirst(t, ek, dk);
      PlainInFront(t, p, ek, dk);
    } else if !EscapeOpens(t) {
      BrokenEscapeFirst(t, ek, dk);
    } else {
      EscapeFirst(t, ek, dk);
      var d := RoundTrip(t[3..], ek, dk);
      assert t == t[..3] + t[3..];
      if KeptEscape(t, dk) {
        assert t[..3][1..3] == t[1..3];
        if d.Some? {
          KeptIsNotLossy(p, t, t[..3], d.value, dk);
        }
      } else {
        LossyEscape(t, dk);
        LossyAppend(p, t[..3], dk);
        NothingInFront(t[3..], p[1..] + t[..3], ek, dk);
        if d.Some? {
          Rotated(p, EscapedByte(t), t, t[..3], t[3..], d.value);
        }
      }
    }
  }

  lemma LossyEscape(t: Bytes, dk: KeepSet)
    requires EscapeOpens(t) && !KeptEscape(t, dk)
    ensures LossyOnly(t[..3], dk)
  {
    var e := t[..3];
    assert e[0..] == e && e[1..3] == t[1..3];
  }

  lemma PlainInFront(t: Bytes, p: Bytes, ek: KeepSet, dk: KeepSet)
    requires CopiesPercent(ek) && p != [] && LossyOnly(p, dk) && t != [] && t[0] != '%'
    ensures RoundTrip(t, ek, dk) != Some(p + t)
    decreases |t|, 0
  {
    OtherByteFirst(t, ek, dk);
    var d := RoundTrip(t[1..], ek, dk);
    assert t == [t[0]] + t[1..];
    if Survives(t[0], ek, dk) {
      LossyAppend(p, [t[0]], dk);
      NothingInFront(t[1..], p[1..] + [t[0]], ek, dk);
      if d.Some? {
        Rotated(p, t[0], t, [t[0]], t[1..], d.value);
      }
    } else {
      var piece := EncodeByte(ek, t[0]);
      assert piece[1..3] == ByteToHexStr(t[0] as int);
      if d.Some? {
        KeptIsNotLossy(p, t, piece, d.value, dk);
      }
    }
  }

  lemma {:induction false} CopiedPercentRoundTrip(s: Bytes, ek: KeepSet, dk: KeepSet)
    requires CopiesPercent(ek)
    ensures RoundTrip(s, ek, dk) == Some(s) <==> forall i :: 0 <= i < |s| ==> ComesBack(s, i, ek, dk)
    decreases |s|
  {
    if s != [] {
      assert s[0..] == s;
      if s[0] != '%' {
        OtherByteFirst(s, ek, dk);
        CopiedPercentRoundTrip(s[1..], ek, dk);
        var d := RoundTrip(s[1..], ek, dk);
        assert !Survives(s[0], ek, dk) && d.Some? ==> (EncodeByte(ek, s[0]) + d.value)[0] == '%';
        PrependedBack(s, [s[0]], s[1..], d);
        RestComesBack(s, 1, ek, dk);
        assert ComesBack(s, 0, ek, dk) <==> Survives(s[0], ek, dk);
      } else if !EscapeOpens(s) {
        BrokenEscapeFirst(s, ek, dk);
        assert !ComesBack(s, 0, ek, dk);
      } else {
        EscapeFirst(s, ek, dk);
        if KeptEscape(s, dk) {
          CopiedPercentRoundTrip(s[3..], ek, dk);
          PrependedBack(s, s[..3], s[3..], RoundTrip(s[3..], ek, dk));
          RestComesBack(s, 3, ek, dk);
        } else {
          assert !ComesBack(s, 0, ek, dk);
          var d := RoundTrip(s[3..], ek, dk);
          NothingInFront(s[3..], s[1..3], ek, dk);
          assert s[1..] == s[1..3] + s[3..];
          assert d.Some? ==> ([EscapedByte(s)] + d.value)[1..] == d.value;
        }
      }
    }
  }

  lemma PrependedBack(s: Bytes, piece: Bytes, rest: Bytes, d: Option<Bytes>)
    requires s == piece + rest
    ensures Prepend(piece, d) == Some(s) <==> d == Some(rest)
  {
    if d.Some? && piece + d.value == s {
      assert d.value == (piece + d.value)[|piece|..] == s[|piece|..] == rest;
    }
  }

  // The first bytes of `s` come back, so all do exactly when the others do.
  lemma RestComesBack(s: Bytes, n: nat, ek: KeepSet, dk: KeepSet)
    requires n <= |s|
    ensures (forall i :: n <= i < |s| ==> ComesBack(s, i, ek, dk))
            <==> forall i :: 0 <= i < |s[n..]| ==> ComesBack(s[n..], i, ek, dk)
  {
    assert forall i :: 0 <= i < |s| - n ==> s[n..][i..] == s[n + i..];
    if forall i :: n <= i < |s| ==> ComesBack(s, i, ek, dk) {
      forall i | 0 <= i < |s[n..]| ensures ComesBack(s[n..], i, ek, dk) {
        assert ComesBack(s, n + i, ek, dk);
      }
    }
    if forall i :: 0 <= i < |s[n..]| ==> ComesBack(s[n..], i, ek, dk) {
      forall i | n <= i < |s| ensures ComesBack(s, i, ek, dk) {
        assert ComesBack(s[n..], i - n, ek, dk);
      }
    }
  }

  /** The codec law, for every byte string and every pair of keep sets: decoding
      undoes encoding exactly when no escaped byte is one the decoder is told to
      leave escaped and every percent sign that was copied opens an escape the
      decoder is told to leave. */
  lemma CodecRoundTrip(s: Bytes, encodeKeep: KeepSet, decodeKeep: KeepSet)
    ensures Decode(Encode(s, encodeKeep), decodeKeep) == Some(s)
            <==> forall i :: 0 <= i < |s| ==> ComesBack(s, i, encodeKeep, decodeKeep)
  {
    if CopiesPercent(encodeKeep) {
      CopiedPercentRoundTrip(s, encodeKeep, decodeKeep);
    } else {
      DecodeOfEncode(s, encodeKeep, decodeKeep);
      DecodedEncodingIsIdentity(s, encodeKeep, decodeKeep);
      assert forall i :: 0 <= i < |s| ==>
               ComesBack(s, i, encodeKeep, decodeKeep) == Survives(s[i], encodeKeep, decodeKeep);
    }
  }

  // The encoder escapes '%' and copies what the decoder keeps escaped.
  ghost predicate SetsAgree(encodeKeep: KeepSet, decodeKeep: KeepSet) {
    !InKeepSet(encodeKeep, '%')
    && forall c: Byte :: InKeepSet(decodeKeep, c) ==> CopiedByEncode(encodeKeep, c)
  }

  /** One pair of sets is right for all strings exactly when the sets agree. */
  lemma CodecRoundTripForAll(encodeKeep: KeepSet, decodeKeep: KeepSet)
    ensures SetsAgree(encodeKeep, decodeKeep)
            <==> forall s: Bytes :: Decode(Encode(s, encodeKeep), decodeKeep) == Some(s)
  {
    forall s: Bytes | SetsAgree(encodeKeep, decodeKeep)
      ensures Decode(Encode(s, encodeKeep), decodeKeep) == Some(s)
    {
      CodecRoundTrip(s, encodeKeep, decodeKeep);
    }
    if !SetsAgree(encodeKeep, decodeKeep) {
      var c: Byte := '%';
      if !InKeepSet(encodeKeep, '%') {
        c :| InKeepSet(decodeKeep, c) && !CopiedByEncode(encodeKeep, c);
      }
      CodecRoundTrip([c], encodeKeep, decodeKeep);
      assert !ComesBack([c], 0, encodeKeep, decodeKeep);
      assert Decode(Encode([c], encodeKeep), decodeKeep) != Some([c]);
    }
  }

  /** Without the escape of '%' the law fails: an encoder that copies '%'
      leaves the three bytes of an escape as they are. */
  lemma CopyingPercentBreaksTheCodec()
    ensures exists s: Bytes :: Decode(Encode(s, Some(['%'])), None) != Some(s)
  {
    var s: Bytes := ['%', '4', '1'];
    var keep: KeepSet := Some(['%']);
    assert Encode(s[3..], keep) == [];
    assert s[2..][1..] == s[3..] && s[1..][1..] == s[2..];
    assert Encode(s[2..], keep) == ['1'];
    assert Encode(s[1..], keep) == ['4', '1'];
    assert Encode(s, keep) == s;
    HexPair(s[1..], USHORT_MAX);
    TwoHexDigits(s[1..]);
    assert s[..3] == s && s[3..] == [];
    assert DecodeEscape(None, s) == Some(['A']);
    assert Decode(s, None) == Some(['A'] + []);
  }
}
