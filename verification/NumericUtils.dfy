/** String/number conversions done through string streams. Each conversion
    depends only on its argument, so it is a function here. */
module NumericUtils {
  import opened Octets

  const SIZE_MAX: nat := 0xFFFF_FFFF_FFFF_FFFF
  const USHORT_MAX: nat := 0xFFFF

  // std::min on sizes.
  function Min(a: nat, b: nat): nat { if a <= b then a else b }

  function HexVal(c: char): (v: nat)
    requires IsHexDigit(c)
    ensures v < 16
  {
    if IsDigit(c) then c as int - '0' as int
    else if 'A' <= c <= 'F' then c as int - 'A' as int + 10
    else c as int - 'a' as int + 10
  }

  function HexDigit(v: nat): (c: Byte)
    requires v < 16
    ensures IsHexDigit(c) && !IsLower(c) && HexVal(c) == v
  {
    if v < 10 then ('0' as int + v) as char else ('A' as int + v - 10) as char
  }

  predicate AllHex(s: Bytes) { forall i :: 0 <= i < |s| ==> IsHexDigit(s[i]) }

  predicate AllDigits(s: Bytes) { forall i :: 0 <= i < |s| ==> IsDigit(s[i]) }

  function HexValue(s: Bytes): nat
    requires AllHex(s)
  {
    if s == [] then 0 else 16 * HexValue(s[..|s| - 1]) + HexVal(s[|s| - 1])
  }

  function DecValue(s: Bytes): nat
    requires AllDigits(s)
  {
    if s == [] then 0 else 10 * DecValue(s[..|s| - 1]) + (s[|s| - 1] as int - '0' as int)
  }

  /** The digits a base-16 stream extraction reads: an optional 0x prefix is
      skipped first. */
  function HexDigitsOf(s: Bytes): Bytes {
    if |s| >= 2 && s[0] == '0' && (s[1] == 'x' || s[1] == 'X') then s[2..] else s
  }

  /** Extraction in base 16 that must use the whole string; `limit` is the
      largest value of the unsigned target type. */
  function HexToUnsigned(s: Bytes, limit: nat): Option<nat> {
    if s == [] || !IsHexDigit(s[0]) then None
    else
      var digits := HexDigitsOf(s);
      if digits == [] || !AllHex(digits) || HexValue(digits) > limit then None
      else Some(HexValue(digits))
  }

  function DigitPrefix(s: Bytes): (n: nat)
    ensures n <= |s| && AllDigits(s[..n])
    ensures n < |s| ==> !IsDigit(s[n])
  {
    if s != [] && IsDigit(s[0]) then
      var n := DigitPrefix(s[1..]);
      assert s[..n + 1] == [s[0]] + s[1..][..n];
      n + 1
    else 0
  }

  /** Decimal extraction into an unsigned type of maximum `limit`: leading
      blanks, an optional sign, digits, trailing blanks. Only a '-' that opens
      the whole string is refused; one after blanks wraps around. */
  function StrToUnsigned(s: Bytes, limit: nat): Option<nat> {
    if s == [] || s[0] == '-' then None
    else
      var t := SkipSpaces(s);
      var negative := t != [] && t[0] == '-';
      var u := if t != [] && (t[0] == '-' || t[0] == '+') then t[1..] else t;
      var n := DigitPrefix(u);
      if n == 0 || DecValue(u[..n]) > limit || SkipSpaces(u[n..]) != [] then None
      else if negative then Some((limit + 1 - DecValue(u[..n])) % (limit + 1))
      else Some(DecValue(u[..n]))
  }

  /** Upper-case hexadecimal, zero-filled to two digits, of one byte. */
  function ByteToHexStr(v: nat): (r: Bytes)
    requires v < 256
    ensures |r| == 2 && AllHex(r) && HexValue(r) == v
    ensures !IsLower(r[0]) && !IsLower(r[1])
  {
    var r := [HexDigit(v / 16), HexDigit(v % 16)];
    TwoHexDigits(r);
    r
  }

  lemma TwoHexDigits(s: Bytes)
    requires |s| == 2 && AllHex(s)
    ensures HexValue(s) == 16 * HexVal(s[0]) + HexVal(s[1])
  {
    assert s[..1] == [s[0]] && s[..1][..0] == [];
    assert HexValue(s[..1]) == HexVal(s[0]);
  }

  /** A two-byte string is a number exactly when both bytes are hex digits. */
  lemma HexPair(s: Bytes, limit: nat)
    requires |s| == 2 && limit >= 255
    ensures AllHex(s) ==> HexToUnsigned(s, limit) == Some(HexValue(s)) && HexValue(s) < 256
    ensures !AllHex(s) ==> HexToUnsigned(s, limit) == None
  {
    if AllHex(s) {
      TwoHexDigits(s);
    }
  }

  // ----- canonical renderings, the inverses of the two conversions

  function HexRender(n: nat): (r: Bytes)
    ensures r != [] && AllHex(r) && HexValue(r) == n
    ensures |r| >= 2 ==> r[0] != '0'
  {
    if n < 16 then
      assert [HexDigit(n)][..0] == [];
      [HexDigit(n)]
    else
      var hi := HexRender(n / 16);
      var r := hi + [HexDigit(n % 16)];
      assert r[..|r| - 1] == hi;
      assert |hi| == 1 ==> hi[..0] == [] && HexValue(hi) == HexVal(hi[0]);
      r
  }

  function DecRender(n: nat): (r: Bytes)
    ensures r != [] && AllDigits(r) && DecValue(r) == n
  {
    if n < 10 then
      var r: Bytes := [('0' as int + n) as char];
      assert r[..0] == [];
      r
    else
      var hi := DecRender(n / 10);
      var lo: Byte := ('0' as int + n % 10) as char;
      var r := hi + [lo];
      assert r[..|r| - 1] == hi;
      r
  }

  lemma HexRoundTrip(n: nat, limit: nat)
    requires n <= limit
    ensures HexToUnsigned(HexRender(n), limit) == Some(n)
  {
    var r := HexRender(n);
    assert HexDigitsOf(r) == r;
  }

  lemma DecRoundTrip(n: nat, limit: nat)
    requires n <= limit
    ensures StrToUnsigned(DecRender(n), limit) == Some(n)
  {
    var r := DecRender(n);
    assert IsDigit(r[0]);
    assert SkipSpaces(r) == r;
    var k := DigitPrefix(r);
    assert k == |r|;
    assert r[..k] == r && r[k..] == [];
  }
}
