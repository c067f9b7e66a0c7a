/** Bytes as the server sees them: characters below 256, and the C-locale
    character classes its parsers use. */
module Octets {

  datatype Option<+T> = None | Some(value: T)

  type Byte = c: char | c < '\U{0100}' witness 'a'

  type Bytes = seq<Byte>

  predicate IsDigit(c: char) { '0' <= c <= '9' }

  predicate IsUpper(c: char) { 'A' <= c <= 'Z' }

  predicate IsLower(c: char) { 'a' <= c <= 'z' }

  predicate IsAlnum(c: char) { IsDigit(c) || IsUpper(c) || IsLower(c) }

  predicate IsHexDigit(c: char) { IsDigit(c) || 'A' <= c <= 'F' || 'a' <= c <= 'f' }

  // What the stream manipulator std::ws skips.
  predicate IsSpace(c: char) { c == ' ' || 9 <= c as int <= 13 }

  function SkipSpaces(s: Bytes): (r: Bytes)
    ensures |r| <= |s| && (r != [] ==> !IsSpace(r[0]))
  {
    if s != [] && IsSpace(s[0]) then SkipSpaces(s[1..]) else s
  }

  function ToLower(c: Byte): Byte {
    if IsUpper(c) then (c as int + 32) as char else c
  }

  function ToUpper(c: Byte): Byte {
    if IsLower(c) then (c as int - 32) as char else c
  }

  function LowerCase(s: Bytes): (r: Bytes)
    ensures |r| == |s|
    ensures forall i :: 0 <= i < |s| ==> r[i] == ToLower(s[i])
  {
    seq(|s|, i requires 0 <= i < |s| => ToLower(s[i]))
  }

  // strchr over a C string: the terminator is always found.
  predicate StrChr(set_: Bytes, c: char) { c == '\0' || c in set_ }

  predicate StartsWith(s: Bytes, prefix: Bytes) {
    |prefix| <= |s| && s[..|prefix|] == prefix
  }

  /** Position of the first byte of `set_` at or after `from`; the length when
      there is none, which is how every caller reads npos. */
  function FindAny(s: Bytes, set_: Bytes, from: nat): (i: nat)
    requires from <= |s|
    ensures from <= i <= |s|
    ensures i < |s| ==> s[i] in set_
    ensures forall k :: from <= k < i ==> s[k] !in set_
    decreases |s| - from
  {
    if from == |s| || s[from] in set_ then from else FindAny(s, set_, from + 1)
  }

  lemma FindAnyAt(s: Bytes, set_: Bytes, from: nat, at: nat)
    requires from <= at < |s| && s[at] in set_
    requires forall k :: from <= k < at ==> s[k] !in set_
    ensures FindAny(s, set_, from) == at
  {
  }

  predicate OccursAt(s: Bytes, pat: Bytes, k: int) {
    0 <= k && k + |pat| <= |s| && s[k..k + |pat|] == pat
  }

  /** Position of the first occurrence of `pat` at or after `from`, if any. */
  function FindStr(s: Bytes, pat: Bytes, from: nat): (i: Option<nat>)
    requires from <= |s|
    ensures i.Some? ==> from <= i.value && OccursAt(s, pat, i.value)
    ensures i.Some? ==> forall k :: from <= k < i.value ==> !OccursAt(s, pat, k)
    ensures i.None? ==> forall k :: from <= k ==> !OccursAt(s, pat, k)
    decreases |s| - from
  {
    if OccursAt(s, pat, from) then Some(from)
    else if from == |s| then None
    else FindStr(s, pat, from + 1)
  }

  lemma Assoc(a: Bytes, b: Bytes, c: Bytes)
    ensures (a + b) + c == a + (b + c)
  {
  }

  function Concat(parts: seq<Bytes>): Bytes {
    if parts == [] then [] else parts[0] + Concat(parts[1..])
  }

  lemma {:induction false} ConcatAppend(a: seq<Bytes>, b: seq<Bytes>)
    ensures Concat(a + b) == Concat(a) + Concat(b)
  {
    if a == [] {
      assert a + b == b;
    } else {
      assert (a + b)[1..] == a[1..] + b;
      ConcatAppend(a[1..], b);
    }
  }
}
