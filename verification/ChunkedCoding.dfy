/** The chunked coding (section 7.1 of RFC 9112): what the chunked-body states
    accept is exactly a list of chunks closed by a zero size line, and the
    written body is the chunks' data. */
module ChunkedCoding {
  import opened Octets
  import opened NumericUtils
  import opened HttpMessages
  import opened BuilderSpec
  import opened BuilderFragments

  const CRLF: Bytes := ['\r', '\n']

  // A line the scanner hands over whole.
  predicate Scannable(line: Bytes) {
    |line| + 2 <= RQ_LINE_LEN_LIMIT && forall i :: 0 <= i < |line| ==> line[i] != '\r' && line[i] != '\0'
  }

  lemma {:induction false} ScanFindsLine(line: Bytes, rest: Bytes, i: nat)
    requires Scannable(line) && i <= |line| + 1
    ensures ScanLine(line + CRLF + rest, i) == Line(|line| + 1)
    decreases |line| + 1 - i
  {
    var buf := line + CRLF + rest;
    assert buf[|line|] == '\r' && buf[|line| + 1] == '\n';
    assert forall k :: 0 <= k < |line| ==> buf[k] == line[k];
    if i <= |line| {
      ScanFindsLine(line, rest, i + 1);
    }
  }

  lemma {:induction false} LineIsScannable(buf: Bytes, i: nat, at: nat)
    requires i <= |buf| && ScanLine(buf, i) == Line(at)
    requires forall k :: 0 <= k < i - 1 ==> buf[k] != '\r'
    requires forall k :: 0 <= k < i ==> buf[k] != '\0'
    ensures 1 <= at < |buf| && Scannable(buf[..at - 1]) && buf == buf[..at - 1] + CRLF + buf[at + 1..]
    decreases |buf| - i
  {
    if i >= 1 && buf[i - 1] == '\r' && buf[i] == '\n' {
      assert buf == buf[..i - 1] + CRLF + buf[i + 1..];
    } else {
      LineIsScannable(buf, i + 1, at);
    }
  }

  datatype Chunk = Chunk(size: Bytes, data: Bytes)

  /** A size line that spells the length of the data, which is not empty. */
  predicate WellFormed(c: Chunk) {
    Scannable(c.size) && c.data != [] && HexToUnsigned(c.size, SIZE_MAX) == Some(|c.data|)
  }

  predicate AllWellFormed(cs: seq<Chunk>) { forall i :: 0 <= i < |cs| ==> WellFormed(cs[i]) }

  predicate LastSize(line: Bytes) { Scannable(line) && HexToUnsigned(line, SIZE_MAX) == Some(0) }

  function EncodeChunk(c: Chunk): Bytes { c.size + CRLF + c.data + CRLF }

  function EncodeChunks(cs: seq<Chunk>): Bytes {
    if cs == [] then [] else EncodeChunk(cs[0]) + EncodeChunks(cs[1..])
  }

  function Payload(cs: seq<Chunk>): Bytes {
    if cs == [] then [] else cs[0].data + Payload(cs[1..])
  }

  function AddSize(bodyLen: nat, n: nat): nat { (bodyLen + n) % SIZE_MODULUS }

  // The size counter after the chunks, and that it never passed the limit.
  function SizeAfter(cs: seq<Chunk>, bodyLen: nat): nat {
    if cs == [] then bodyLen else SizeAfter(cs[1..], AddSize(bodyLen, |cs[0].data|))
  }

  predicate Admitted(cs: seq<Chunk>, bodyLen: nat, maxBody: nat) {
    cs == []
    || (AddSize(bodyLen, |cs[0].data|) <= maxBody && Admitted(cs[1..], AddSize(bodyLen, |cs[0].data|), maxBody))
  }

  lemma {:induction false} TotalWithinLimit(cs: seq<Chunk>, bodyLen: nat, maxBody: nat)
    requires bodyLen + |Payload(cs)| <= maxBody <= SIZE_MAX
    ensures Admitted(cs, bodyLen, maxBody)
    ensures SizeAfter(cs, bodyLen) == bodyLen + |Payload(cs)|
  {
    if cs != [] {
      assert AddSize(bodyLen, |cs[0].data|) == bodyLen + |cs[0].data|;
      TotalWithinLimit(cs[1..], bodyLen + |cs[0].data|, maxBody);
    }
  }

  predicate ChunkedBody(data: Bytes, cs: seq<Chunk>, last: Bytes, rest: Bytes) {
    AllWellFormed(cs) && LastSize(last) && data == EncodeChunks(cs) + last + CRLF + rest
  }

  predicate AtChunkSize(s: Builder) { s.state == BodyChunkSize && s.idx == 0 && s.remaining == 0 }

  // ----- what the steps do with one chunk

  function AfterChunk(s: Builder, c: Chunk, rest: Bytes): Builder {
    s.(extraction := c.size, buf := rest, bodyLen := AddSize(s.bodyLen, |c.data|),
       rq := s.rq.(body := s.rq.body.(content := s.rq.body.content + c.data)))
  }

  function AfterLast(s: Builder, last: Bytes, rest: Bytes): Builder {
    s.(extraction := last, buf := rest, state := End,
       rq := s.rq.(body := s.rq.body.(transferComplete := true)))
  }

  lemma SizeLineStep(env: Env, s: Builder, line: Bytes, rest: Bytes)
    requires AtChunkSize(s) && Scannable(line) && s.buf == line + CRLF + rest
    ensures Running(s) && Step(env, s) == OnChunkSizeLine(s.(extraction := line, buf := rest))
  {
    ScanFindsLine(line, rest, 0);
    assert s.buf[..|line|] == line && s.buf[|line| + 2..] == rest;
    hide OnChunkSizeLine;
  }

  lemma DataStep(env: Env, s: Builder, data: Bytes, rest: Bytes)
    requires s.state == BodyChunkContent && s.idx == 0 && s.remaining == |data| > 0
    requires s.buf == data + CRLF + rest
    ensures Running(s)
    ensures Step(env, s) == s.(buf := rest, remaining := 0, state := BodyChunkSize,
                               rq := s.rq.(body := s.rq.body.(content := s.rq.body.content + data)))
  {
    var n := |data|;
    assert s.buf[..n] == data && s.buf[n..] == CRLF + rest;
    var m := MoveToBody(s);
    assert m.buf == CRLF + rest && m.buf[0] == '\r' && m.buf[1] == '\n' && m.buf[2..] == rest;
  }

  lemma AcceptSize(s: Builder, n: nat)
    requires HexToUnsigned(s.extraction, SIZE_MAX) == Some(n) && n > 0
    ensures AddSize(s.bodyLen, n) <= s.maxBody ==>
            OnChunkSizeLine(s) == s.(bodyLen := AddSize(s.bodyLen, n), remaining := n, state := BodyChunkContent)
    ensures AddSize(s.bodyLen, n) > s.maxBody ==> OnChunkSizeLine(s).state == BadRequest
  {
    hide HexToUnsigned;
  }

  lemma ChunkSteps(env: Env, s: Builder, c: Chunk, rest: Bytes)
    requires AtChunkSize(s) && WellFormed(c) && s.buf == EncodeChunk(c) + rest
    requires AddSize(s.bodyLen, |c.data|) <= s.maxBody
    ensures Run(env, s) == Run(env, AfterChunk(s, c, rest))
  {
    hide HexToUnsigned;
    hide OnChunkSizeLine;
    var tail := c.data + CRLF + rest;
    assert s.buf == c.size + CRLF + tail;
    SizeLineStep(env, s, c.size, tail);
    hide Step;
    AcceptSize(s.(extraction := c.size, buf := tail), |c.data|);
    DataStep(env, Step(env, s), c.data, rest);
  }

  lemma LastSteps(env: Env, s: Builder, last: Bytes, rest: Bytes)
    requires AtChunkSize(s) && LastSize(last) && s.buf == last + CRLF + rest
    ensures Run(env, s) == AfterLast(s, last, rest)
  {
    SizeLineStep(env, s, last, rest);
    hide Step;
    hide HexToUnsigned;
  }

  function AfterBody(s: Builder, cs: seq<Chunk>, last: Bytes, rest: Bytes): Builder {
    s.(extraction := last, buf := rest, state := End, bodyLen := SizeAfter(cs, s.bodyLen),
       rq := s.rq.(body := s.rq.body.(content := s.rq.body.content + Payload(cs), transferComplete := true)))
  }

  lemma EncodeFront(cs: seq<Chunk>, last: Bytes, rest: Bytes)
    requires cs != []
    ensures EncodeChunks(cs) + last + CRLF + rest == EncodeChunk(cs[0]) + (EncodeChunks(cs[1..]) + last + CRLF + rest)
  {
    hide EncodeChunk;
  }

  lemma AfterBodyFront(s: Builder, cs: seq<Chunk>, last: Bytes, rest: Bytes, tail: Bytes)
    requires cs != []
    ensures AfterBody(AfterChunk(s, cs[0], tail), cs[1..], last, rest) == AfterBody(s, cs, last, rest)
  {
    assert s.rq.body.content + cs[0].data + Payload(cs[1..]) == s.rq.body.content + Payload(cs);
  }

  lemma {:induction false} ChunksRun(env: Env, s: Builder, cs: seq<Chunk>, last: Bytes, rest: Bytes)
    requires AtChunkSize(s) && ChunkedBody(s.buf, cs, last, rest) && Admitted(cs, s.bodyLen, s.maxBody)
    ensures Run(env, s) == AfterBody(s, cs, last, rest)
    decreases |cs|
  {
    hide Run;
    hide EncodeChunk;
    hide WellFormed;
    hide LastSize;
    if cs == [] {
      assert s.buf == last + CRLF + rest;
      LastSteps(env, s, last, rest);
      assert s.rq.body.content + Payload(cs) == s.rq.body.content;
    } else {
      var tail := EncodeChunks(cs[1..]) + last + CRLF + rest;
      EncodeFront(cs, last, rest);
      ChunkSteps(env, s, cs[0], tail);
      AfterBodyFront(s, cs, last, rest, tail);
      hide AfterBody;
      ChunksRun(env, AfterChunk(s, cs[0], tail), cs[1..], last, rest);
    }
  }

  /** Chunked round trip. Chunks of any data and any spelling of their sizes,
      closed by a zero size and delivered in any fragments: the body is the
      data in order, the message is complete, and what follows the CRLF of the
      last size line is still in the buffer. */
  lemma ChunkedRoundTrip(env: Env, s: Builder, fragments: seq<Bytes>, cs: seq<Chunk>, last: Bytes, rest: Bytes)
    requires AtChunkSize(s) && s.buf == [] && NonEmptyFragments(fragments)
    requires ChunkedBody(Concat(fragments), cs, last, rest)
    requires s.bodyLen + |Payload(cs)| <= s.maxBody <= SIZE_MAX
    ensures FeedAll(env, s, fragments) == AfterBody(s, cs, last, rest)
    ensures SizeAfter(cs, s.bodyLen) == s.bodyLen + |Payload(cs)|
  {
    FragmentationIndependence(env, s, fragments);
    TotalWithinLimit(cs, s.bodyLen, s.maxBody);
    assert Append(s, Concat(fragments)).buf == Concat(fragments);
    ChunksRun(env, Append(s, Concat(fragments)), cs, last, rest);
    assert Concat(fragments) == fragments[0] + Concat(fragments[1..]);
  }

  // ----- nothing else is accepted

  lemma NoSizeLineStops(env: Env, s: Builder)
    requires AtChunkSize(s) && !ScanLine(s.buf, 0).Line?
    ensures Run(env, s).state != End
  {
    if s.buf != [] {
      StepLowersRank(env, s);
      var t := Step(env, s);
      assert !Running(t) && t.state != End;
    }
  }

  lemma BadSizeStops(env: Env, s: Builder)
    requires AtChunkSize(s) && Running(s) && Step(env, s).state == BadRequest
    ensures Run(env, s).state != End
  {
    StepLowersRank(env, s);
    hide Step;
    assert !Running(Step(env, s));
  }

  /** A chunk's data that does not end with its CRLF in the buffer never
      becomes a complete message. */
  lemma BadDataStops(env: Env, s: Builder)
    requires s.state == BodyChunkContent && s.idx == 0 && s.remaining > 0
    requires !(|s.buf| >= s.remaining + 2 && s.buf[s.remaining] == '\r' && s.buf[s.remaining + 1] == '\n')
    ensures Run(env, s).state != End
  {
    if s.buf != [] {
      StepLowersRank(env, s);
      hide MoveToBody;
      assert !Running(Step(env, s)) && Step(env, s).state != End;
    }
  }

  // Data with its CRLF after it.
  predicate DataComplete(tail: Bytes, n: nat) { |tail| >= n + 2 && tail == tail[..n] + CRLF + tail[n + 2..] }

  lemma SizedChunk(env: Env, s: Builder, line: Bytes, tail: Bytes)
    requires AtChunkSize(s) && Scannable(line) && s.buf == line + CRLF + tail && Run(env, s).state == End
    ensures var size := HexToUnsigned(line, SIZE_MAX);
            && size.Some?
            && (size.value > 0 ==> AddSize(s.bodyLen, size.value) <= s.maxBody && DataComplete(tail, size.value))
  {
    hide HexToUnsigned;
    hide OnChunkSizeLine;
    SizeLineStep(env, s, line, tail);
    StepLowersRank(env, s);
    hide Step;
    var size := HexToUnsigned(line, SIZE_MAX);
    var l := s.(extraction := line, buf := tail);
    if size.None? {
      NoSizeFails(l);
      BadSizeStops(env, s);
    } else if size.value > 0 {
      AcceptSize(l, size.value);
      if AddSize(s.bodyLen, size.value) > s.maxBody {
        BadSizeStops(env, s);
      }
      TailCompletes(env, Step(env, s), size.value);
    }
  }

  lemma NoSizeFails(s: Builder)
    requires HexToUnsigned(s.extraction, SIZE_MAX).None?
    ensures OnChunkSizeLine(s).state == BadRequest
  {
    hide HexToUnsigned;
  }

  lemma TailCompletes(env: Env, s: Builder, n: nat)
    requires s.state == BodyChunkContent ==> s.idx == 0 && s.remaining == n > 0
    requires s.idx <= |s.buf| && Run(env, s).state == End
    ensures s.state == BodyChunkContent ==> DataComplete(s.buf, n)
  {
    hide Run;
    if s.state == BodyChunkContent {
      if |s.buf| >= n + 2 && s.buf[n] == '\r' && s.buf[n + 1] == '\n' {
        assert s.buf == s.buf[..n] + CRLF + s.buf[n + 2..];
      } else {
        BadDataStops(env, s);
      }
    }
  }

  lemma SpliceChunk(buf: Bytes, c: Chunk, tail: Bytes, after: Bytes)
    requires buf == c.size + CRLF + tail && tail == c.data + CRLF + after
    ensures buf == EncodeChunk(c) + after
  {
  }

  lemma PrependChunk(data: Bytes, c: Chunk, cs: seq<Chunk>, last: Bytes, rest: Bytes, after: Bytes)
    requires WellFormed(c) && ChunkedBody(after, cs, last, rest) && data == EncodeChunk(c) + after
    ensures ChunkedBody(data, [c] + cs, last, rest)
  {
    hide EncodeChunk;
    hide WellFormed;
    assert ([c] + cs)[1..] == cs;
    EncodeFront([c] + cs, last, rest);
  }

  lemma AdmittedFront(c: Chunk, cs: seq<Chunk>, bodyLen: nat, maxBody: nat)
    requires AddSize(bodyLen, |c.data|) <= maxBody && Admitted(cs, AddSize(bodyLen, |c.data|), maxBody)
    ensures Admitted([c] + cs, bodyLen, maxBody)
  {
    assert ([c] + cs)[1..] == cs;
  }

  /** A body that completes is a chunked body: the chunks, the last size line
      and what follows it. */
  lemma {:induction false} CompleteIsChunked(env: Env, s: Builder) returns (cs: seq<Chunk>, last: Bytes, rest: Bytes)
    requires AtChunkSize(s) && Run(env, s).state == End
    ensures ChunkedBody(s.buf, cs, last, rest) && Admitted(cs, s.bodyLen, s.maxBody)
    decreases |s.buf|
  {
    if !ScanLine(s.buf, 0).Line? {
      NoSizeLineStops(env, s);
    }
    var at := ScanLine(s.buf, 0).at;
    LineIsScannable(s.buf, 0, at);
    var line, tail := s.buf[..at - 1], s.buf[at + 1..];
    SizedChunk(env, s, line, tail);
    var n := HexToUnsigned(line, SIZE_MAX).value;
    if n == 0 {
      cs, last, rest := [], line, tail;
      assert EncodeChunks(cs) + last + CRLF + rest == s.buf;
    } else {
      var c, after := Chunk(line, tail[..n]), tail[n + 2..];
      SpliceChunk(s.buf, c, tail, after);
      hide Run;
      hide EncodeChunk;
      hide HexToUnsigned;
      ChunkSteps(env, s, c, after);
      cs, last, rest := CompleteIsChunked(env, AfterChunk(s, c, after));
      PrependChunk(s.buf, c, cs, last, rest, after);
      AdmittedFront(c, cs, s.bodyLen, s.maxBody);
      cs := [c] + cs;
    }
  }

  /** The chunked states accept exactly the chunked coding. */
  lemma ChunkedExactly(env: Env, s: Builder)
    requires AtChunkSize(s)
    ensures Run(env, s).state == End <==>
            exists cs, last, rest :: ChunkedBody(s.buf, cs, last, rest) && Admitted(cs, s.bodyLen, s.maxBody)
  {
    if Run(env, s).state == End {
      var cs, last, rest := CompleteIsChunked(env, s);
    } else {
      forall cs, last, rest | ChunkedBody(s.buf, cs, last, rest) && Admitted(cs, s.bodyLen, s.maxBody)
        ensures false
      {
        ChunksRun(env, s, cs, last, rest);
      }
    }
  }

  // ----- the usual spelling

  function Pow16(k: nat): nat { if k == 0 then 1 else 16 * Pow16(k - 1) }

  lemma {:induction false} HexRenderShort(n: nat, k: nat)
    requires n < Pow16(k + 1)
    ensures |HexRender(n)| <= k + 1
    decreases k
  {
    if n >= 16 {
      assert k > 0;
      HexRenderShort(n / 16, k - 1);
    }
  }

  function Canonical(parts: seq<Bytes>): seq<Chunk> {
    seq(|parts|, i requires 0 <= i < |parts| => Chunk(HexRender(|parts[i]|), parts[i]))
  }

  predicate ValidParts(parts: seq<Bytes>) { forall i :: 0 <= i < |parts| ==> 0 < |parts[i]| <= SIZE_MAX }

  lemma HexSizeScannable(n: nat)
    requires n <= SIZE_MAX
    ensures Scannable(HexRender(n)) && HexToUnsigned(HexRender(n), SIZE_MAX) == Some(n)
  {
    assert Pow16(2) == 0x100 && Pow16(4) == 0x1_0000 && Pow16(6) == 0x100_0000;
    assert Pow16(8) == 0x1_0000_0000 && Pow16(10) == 0x100_0000_0000 && Pow16(12) == 0x1_0000_0000_0000;
    assert Pow16(14) == 0x100_0000_0000_0000;
    assert Pow16(16) == 0x1_0000_0000_0000_0000;
    HexRenderShort(n, 15);
    HexRoundTrip(n, SIZE_MAX);
    var r := HexRender(n);
    forall i | 0 <= i < |r| ensures r[i] != '\r' && r[i] != '\0' {
      assert IsHexDigit(r[i]);
    }
  }

  lemma {:induction false} PayloadOfCanonical(parts: seq<Bytes>)
    ensures Payload(Canonical(parts)) == Concat(parts)
  {
    if parts != [] {
      assert Canonical(parts)[1..] == Canonical(parts[1..]);
      PayloadOfCanonical(parts[1..]);
    }
  }

  /** Any non-empty parts, their sizes in hexadecimal, a final 0: a chunked
      body whose payload is the parts. */
  lemma CanonicalIsChunked(parts: seq<Bytes>, rest: Bytes)
    requires ValidParts(parts)
    ensures ChunkedBody(EncodeChunks(Canonical(parts)) + ['0'] + CRLF + rest, Canonical(parts), ['0'], rest)
    ensures Payload(Canonical(parts)) == Concat(parts)
  {
    forall i | 0 <= i < |parts| ensures WellFormed(Canonical(parts)[i]) {
      HexSizeScannable(|parts[i]|);
    }
    HexSizeScannable(0);
    assert HexRender(0) == ['0'];
    PayloadOfCanonical(parts);
  }

  // ----- where the size sum wraps

  // Data that does not reach the size announced for it, or just reaches it
  // without the line end.
  lemma PartialData(env: Env, s: Builder)
    requires s.state == BodyChunkContent && s.idx == 0 && s.buf != [] && s.remaining >= |s.buf|
    ensures Run(env, s).rq.body.content == s.rq.body.content + s.buf
  {
    var t := Step(env, s);
    assert s.buf[..|s.buf|] == s.buf;
    assert t.buf == [] && !Running(t);
  }

  lemma OversizedSteps(env: Env, s: Builder, size: Bytes, data: Bytes)
    requires AtChunkSize(s) && Scannable(size) && s.buf == size + CRLF + data && 0 < |data| <= SIZE_MAX
    requires HexToUnsigned(size, SIZE_MAX) == Some(SIZE_MAX)
    requires 0 < s.bodyLen <= s.maxBody && s.bodyLen <= SIZE_MAX
    ensures Run(env, s).rq.body.content == s.rq.body.content + data
  {
    hide HexToUnsigned;
    hide OnChunkSizeLine;
    SizeLineStep(env, s, size, data);
    hide Step;
    AcceptSize(s.(extraction := size, buf := data), SIZE_MAX);
    PartialData(env, Step(env, s));
  }

  const ONE_BYTE: Chunk := Chunk(['1'], ['A'])

  lemma OneByteIsWellFormed()
    ensures WellFormed(ONE_BYTE)
  {
    HexSizeScannable(1);
    assert HexRender(1) == ONE_BYTE.size;
  }

  // A size of 2^64 - 1 and a beginning of its data.
  function Oversized(data: Bytes): Bytes { HexRender(SIZE_MAX) + CRLF + data }

  /** The body limit without its condition: after a one-byte chunk, a size of
      2^64 - 1 makes the sum zero, and any data behind it is written as well. */
  lemma WrappedSumPassesLimit(env: Env, s: Builder, data: Bytes)
    requires AtChunkSize(s) && s.buf == EncodeChunk(ONE_BYTE) + Oversized(data) && 0 < |data| <= SIZE_MAX
    requires s.bodyLen == 0 && s.maxBody >= 1
    ensures Run(env, s).rq.body.content == s.rq.body.content + ONE_BYTE.data + data
  {
    OneByteIsWellFormed();
    hide WellFormed;
    ChunkSteps(env, s, ONE_BYTE, Oversized(data));
    HexSizeScannable(SIZE_MAX);
    hide Run;
    hide EncodeChunk;
    hide HexRender;
    hide HexToUnsigned;
    OversizedSteps(env, AfterChunk(s, ONE_BYTE, Oversized(data)), HexRender(SIZE_MAX), data);
  }
}
