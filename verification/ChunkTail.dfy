/** Which deliveries end in the state the loop of Build does not leave: the data
    of a chunk is complete and one byte of its line end is buffered. */
module ChunkTail {
  import opened Octets
  import opened NumericUtils
  import opened HttpMessages
  import opened BuilderSpec
  import opened BuilderFragments
  import opened ChunkedCoding
  import opened RequestRendering
  import opened RequestFraming

  // A chunk without its CRLF, and one byte.
  function Tail(c: Chunk, b: Byte): Bytes { c.size + CRLF + (c.data + [b]) }

  /** Whole chunks, then a chunk with its data and one more byte. */
  predicate EndsInTail(data: Bytes, cs: seq<Chunk>, c: Chunk, b: Byte) {
    AllWellFormed(cs) && WellFormed(c) && data == EncodeChunks(cs) + Tail(c, b)
  }

  /** What stalls a builder that has counted `bodyLen` bytes of sizes: such
      bytes, with every size accepted under the limit. */
  ghost predicate StallsOn(data: Bytes, bodyLen: nat, maxBody: nat) {
    exists cs, c, b :: EndsInTail(data, cs, c, b) && Admitted(cs + [c], bodyLen, maxBody)
  }

  // ----- such a delivery stalls

  function Waiting(s: Builder, c: Chunk, b: Byte): Builder {
    s.(state := BodyChunkContent, extraction := c.size, buf := [b], bodyLen := AddSize(s.bodyLen, |c.data|),
       rq := s.rq.(body := s.rq.body.(content := s.rq.body.content + c.data)))
  }

  lemma DataTailStep(env: Env, s: Builder, data: Bytes, b: Byte)
    requires s.state == BodyChunkContent && s.idx == 0 && s.remaining == |data| > 0 && s.buf == data + [b]
    ensures Running(s)
    ensures Step(env, s) == s.(buf := [b], remaining := 0,
                               rq := s.rq.(body := s.rq.body.(content := s.rq.body.content + data)))
  {
    var n := |data|;
    assert s.buf[..n] == data && s.buf[n..] == [b];
  }

  /** One well-formed chunk within the limit, followed by one byte. */
  lemma TailStalls(env: Env, s: Builder, c: Chunk, b: Byte)
    requires AtChunkSize(s) && WellFormed(c) && s.buf == Tail(c, b)
    requires AddSize(s.bodyLen, |c.data|) <= s.maxBody
    ensures Run(env, s) == Waiting(s, c, b) && Stalled(Run(env, s))
  {
    hide HexToUnsigned;
    hide OnChunkSizeLine;
    SizeLineStep(env, s, c.size, c.data + [b]);
    AcceptSize(s.(extraction := c.size, buf := c.data + [b]), |c.data|);
    var t := Step(env, s);
    DataTailStep(env, t, c.data, b);
    hide Step;
    assert Stalled(Step(env, t));
    assert Run(env, s) == Run(env, t) == Run(env, Step(env, t)) == Step(env, t);
  }

  lemma EncodeFrontTail(cs: seq<Chunk>, tail: Bytes)
    requires cs != []
    ensures EncodeChunks(cs) + tail == EncodeChunk(cs[0]) + (EncodeChunks(cs[1..]) + tail)
  {
    hide EncodeChunk;
    Assoc(EncodeChunk(cs[0]), EncodeChunks(cs[1..]), tail);
  }

  lemma {:induction false} ChunksThenTailStall(env: Env, s: Builder, cs: seq<Chunk>, c: Chunk, b: Byte)
    requires AtChunkSize(s) && EndsInTail(s.buf, cs, c, b) && Admitted(cs + [c], s.bodyLen, s.maxBody)
    ensures Stalled(Run(env, s))
    decreases |cs|
  {
    hide Run;
    hide EncodeChunk;
    hide WellFormed;
    hide Tail;
    hide Stalled;
    if cs == [] {
      assert s.buf == Tail(c, b) && (cs + [c])[0] == c;
      TailStalls(env, s, c, b);
    } else {
      var tail := EncodeChunks(cs[1..]) + Tail(c, b);
      EncodeFrontTail(cs, Tail(c, b));
      assert (cs + [c])[0] == cs[0] && (cs + [c])[1..] == cs[1..] + [c];
      ChunkSteps(env, s, cs[0], tail);
      ChunksThenTailStall(env, AfterChunk(s, cs[0], tail), cs[1..], c, b);
    }
  }

  // ----- and no other does

  lemma NoSizeLineNoStall(env: Env, s: Builder)
    requires AtChunkSize(s) && !ScanLine(s.buf, 0).Line?
    ensures !Stalled(Run(env, s))
  {
    if s.buf != [] {
      StepLowersRank(env, s);
      var t := Step(env, s);
      assert !Running(t) && t.state != BodyChunkContent;
    }
  }

  lemma SettledNoStall(env: Env, s: Builder)
    requires Running(s) && s.idx <= |s.buf| && Step(env, s).Terminal()
    ensures !Stalled(Run(env, s))
  {
    StepLowersRank(env, s);
    hide Step;
  }

  lemma ShortDataNoStall(env: Env, s: Builder)
    requires s.state == BodyChunkContent && s.idx == 0 && s.remaining >= |s.buf| && s.remaining > 0
    ensures !Stalled(Run(env, s))
  {
    if s.buf != [] {
      StepLowersRank(env, s);
      hide MoveToBody;
      assert !Running(Step(env, s)) && !Stalled(Step(env, s));
    }
  }

  lemma WrongEndNoStall(env: Env, s: Builder)
    requires s.state == BodyChunkContent && s.idx == 0 && 0 < s.remaining <= |s.buf| - 2
    requires !(s.buf[s.remaining] == '\r' && s.buf[s.remaining + 1] == '\n')
    ensures !Stalled(Run(env, s))
  {
    assert Step(env, s).state == BadRequest;
    SettledNoStall(env, s);
  }

  lemma DataOrTail(env: Env, s: Builder, n: nat)
    requires s.state == BodyChunkContent && s.idx == 0 && s.remaining == n > 0 && Stalled(Run(env, s))
    ensures |s.buf| == n + 1 || DataComplete(s.buf, n)
  {
    hide Run;
    hide Stalled;
    if |s.buf| <= n {
      ShortDataNoStall(env, s);
    } else if |s.buf| >= n + 2 {
      if s.buf[n] == '\r' && s.buf[n + 1] == '\n' {
        assert s.buf == s.buf[..n] + CRLF + s.buf[n + 2..];
      } else {
        WrongEndNoStall(env, s);
      }
    }
  }

  lemma StalledChunk(env: Env, s: Builder, line: Bytes, tail: Bytes)
    requires AtChunkSize(s) && Scannable(line) && s.buf == line + CRLF + tail && Stalled(Run(env, s))
    ensures var size := HexToUnsigned(line, SIZE_MAX);
            && size.Some? && size.value > 0 && AddSize(s.bodyLen, size.value) <= s.maxBody
            && (|tail| == size.value + 1 || DataComplete(tail, size.value))
  {
    hide HexToUnsigned;
    hide OnChunkSizeLine;
    hide Stalled;
    SizeLineStep(env, s, line, tail);
    StepLowersRank(env, s);
    hide Step;
    var size := HexToUnsigned(line, SIZE_MAX);
    var l := s.(extraction := line, buf := tail);
    if size.None? {
      NoSizeFails(l);
      SettledNoStall(env, s);
    } else if size.value == 0 {
      ZeroSizeEnds(l);
      SettledNoStall(env, s);
    } else {
      AcceptSize(l, size.value);
      if AddSize(s.bodyLen, size.value) > s.maxBody {
        SettledNoStall(env, s);
      } else {
        DataOrTail(env, Step(env, s), size.value);
      }
    }
  }

  lemma ZeroSizeEnds(s: Builder)
    requires HexToUnsigned(s.extraction, SIZE_MAX) == Some(0)
    ensures OnChunkSizeLine(s).state == End
  {
    hide HexToUnsigned;
  }

  // The first chunk of a builder that stalls, and what follows its size line.
  lemma StalledFront(env: Env, s: Builder) returns (c: Chunk, tail: Bytes)
    requires AtChunkSize(s) && Stalled(Run(env, s))
    ensures WellFormed(c) && s.buf == c.size + CRLF + tail && AddSize(s.bodyLen, |c.data|) <= s.maxBody
    ensures var n := |c.data|;
            n < |tail| && c.data == tail[..n] && (|tail| == n + 1 || DataComplete(tail, n))
  {
    if !ScanLine(s.buf, 0).Line? {
      NoSizeLineNoStall(env, s);
    }
    hide Run;
    hide Stalled;
    var at := ScanLine(s.buf, 0).at;
    LineIsScannable(s.buf, 0, at);
    var line := s.buf[..at - 1];
    tail := s.buf[at + 1..];
    StalledChunk(env, s, line, tail);
    c := Chunk(line, tail[..HexToUnsigned(line, SIZE_MAX).value]);
    hide HexToUnsigned;
  }

  /** A builder that stalls was given whole chunks, then a chunk's data and one
      byte. */
  lemma {:induction false} StalledIsTail(env: Env, s: Builder) returns (cs: seq<Chunk>, c: Chunk, b: Byte)
    requires AtChunkSize(s) && Stalled(Run(env, s))
    ensures EndsInTail(s.buf, cs, c, b) && Admitted(cs + [c], s.bodyLen, s.maxBody)
    decreases |s.buf|
  {
    hide Run;
    hide Stalled;
    hide WellFormed;
    hide EndsInTail;
    hide EncodeChunk;
    var front, tail := StalledFront(env, s);
    var n := |front.data|;
    if |tail| == n + 1 {
      cs, c, b := [], front, tail[n];
      OnlyTail(s.buf, c, b, tail);
      AdmittedFront(c, cs, s.bodyLen, s.maxBody);
      assert cs + [c] == [c] + cs;
    } else {
      var after := tail[n + 2..];
      SpliceChunk(s.buf, front, tail, after);
      ChunkSteps(env, s, front, after);
      assert |after| < |s.buf|;
      cs, c, b := StalledIsTail(env, AfterChunk(s, front, after));
      PrependTail(s.buf, front, cs, c, b, after);
      AdmittedFront(front, cs + [c], s.bodyLen, s.maxBody);
      assert [front] + (cs + [c]) == ([front] + cs) + [c];
      cs := [front] + cs;
    }
  }

  lemma OnlyTail(buf: Bytes, c: Chunk, b: Byte, tail: Bytes)
    requires WellFormed(c) && buf == c.size + CRLF + tail && tail == c.data + [b]
    ensures EndsInTail(buf, [], c, b)
  {
    assert [] + Tail(c, b) == buf;
  }

  lemma PrependTail(data: Bytes, front: Chunk, cs: seq<Chunk>, c: Chunk, b: Byte, after: Bytes)
    requires WellFormed(front) && EndsInTail(after, cs, c, b) && data == EncodeChunk(front) + after
    ensures EndsInTail(data, [front] + cs, c, b)
  {
    hide EncodeChunk;
    hide WellFormed;
    hide Tail;
    assert ([front] + cs)[1..] == cs;
    EncodeFrontTail([front] + cs, Tail(c, b));
  }

  /** The chunked states stall exactly on whole chunks followed by a chunk's
      data and one byte, all within the limit. */
  lemma StallsExactly(env: Env, s: Builder)
    requires AtChunkSize(s)
    ensures Stalled(Run(env, s)) <==> StallsOn(s.buf, s.bodyLen, s.maxBody)
  {
    hide Run;
    hide Stalled;
    if Stalled(Run(env, s)) {
      var cs, c, b := StalledIsTail(env, s);
    }
    forall cs, c, b | EndsInTail(s.buf, cs, c, b) && Admitted(cs + [c], s.bodyLen, s.maxBody)
      ensures Stalled(Run(env, s))
    {
      ChunksThenTailStall(env, s, cs, c, b);
    }
  }

  /** From a new builder: a chunked request stalls exactly when what follows its
      head is such a body. */
  lemma RequestStallsExactly(env: Env, m: Message, body: Bytes)
    requires ChunkedCoded(env, m)
    ensures Stalled(Feed(env, FRESH, RenderHead(m) + body))
            <==> StallsOn(body, 0, env.onHeadersReady(RequestOf(m)).maxBodySize)
  {
    FeedRendered(env, m, body);
    ChunkedHeaders(env, m, body);
    var s := BodyStarted(env, m, true, 0, body);
    assert AtChunkSize(s) && s.buf == body && s.bodyLen == 0;
    assert s.maxBody == env.onHeadersReady(RequestOf(m)).maxBodySize;
    hide ProcessHeaders;
    hide HeadOk;
    hide StallsOn;
    hide BodyStarted;
    hide Stalled;
    hide Run;
    hide Feed;
    StallsExactly(env, s);
  }
}
