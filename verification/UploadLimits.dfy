/** Chunked uploads from their first byte on: which limits the written body can
    pass, and a request on which it does and on which the loop of Build stalls. */
module UploadLimits {
  import opened Octets
  import opened NumericUtils
  import opened HttpMessages
  import opened PathNormalization
  import opened PercentCodec
  import opened DotSegments
  import RqTarget
  import RqTargetRoundTrip
  import opened BuilderSpec
  import opened BuilderFragments
  import opened ChunkedCoding
  import opened ChunkTail
  import opened RequestRendering
  import opened RequestFraming

  function LimitFor(env: Env, m: Message): nat
    requires HeadOk(m)
  {
    env.onHeadersReady(RequestOf(m)).maxBodySize
  }

  /** What a new builder has written once it was given the request and these
      bytes of its body. */
  function WrittenBody(env: Env, m: Message, body: Bytes): Bytes {
    Feed(env, FRESH, RenderHead(m) + body).rq.body.content
  }

  ghost predicate LimitPassable(env: Env, m: Message)
    requires HeadOk(m)
  {
    exists body :: |WrittenBody(env, m, body)| > LimitFor(env, m)
  }

  lemma ChunkedWritten(env: Env, m: Message, body: Bytes)
    requires ChunkedCoded(env, m)
    ensures var s := BodyStarted(env, m, true, 0, body);
            && AtChunkSize(s) && s.buf == body && s.bodyLen == 0 && s.maxBody == LimitFor(env, m)
            && s.rq.body.content == []
            && WrittenBody(env, m, body) == Run(env, s).rq.body.content
  {
    FeedRendered(env, m, body);
    ChunkedHeaders(env, m, body);
    hide ProcessHeaders;
    hide HeadOk;
    hide RequestOf;
    hide Run;
  }

  // A limit of zero lets no size in.
  lemma ZeroLimitWritesNothing(env: Env, s: Builder)
    requires AtChunkSize(s) && s.bodyLen == 0 && s.maxBody == 0
    ensures Run(env, s).rq.body.content == s.rq.body.content
  {
    hide OnChunkSizeLine;
    if s.buf != [] {
      StepLowersRank(env, s);
      var t := Step(env, s);
      match ScanLine(s.buf, 0)
      case Line(at) => NoSizeFits(TakeLine(s, at));
      case Reject(at) =>
      case Exhausted =>
      assert !Running(t) && t.rq.body.content == s.rq.body.content;
    }
  }

  lemma NoSizeFits(s: Builder)
    requires s.bodyLen == 0 && s.maxBody == 0
    ensures OnChunkSizeLine(s).Terminal() && OnChunkSizeLine(s).rq.body.content == s.rq.body.content
  {
    var n := HexToUnsigned(s.extraction, SIZE_MAX);
    assert n.Some? ==> n.value <= SIZE_MAX;
    hide HexToUnsigned;
  }

  function Letters(n: nat): (r: Bytes)
    ensures |r| == n
  {
    seq(n, i => 'B')
  }

  // A one-byte chunk, a size of 2^64 - 1, and as many bytes as the limit.
  function OverfullBody(limit: nat): Bytes { EncodeChunk(ONE_BYTE) + Oversized(Letters(limit)) }

  lemma OverfullPasses(env: Env, m: Message)
    requires ChunkedCoded(env, m) && 1 <= LimitFor(env, m) <= SIZE_MAX
    ensures |WrittenBody(env, m, OverfullBody(LimitFor(env, m)))| == LimitFor(env, m) + 1
  {
    var limit := LimitFor(env, m);
    var body := OverfullBody(limit);
    ChunkedWritten(env, m, body);
    hide HeadOk;
    hide BodyStarted;
    hide EncodeChunk;
    hide Oversized;
    hide Run;
    WrappedSumPassesLimit(env, BodyStarted(env, m, true, 0, body), Letters(limit));
  }

  /** The body of a chunked request can be made longer than its limit exactly
      when the limit is not zero. */
  lemma PassableExactly(env: Env, m: Message)
    requires ChunkedCoded(env, m) && LimitFor(env, m) <= SIZE_MAX
    ensures LimitPassable(env, m) <==> LimitFor(env, m) >= 1
  {
    hide WrittenBody;
    if LimitFor(env, m) >= 1 {
      OverfullPasses(env, m);
    } else {
      forall body ensures WrittenBody(env, m, body) == [] {
        ChunkedWritten(env, m, body);
        ZeroLimitWritesNothing(env, BodyStarted(env, m, true, 0, body));
      }
    }
  }

  // ----- a request of this kind

  const SLASH: Bytes := ['/']
  function HostField(): HeaderField { HeaderField(HOST, ['a']) }

  function CodingField(): HeaderField { HeaderField(TRANSFER_ENCODING, CHUNKED) }

  // POST / HTTP/1.1, host: a, transfer-encoding: chunked
  function Upload(): Message { Message(POST, SLASH, VERSION_11, [HostField(), CodingField()]) }

  /** Every request is fine and may upload one byte. */
  function OneByteEnv(): Env {
    Env((rq: Request) => Validation(HTTP_OK, 1, None), (path: Bytes) => false, (path: Bytes) => true, ['t'])
  }

  lemma SlashDecodes()
    ensures Decode(SLASH, RqTarget.PATH_KEEP) == Some(SLASH)
  {
    var keep := RqTarget.PATH_KEEP;
    assert SLASH[0] == '/' && SLASH[1..] == [];
    assert Decode([], keep) == Some([]);
    assert ['/'] + [] == SLASH;
  }

  lemma SlashIsGood()
    ensures RqTarget.Parse(SLASH).Good()
  {
    RqTargetRoundTrip.PathAlone(SLASH);
    RqTargetRoundTrip.OriginFormAccepted(SLASH);
    assert SLASH[1..] == [];
    assert RqTarget.ValidPath(SLASH);
    SlashDecodes();
    assert UpperHex(SLASH) == SLASH;
    CollapseIdentity(SLASH);
    LoneSlash();
    assert [[]][0] != DOT && [[]][0] != DOTDOT;
    RemoveDotsIdentity(SLASH);
  }

  predicate Lower(s: Bytes) { forall i :: 0 <= i < |s| ==> 'a' <= s[i] <= 'z' || s[i] == '-' }

  lemma LowerFieldIsOk(f: HeaderField)
    requires Lower(f.key) && Lower(f.value) && 0 < |f.key| <= 20 && 0 < |f.value| <= 20
    ensures FieldOk(f) && |FieldLine(f)| <= 42 && LowerCase(f.key) == f.key
  {
    forall i | 0 <= i < |FieldLine(f)| ensures FieldLine(f)[i] != '\r' && FieldLine(f)[i] != '\0' {
      if i < |f.key| {
        assert FieldLine(f)[i] == f.key[i];
      } else if i >= |f.key| + 2 {
        assert FieldLine(f)[i] == f.value[i - |f.key| - 2];
      }
    }
    assert forall i :: 0 <= i < |f.key| ==> LowerCase(f.key)[i] == f.key[i];
  }

  lemma UploadFields()
    ensures FieldOk(HostField()) && FieldOk(CodingField())
    ensures FieldsSize(Upload().fields) <= 84
    ensures Headers(Upload()) == map[HOST := ['a'], TRANSFER_ENCODING := CHUNKED]
  {
    LowerFieldIsOk(HostField());
    LowerFieldIsOk(CodingField());
    hide FieldOk;
    hide FieldLine;
    hide LowerCase;
    var f, g := HostField(), CodingField();
    assert LowerCase(f.key) == HOST && LowerCase(g.key) == TRANSFER_ENCODING;
    TwoFields(f, g);
  }

  lemma TwoFields(f: HeaderField, g: HeaderField)
    ensures FieldsSize([f, g]) == |FieldLine(f)| + |FieldLine(g)|
    ensures Fold(map[], [f, g]) == map[LowerCase(f.key) := f.value, LowerCase(g.key) := g.value]
  {
    assert [f, g][1..] == [g] && [g][1..] == [];
    assert FieldsSize([g]) == |FieldLine(g)|;
    var headers: map<Bytes, Bytes> := map[];
    var one := headers[LowerCase(f.key) := f.value];
    assert Fold(one, [g]) == Fold(one[LowerCase(g.key) := g.value], []);
    hide FieldLine;
    hide LowerCase;
  }

  lemma UploadHeadOk()
    ensures HeadOk(Upload())
  {
    SlashIsGood();
    UploadFields();
    hide RqTarget.Parse;
    hide FieldOk;
    hide FieldsSize;
  }

  lemma UploadIsChunked()
    ensures ChunkedCoded(OneByteEnv(), Upload()) && LimitFor(OneByteEnv(), Upload()) == 1
  {
    UploadHeadOk();
    UploadFields();
    hide HeadOk;
    hide Headers;
    hide RequestOf;
    assert |HOST| != |TRANSFER_ENCODING| && |CONTENT_LENGTH| != |HOST| && |CONTENT_LENGTH| != |TRANSFER_ENCODING|;
  }

  /** The upload passes its limit of one byte, and the loop of Build stalls on
      it when its one chunk is followed by a single byte. */
  lemma UploadOverflowsAndStalls(b: Byte)
    ensures |WrittenBody(OneByteEnv(), Upload(), OverfullBody(1))| == 2
    ensures Stalled(Feed(OneByteEnv(), FRESH, RenderHead(Upload()) + Tail(ONE_BYTE, b)))
  {
    UploadIsChunked();
    hide Upload;
    hide OneByteEnv;
    OverfullPasses(OneByteEnv(), Upload());
    ShortTailStalls(OneByteEnv(), Upload(), b);
  }

  lemma ShortTailStalls(env: Env, m: Message, b: Byte)
    requires ChunkedCoded(env, m) && LimitFor(env, m) >= 1
    ensures Stalled(Feed(env, FRESH, RenderHead(m) + Tail(ONE_BYTE, b)))
  {
    OneByteIsWellFormed();
    RequestStallsExactly(env, m, Tail(ONE_BYTE, b));
    hide HeadOk;
    hide RequestOf;
    hide WellFormed;
    hide Feed;
    hide Stalled;
    hide Tail;
    assert [] + Tail(ONE_BYTE, b) == Tail(ONE_BYTE, b) && [] + [ONE_BYTE] == [ONE_BYTE];
    assert EndsInTail(Tail(ONE_BYTE, b), [], ONE_BYTE, b) && Admitted([] + [ONE_BYTE], 0, LimitFor(env, m));
  }
}
