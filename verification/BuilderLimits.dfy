/** What holds of a builder between any two calls: how much it buffers, how
    many header bytes it accepts, and how the body written so far relates to
    the length the message declared. */
module BuilderLimits {
  import opened Octets
  import opened NumericUtils
  import opened HttpMessages
  import RqTarget
  import opened BuilderSpec

  predicate BeforeBody(s: Builder) { s.state == RqLine || s.state == HeaderFields || s.state == AfterHeaders }

  predicate ScanBounded(s: Builder) {
    && s.idx <= |s.buf|
    && s.idx <= RQ_LINE_LEN_LIMIT
    && (s.state != BadRequest && !s.InLineState() ==> s.idx == 0)
  }

  predicate HeadersBounded(s: Builder) {
    && |s.rq.headers| <= s.headerCount <= RQ_MAX_HEADER_COUNT
    && s.headerSize <= RQ_HEADER_SECTION_LIMIT
    && (s.state == RqLine ==> s.headerSize == 0)
  }

  function Written(s: Builder): nat { |s.rq.body.content| }

  // The length the Content-Length field declares, when it holds a number.
  function DeclaredLength(s: Builder): Option<nat> {
    if CONTENT_LENGTH in s.rq.headers then StrToUnsigned(s.rq.headers[CONTENT_LENGTH], SIZE_MAX) else None
  }

  /** Written body and bytes still due, against the declared length or the sum
      of the chunk sizes, which is a 64-bit sum. */
  predicate BodyAccounted(s: Builder) {
    if BeforeBody(s) then Written(s) == 0 && !s.chunked && !s.hasBody && s.bodyLen == 0 && s.remaining == 0
    else if !s.hasBody then Written(s) == 0 && s.state == End
    else
      && (s.state == BodyChunkSize || s.state == End ==> s.remaining == 0)
      && (s.state == BodyRegular ==> !s.chunked)
      && (s.state == BodyChunkSize || s.state == BodyChunkContent ==> s.chunked)
      && if s.chunked then (Written(s) + s.remaining) % SIZE_MODULUS == s.bodyLen <= s.maxBody
         else DeclaredLength(s) == Some(Written(s) + s.remaining) && Written(s) + s.remaining <= s.maxBody
  }

  predicate Inv(s: Builder) {
    ScanBounded(s) && (s.state != BadRequest ==> HeadersBounded(s) && BodyAccounted(s))
  }

  // ----- every step keeps it

  lemma {:induction false} ScanStaysBounded(buf: Bytes, i: nat)
    requires i <= |buf| && i <= RQ_LINE_LEN_LIMIT
    ensures match ScanLine(buf, i)
            case Exhausted => |buf| <= RQ_LINE_LEN_LIMIT
            case Reject(j) => j <= RQ_LINE_LEN_LIMIT
            case Line(j) => j < RQ_LINE_LEN_LIMIT
    decreases |buf| - i
  {
    if i < |buf| && i + 1 <= RQ_LINE_LEN_LIMIT {
      ScanStaysBounded(buf, i + 1);
    }
  }

  lemma RequestLineKeepsInv(s: Builder)
    requires Inv(s) && s.state == RqLine && s.idx == 0 && |s.extraction| < RQ_LINE_LEN_LIMIT
    ensures Inv(OnRequestLine(s))
  {
    ApplyRequestLineKeeps(s.rq, s.extraction);
    hide ApplyRequestLine;
  }

  lemma ApplyRequestLineKeeps(rq: Request, line: Bytes)
    ensures ApplyRequestLine(rq, line).0.headers == rq.headers
    ensures ApplyRequestLine(rq, line).0.body == rq.body
  {
    hide SplitRequestLine;
    hide RqTarget.Parse;
    hide IsToken;
    hide MethodFromStr;
    hide VersionFromStr;
  }

  lemma HeaderLineKeepsInv(s: Builder)
    requires Inv(s) && s.state == HeaderFields && s.idx == 0
    ensures Inv(OnHeaderLine(s))
  {
    hide SplitHeaderLine;
    var size := s.headerSize + |s.extraction|;
    var f := SplitHeaderLine(s.extraction);
    if size <= RQ_HEADER_SECTION_LIMIT && f.Some? {
      InsertKeepsInv(s.(headerSize := size), f.value);
    }
  }

  lemma InsertKeepsInv(s: Builder, f: HeaderField)
    requires Inv(s.(headerSize := 0)) && s.state == HeaderFields && s.idx == 0
    requires s.headerSize <= RQ_HEADER_SECTION_LIMIT
    ensures Inv(InsertHeader(s, f))
  {
    var h := s.rq.headers;
    var key := LowerCase(f.key);
    assert |h[key := f.value]| <= |h| + 1 by {
      assert h[key := f.value].Keys == h.Keys + {key};
      assert |h.Keys + {key}| <= |h.Keys| + 1;
    }
    hide LowerCase;
  }

  lemma ChunkSizeKeepsInv(s: Builder)
    requires Inv(s) && s.state == BodyChunkSize && s.idx == 0
    ensures Inv(OnChunkSizeLine(s))
  {
    hide HexToUnsigned;
  }

  lemma LineStepKeepsInv(s: Builder)
    requires Inv(s) && s.InLineState()
    ensures Inv(LineStep(s))
  {
    ScanStaysBounded(s.buf, s.idx);
    hide ScanLine;
    hide OnRequestLine;
    hide OnHeaderLine;
    hide OnChunkSizeLine;
    match ScanLine(s.buf, s.idx)
    case Exhausted =>
    case Reject(i) =>
    case Line(i) =>
      var t := TakeLine(s, i);
      assert Inv(t);
      match s.state {
        case RqLine => RequestLineKeepsInv(t);
        case HeaderFields => HeaderLineKeepsInv(t);
        case _ => ChunkSizeKeepsInv(t);
      }
  }

  lemma InterpretHeadersKeeps(s: Builder)
    requires Inv(s) && s.state == AfterHeaders
    ensures var i := InterpretHeaders(s);
            && i.0 == s.(hasBody := i.0.hasBody, chunked := i.0.chunked, remaining := i.0.remaining)
            && (i.1 == HTTP_OK && i.0.hasBody ==>
                  if i.0.chunked then i.0.remaining == 0 else DeclaredLength(i.0) == Some(i.0.remaining))
  {
    hide StrToUnsigned;
  }

  lemma PrepareBodyKeepsInv(env: Env, s: Builder, v: Validation)
    requires ScanBounded(s) && s.state == AfterHeaders && HeadersBounded(s) && s.hasBody && s.bodyLen == 0
    requires if s.chunked then s.remaining == 0 else DeclaredLength(s) == Some(s.remaining)
    ensures Inv(PrepareBody(env, s, v))
  {
    hide StartBody;
    var t := s.(maxBody := v.maxBodySize);
    match v.uploadPath
    case Some(p) =>
      StartBodyKeepsInv(t.(rq := s.rq.(body := s.rq.body.(path := p, storage := OnServer, content := []))));
    case None =>
      var body := s.rq.body.(path := env.tmpPath, storage := InTmpFolder, content := []);
      StartBodyKeepsInv(t.(rq := s.rq.(body := body)));
  }

  lemma StartBodyKeepsInv(s: Builder)
    requires ScanBounded(s) && s.state == AfterHeaders && HeadersBounded(s)
    requires s.hasBody && s.bodyLen == 0 && Written(s) == 0
    requires if s.chunked then s.remaining == 0 else DeclaredLength(s) == Some(s.remaining)
    ensures Inv(StartBody(s))
  {
    hide StrToUnsigned;
  }

  lemma ProcessHeadersKeepsInv(env: Env, s: Builder)
    requires Inv(s) && s.state == AfterHeaders
    ensures Inv(ProcessHeaders(env, s))
  {
    InterpretHeadersKeeps(s);
    hide InterpretHeaders;
    hide HeadersWellFormed;
    hide PrepareBody;
    var i := InterpretHeaders(s);
    if i.1 == HTTP_OK && i.0.hasBody {
      PrepareBodyKeepsInv(env, i.0, env.onHeadersReady(i.0.rq));
    }
  }

  lemma MoveKeepsInv(s: Builder)
    requires Inv(s) && (s.state == BodyRegular || s.state == BodyChunkContent)
    ensures Inv(MoveToBody(s))
  {
    var t := MoveToBody(s);
    assert t.rq.headers == s.rq.headers;
    assert Written(t) + t.remaining == Written(s) + s.remaining;
    hide StrToUnsigned;
  }

  lemma EndRegularKeepsInv(s: Builder)
    requires Inv(s) && s.state == BodyRegular && s.remaining == 0
    ensures Inv(s.(state := End, rq := s.rq.(body := s.rq.body.(transferComplete := true))))
  {
    hide StrToUnsigned;
  }

  lemma BodyStepKeepsInv(env: Env, s: Builder)
    requires Inv(s) && (s.state == BodyRegular || s.state == BodyChunkContent)
    ensures Inv(Step(env, s))
  {
    hide Inv;
    hide MoveToBody;
    hide EndChunk;
    MoveKeepsInv(s);
    if s.state == BodyRegular {
      if MoveToBody(s).remaining == 0 {
        EndRegularKeepsInv(MoveToBody(s));
      }
    } else {
      EndChunkKeepsInv(if s.remaining > 0 then MoveToBody(s) else s);
    }
  }

  lemma EndChunkKeepsInv(s: Builder)
    requires Inv(s) && s.state == BodyChunkContent
    ensures Inv(EndChunk(s))
  {
  }

  lemma StepKeepsInv(env: Env, s: Builder)
    requires Inv(s)
    ensures Inv(Step(env, s))
  {
    hide LineStep;
    hide ProcessHeaders;
    hide Inv;
    match s.state
    case RqLine => LineStepKeepsInv(s);
    case HeaderFields => LineStepKeepsInv(s);
    case BodyChunkSize => LineStepKeepsInv(s);
    case AfterHeaders => ProcessHeadersKeepsInv(env, s);
    case BodyRegular => BodyStepKeepsInv(env, s);
    case BodyChunkContent => BodyStepKeepsInv(env, s);
    case End =>
    case BadRequest =>
  }

  lemma {:induction false} RunKeepsInv(env: Env, s: Builder)
    requires Inv(s)
    ensures Inv(Run(env, s))
    decreases Live(s), |s.buf|, HeadersToProcess(s), Unscanned(s)
  {
    hide Step;
    if Running(s) {
      StepLowersRank(env, s);
      StepKeepsInv(env, s);
      RunKeepsInv(env, Step(env, s));
    }
  }

  // ----- whole runs

  datatype Call = BuildCall(data: Bytes) | ResetCall

  function AfterCall(env: Env, s: Builder, c: Call): (r: Builder)
    requires s.idx <= |s.buf|
    ensures r.idx <= |r.buf|
  {
    if c.ResetCall? then Reset(s) else Feed(env, s, c.data)
  }

  function AfterCalls(env: Env, s: Builder, calls: seq<Call>): (r: Builder)
    requires s.idx <= |s.buf|
    ensures r.idx <= |r.buf|
    decreases |calls|
  {
    if calls == [] then s else AfterCalls(env, AfterCall(env, s, calls[0]), calls[1..])
  }

  lemma CallKeepsInv(env: Env, s: Builder, c: Call)
    requires Inv(s)
    ensures Inv(AfterCall(env, s, c))
  {
    hide Run;
    if c.BuildCall? {
      AppendKeepsInv(s, c.data);
      hide Inv;
      RunKeepsInv(env, Append(s, c.data));
      RefusedKeepsInv(s);
    }
  }

  lemma AppendKeepsInv(s: Builder, data: Bytes)
    requires Inv(s)
    ensures Inv(Append(s, data))
  {
  }

  lemma RefusedKeepsInv(s: Builder)
    requires Inv(s)
    ensures Inv(s.(rq := s.rq.(status := HTTP_BAD_REQUEST)))
  {
  }

  lemma {:induction false} CallsKeepInv(env: Env, s: Builder, calls: seq<Call>)
    requires Inv(s)
    ensures Inv(AfterCalls(env, s, calls))
    decreases |calls|
  {
    if calls != [] {
      CallKeepsInv(env, s, calls[0]);
      CallsKeepInv(env, AfterCall(env, s, calls[0]), calls[1..]);
    }
  }

  /** Reachable bounds. After any calls on a new builder and one more Build:
      while it wants data the buffer is small, and unless the request was
      rejected the header limits hold and the body written so far, with what is
      still due, is accounted for. */
  lemma ReachableBounds(env: Env, calls: seq<Call>, data: Bytes)
    requires data != []
    ensures var t := AfterCalls(env, FRESH, calls + [BuildCall(data)]);
            && (t.InLineState() ==> |t.buf| <= RQ_LINE_LEN_LIMIT)
            && (t.state == BodyRegular ==> t.buf == [])
            && (t.state == BodyChunkContent ==> |t.buf| <= 1)
            && t.state != AfterHeaders
            && (t.state != BadRequest ==>
                  && |t.rq.headers| <= RQ_MAX_HEADER_COUNT
                  && t.headerSize <= RQ_HEADER_SECTION_LIMIT
                  && BodyAccounted(t))
            && (t.state == End ==> t.idx == 0)
  {
    var s := AfterCalls(env, FRESH, calls);
    AfterCallsAppend(env, FRESH, calls, BuildCall(data));
    CallsKeepInv(env, FRESH, calls);
    CallKeepsInv(env, s, BuildCall(data));
    hide Run;
  }

  lemma {:induction false} AfterCallsAppend(env: Env, s: Builder, calls: seq<Call>, last: Call)
    requires s.idx <= |s.buf|
    ensures AfterCalls(env, s, calls + [last]) == AfterCall(env, AfterCalls(env, s, calls), last)
    decreases |calls|
  {
    if calls == [] {
      assert calls + [last] == [last] && [last][1..] == [];
    } else {
      assert (calls + [last])[1..] == calls[1..] + [last];
      AfterCallsAppend(env, AfterCall(env, s, calls[0]), calls[1..], last);
    }
  }

  // ----- the body limit and the width of the size sum

  /** Written body and bytes still due stay within the limit. */
  predicate WithinLimit(s: Builder) {
    s.state != BadRequest && s.hasBody && !BeforeBody(s) ==> Written(s) + s.remaining <= s.maxBody
  }

  /** The next step accepts a chunk size whose sum with the earlier ones does
      not fit the 64-bit counter. */
  predicate SumWraps(s: Builder)
    requires s.idx <= |s.buf|
  {
    s.state == BodyChunkSize &&
    match ScanLine(s.buf, s.idx)
    case Line(i) =>
      var n := HexToUnsigned(s.buf[..i - 1], SIZE_MAX);
      n.Some? && n.value > 0 && s.bodyLen + n.value > SIZE_MAX && (s.bodyLen + n.value) % SIZE_MODULUS <= s.maxBody
    case _ => false
  }

  // max_body_size is a size_t.
  ghost predicate LimitsFitSizeT(env: Env) { forall rq :: env.onHeadersReady(rq).maxBodySize <= SIZE_MAX }

  lemma ChunkSizeWithinLimit(s: Builder)
    requires Inv(s) && s.state == BodyChunkSize && WithinLimit(s) && s.maxBody <= SIZE_MAX
    ensures var n := HexToUnsigned(s.extraction, SIZE_MAX);
            WithinLimit(OnChunkSizeLine(s)) <==>
            !(n.Some? && n.value > 0 && s.bodyLen + n.value > SIZE_MAX
              && (s.bodyLen + n.value) % SIZE_MODULUS <= s.maxBody)
  {
    hide HexToUnsigned;
    assert Written(s) == s.bodyLen;
  }

  lemma LineStepWithinLimit(s: Builder)
    requires Inv(s) && s.InLineState() && WithinLimit(s) && s.maxBody <= SIZE_MAX
    ensures WithinLimit(LineStep(s)) <==> !SumWraps(s)
  {
    hide ScanLine;
    hide OnRequestLine;
    hide OnHeaderLine;
    hide OnChunkSizeLine;
    match ScanLine(s.buf, s.idx)
    case Exhausted =>
    case Reject(i) =>
    case Line(i) =>
      var t := TakeLine(s, i);
      if s.state == BodyChunkSize {
        ChunkSizeWithinLimit(t);
      } else {
        LineStepKeepsInv(s);
        FirstLinesLeaveBodyAlone(t);
      }
  }

  lemma FirstLinesLeaveBodyAlone(s: Builder)
    ensures OnRequestLine(s).hasBody == s.hasBody && OnHeaderLine(s).hasBody == s.hasBody
  {
    hide ApplyRequestLine;
    hide SplitHeaderLine;
  }

  /** One step keeps the body within the limit exactly when it does not accept
      a chunk size that makes the sum wrap. */
  lemma StepWithinLimit(env: Env, s: Builder)
    requires Inv(s) && WithinLimit(s) && s.maxBody <= SIZE_MAX && LimitsFitSizeT(env)
    ensures WithinLimit(Step(env, s)) <==> !SumWraps(s)
    ensures Step(env, s).maxBody <= SIZE_MAX
  {
    StepKeepsInv(env, s);
    hide Inv;
    match s.state
    case RqLine => LineStepWithinLimit(s); LineStepKeepsLimit(s);
    case HeaderFields => LineStepWithinLimit(s); LineStepKeepsLimit(s);
    case BodyChunkSize => LineStepWithinLimit(s); LineStepKeepsLimit(s);
    case AfterHeaders => ProcessHeadersWithinLimit(env, s);
    case BodyRegular =>
    case BodyChunkContent =>
    case End =>
    case BadRequest =>
  }

  lemma LineStepKeepsLimit(s: Builder)
    requires s.InLineState() && s.idx <= |s.buf|
    ensures LineStep(s).maxBody == s.maxBody
  {
    hide ScanLine;
    hide ApplyRequestLine;
    hide SplitHeaderLine;
    hide HexToUnsigned;
  }

  lemma PrepareWithinLimit(env: Env, s: Builder, v: Validation)
    requires Written(s) == 0 && s.state == AfterHeaders && v.maxBodySize <= SIZE_MAX && (s.chunked ==> s.remaining == 0)
    requires s.maxBody <= SIZE_MAX
    ensures WithinLimit(PrepareBody(env, s, v)) && PrepareBody(env, s, v).maxBody <= SIZE_MAX
  {
  }

  lemma ProcessHeadersWithinLimit(env: Env, s: Builder)
    requires Inv(s) && s.state == AfterHeaders && s.maxBody <= SIZE_MAX && LimitsFitSizeT(env)
    ensures WithinLimit(ProcessHeaders(env, s))
    ensures ProcessHeaders(env, s).maxBody <= SIZE_MAX
  {
    ProcessHeadersKeepsInv(env, s);
    InterpretHeadersKeeps(s);
    hide InterpretHeaders;
    hide HeadersWellFormed;
    assert s.bodyLen == 0 && Written(s) == 0;
    hide Inv;
    var i := InterpretHeaders(s);
    if i.1 == HTTP_OK && i.0.hasBody {
      PrepareWithinLimit(env, i.0, env.onHeadersReady(i.0.rq));
    }
    hide PrepareBody;
  }

  /** Every state the loop goes through is within the limit. */
  predicate RunWithinLimit(env: Env, s: Builder)
    requires s.idx <= |s.buf|
    decreases Live(s), |s.buf|, HeadersToProcess(s), Unscanned(s)
  {
    if !Running(s) then WithinLimit(s)
    else
      StepLowersRank(env, s);
      WithinLimit(s) && RunWithinLimit(env, Step(env, s))
  }

  predicate RunWraps(env: Env, s: Builder)
    requires s.idx <= |s.buf|
    decreases Live(s), |s.buf|, HeadersToProcess(s), Unscanned(s)
  {
    if !Running(s) then false
    else
      StepLowersRank(env, s);
      SumWraps(s) || RunWraps(env, Step(env, s))
  }

  /** The body never exceeds the limit during a run exactly when no accepted
      chunk size makes the sum wrap. */
  lemma {:induction false} BodyLimitHolds(env: Env, s: Builder)
    requires Inv(s) && WithinLimit(s) && s.maxBody <= SIZE_MAX && LimitsFitSizeT(env)
    ensures RunWithinLimit(env, s) <==> !RunWraps(env, s)
    decreases Live(s), |s.buf|, HeadersToProcess(s), Unscanned(s)
  {
    hide Step;
    hide SumWraps;
    if Running(s) {
      StepLowersRank(env, s);
      StepWithinLimit(env, s);
      StepKeepsInv(env, s);
      hide Inv;
      hide WithinLimit;
      if WithinLimit(Step(env, s)) {
        BodyLimitHolds(env, Step(env, s));
      } else {
        NotWithinLimit(env, Step(env, s));
      }
    }
  }

  lemma NotWithinLimit(env: Env, s: Builder)
    requires s.idx <= |s.buf| && !WithinLimit(s)
    ensures !RunWithinLimit(env, s)
  {
  }

  /** Without chunks the limit needs no condition. */
  lemma UnchunkedWithinLimit(s: Builder)
    requires Inv(s) && !s.chunked
    ensures WithinLimit(s)
  {
  }

  // ----- the limit over all calls

  // The builder that a call of Build starts its loop with, if it does.
  predicate Refused(s: Builder, c: Call) { c.BuildCall? && s.EndOfBuffer() && c.data == [] }

  predicate Loops(s: Builder, c: Call) { c.BuildCall? && !Refused(s, c) }

  /** The body is within the limit in every state the call goes through. */
  predicate CallWithinLimit(env: Env, s: Builder, c: Call)
    requires s.idx <= |s.buf|
  {
    Loops(s, c) ==> RunWithinLimit(env, Append(s, c.data))
  }

  predicate CallWraps(env: Env, s: Builder, c: Call)
    requires s.idx <= |s.buf|
  {
    Loops(s, c) && RunWraps(env, Append(s, c.data))
  }

  predicate CallsWithinLimit(env: Env, s: Builder, calls: seq<Call>)
    requires s.idx <= |s.buf|
    decreases |calls|
  {
    calls == [] || (CallWithinLimit(env, s, calls[0]) && CallsWithinLimit(env, AfterCall(env, s, calls[0]), calls[1..]))
  }

  predicate CallsWrap(env: Env, s: Builder, calls: seq<Call>)
    requires s.idx <= |s.buf|
    decreases |calls|
  {
    calls != [] && (CallWraps(env, s, calls[0]) || CallsWrap(env, AfterCall(env, s, calls[0]), calls[1..]))
  }

  lemma {:induction false} RunEndsWithinLimit(env: Env, s: Builder)
    requires Inv(s) && WithinLimit(s) && s.maxBody <= SIZE_MAX && LimitsFitSizeT(env)
    ensures Run(env, s).maxBody <= SIZE_MAX
    ensures RunWithinLimit(env, s) ==> WithinLimit(Run(env, s))
    decreases Live(s), |s.buf|, HeadersToProcess(s), Unscanned(s)
  {
    hide Step;
    hide SumWraps;
    if Running(s) {
      StepLowersRank(env, s);
      StepWithinLimit(env, s);
      StepKeepsInv(env, s);
      hide Inv;
      hide WithinLimit;
      if WithinLimit(Step(env, s)) {
        RunEndsWithinLimit(env, Step(env, s));
      } else {
        NotWithinLimit(env, Step(env, s));
        RunKeepsWidth(env, Step(env, s));
      }
    }
  }

  lemma {:induction false} RunKeepsWidth(env: Env, s: Builder)
    requires Inv(s) && s.maxBody <= SIZE_MAX && LimitsFitSizeT(env)
    ensures Run(env, s).maxBody <= SIZE_MAX
    decreases Live(s), |s.buf|, HeadersToProcess(s), Unscanned(s)
  {
    hide Step;
    if Running(s) {
      StepLowersRank(env, s);
      StepKeepsWidth(env, s);
      StepKeepsInv(env, s);
      hide Inv;
      RunKeepsWidth(env, Step(env, s));
    }
  }

  lemma StepKeepsWidth(env: Env, s: Builder)
    requires Inv(s) && s.maxBody <= SIZE_MAX && LimitsFitSizeT(env)
    ensures Step(env, s).maxBody <= SIZE_MAX
  {
    match s.state
    case RqLine => LineStepKeepsLimit(s);
    case HeaderFields => LineStepKeepsLimit(s);
    case BodyChunkSize => LineStepKeepsLimit(s);
    case AfterHeaders => ProcessHeadersWithinLimit(env, s);
    case BodyRegular =>
    case BodyChunkContent =>
    case End =>
    case BadRequest =>
    hide Inv;
    hide LineStep;
    hide ProcessHeaders;
  }

  lemma CallWithinLimitIff(env: Env, s: Builder, c: Call)
    requires Inv(s) && WithinLimit(s) && s.maxBody <= SIZE_MAX && LimitsFitSizeT(env)
    ensures CallWithinLimit(env, s, c) <==> !CallWraps(env, s, c)
    ensures CallWithinLimit(env, s, c) ==> WithinLimit(AfterCall(env, s, c))
    ensures AfterCall(env, s, c).maxBody <= SIZE_MAX
  {
    if Loops(s, c) {
      var t := Append(s, c.data);
      AppendKeepsInv(s, c.data);
      assert WithinLimit(t) && t.maxBody == s.maxBody;
      BodyLimitHolds(env, t);
      RunEndsWithinLimit(env, t);
    }
    hide Inv;
    hide Run;
    hide RunWithinLimit;
    hide RunWraps;
  }

  lemma {:induction false} CallsWithinLimitIff(env: Env, s: Builder, calls: seq<Call>)
    requires Inv(s) && WithinLimit(s) && s.maxBody <= SIZE_MAX && LimitsFitSizeT(env)
    ensures CallsWithinLimit(env, s, calls) <==> !CallsWrap(env, s, calls)
    decreases |calls|
  {
    hide CallWithinLimit;
    hide CallWraps;
    hide AfterCall;
    if calls != [] {
      CallWithinLimitIff(env, s, calls[0]);
      CallKeepsInv(env, s, calls[0]);
      hide Inv;
      hide WithinLimit;
      if CallWithinLimit(env, s, calls[0]) {
        CallsWithinLimitIff(env, AfterCall(env, s, calls[0]), calls[1..]);
      }
    }
  }

  /** Over all calls on a new builder, with any fragments and resets: the body
      stays within the limit throughout exactly when no accepted chunk size
      makes the sum wrap. */
  lemma BodyLimitHoldsAlways(env: Env, calls: seq<Call>)
    requires LimitsFitSizeT(env)
    ensures CallsWithinLimit(env, FRESH, calls) <==> !CallsWrap(env, FRESH, calls)
  {
    CallsWithinLimitIff(env, FRESH, calls);
  }
}
