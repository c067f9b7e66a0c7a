/** http::RequestBuilder as a state machine on values: one function per state,
    and the loop that drives them over the bytes received so far. */
module BuilderSpec {
  import opened Octets
  import opened NumericUtils
  import opened HttpMessages

  const RQ_LINE_LEN_LIMIT: nat := 8192
  const RQ_HEADER_SECTION_LIMIT: nat := 32768
  const RQ_MAX_HEADER_COUNT: nat := 100
  const SIZE_MODULUS: nat := 0x1_0000_0000_0000_0000

  datatype BuildState =
    RqLine | HeaderFields | AfterHeaders | BodyRegular | BodyChunkSize | BodyChunkContent | End | BadRequest

  datatype BuilderStatus = Building | NeedDataFromClient | Done

  // HeadersValidationResult
  datatype Validation = Validation(status: Status, maxBodySize: nat, uploadPath: Option<Bytes>)

  /** What the builder asks of the outside: the headers-ready callback and the
      file system. */
  datatype Env = Env(onHeadersReady: Request -> Validation, doesPathExist: Bytes -> bool,
                     opensForWriting: Bytes -> bool, tmpPath: Bytes)

  /** The builder's fields; `buf` and `idx` are the parser's. */
  datatype Builder = Builder(
    state: BuildState, rq: Request, buf: Bytes, idx: nat, extraction: Bytes,
    chunked: bool, bodyLen: nat, remaining: nat, maxBody: nat,
    headerCount: nat, headerSize: nat, hasBody: bool)
  {
    predicate Terminal() { state == End || state == BadRequest }

    predicate EndOfBuffer() { idx >= |buf| }

    predicate InLineState() { state == RqLine || state == HeaderFields || state == BodyChunkSize }
  }

  const FRESH: Builder := Builder(RqLine, NEW_REQUEST, [], 0, [], false, 0, 0, 0, 0, 0, false)

  function Fail(s: Builder, status: Status): Builder {
    s.(state := BadRequest, rq := s.rq.(status := status))
  }

  // ----- TryToExtractLine_

  datatype Scan = Line(at: nat) | Reject(at: nat) | Exhausted

  /** Where the line scan that stands at `i` stops: on the line feed of a CRLF,
      on the byte it objects to, or at the end of the buffer. */
  function ScanLine(buf: Bytes, i: nat): (r: Scan)
    requires i <= |buf|
    ensures r.Line? ==> i <= r.at < |buf| && 1 <= r.at < RQ_LINE_LEN_LIMIT
    ensures r.Line? ==> buf[r.at - 1] == '\r' && buf[r.at] == '\n'
    ensures r.Reject? ==> i <= r.at < |buf|
    decreases |buf| - i
  {
    if i == |buf| then Exhausted
    else if i + 1 > RQ_LINE_LEN_LIMIT then Reject(i)
    else if i >= 1 && buf[i - 1] == '\r' && buf[i] == '\n' then Line(i)
    else if i >= 1 && buf[i - 1] == '\r' then Reject(i)
    else if buf[i] == '\0' then Reject(i)
    else ScanLine(buf, i + 1)
  }

  function TakeLine(s: Builder, at: nat): Builder
    requires 1 <= at < |s.buf|
  {
    s.(extraction := s.buf[..at - 1], buf := s.buf[at + 1..], idx := 0)
  }

  // ----- one function per state

  function OnRequestLine(s: Builder): (r: Builder)
    ensures r.buf == s.buf && r.idx == s.idx
  {
    var r := ApplyRequestLine(s.rq, s.extraction);
    var s' := s.(rq := r.0, headerSize := s.headerSize + |s.extraction|);
    if r.1 == HTTP_OK then s'.(state := HeaderFields) else Fail(s', r.1)
  }

  function OnHeaderLine(s: Builder): (r: Builder)
    ensures r.buf == s.buf && r.idx == s.idx
  {
    var s' := s.(headerSize := s.headerSize + |s.extraction|);
    if s'.headerSize > RQ_HEADER_SECTION_LIMIT then Fail(s', HTTP_REQUEST_HEADER_FIELDS_TOO_LARGE)
    else if s.extraction == [] then s'.(state := AfterHeaders)
    else match SplitHeaderLine(s.extraction)
      case None => Fail(s', HTTP_BAD_REQUEST)
      case Some(f) => InsertHeader(s', f)
  }

  function InsertHeader(s: Builder, f: HeaderField): (r: Builder)
    ensures r.buf == s.buf && r.idx == s.idx
  {
    var s' := s.(headerCount := s.headerCount + 1);
    if s'.headerCount > RQ_MAX_HEADER_COUNT then Fail(s', HTTP_REQUEST_HEADER_FIELDS_TOO_LARGE)
    else s'.(rq := s.rq.(headers := s.rq.headers[LowerCase(f.key) := f.value]), state := HeaderFields)
  }

  function OnChunkSizeLine(s: Builder): (r: Builder)
    ensures r.buf == s.buf && r.idx == s.idx
  {
    match HexToUnsigned(s.extraction, SIZE_MAX)
    case None => Fail(s, HTTP_BAD_REQUEST)
    case Some(n) =>
      if n == 0 then s.(state := End, rq := s.rq.(body := s.rq.body.(transferComplete := true)))
      else
        // a size_t sum
        var s' := s.(bodyLen := (s.bodyLen + n) % SIZE_MODULUS, remaining := n);
        if s'.bodyLen > s'.maxBody then Fail(s', HTTP_PAYLOAD_TOO_LARGE) else s'.(state := BodyChunkContent)
  }

  function OnLine(s: Builder): (r: Builder)
    requires s.InLineState()
    ensures r.buf == s.buf && r.idx == s.idx
  {
    if s.state == RqLine then OnRequestLine(s)
    else if s.state == HeaderFields then OnHeaderLine(s) else OnChunkSizeLine(s)
  }

  function LineStep(s: Builder): Builder
    requires s.InLineState() && s.idx <= |s.buf|
  {
    match ScanLine(s.buf, s.idx)
    case Exhausted => s.(idx := |s.buf|)
    case Reject(i) => Fail(s.(idx := i), HTTP_BAD_REQUEST)
    case Line(i) => OnLine(TakeLine(s, i))
  }

  const HOST: Bytes := ['h', 'o', 's', 't']
  const CONTENT_LENGTH: Bytes := ['c', 'o', 'n', 't', 'e', 'n', 't', '-', 'l', 'e', 'n', 'g', 't', 'h']
  const TRANSFER_ENCODING: Bytes :=
    ['t', 'r', 'a', 'n', 's', 'f', 'e', 'r', '-', 'e', 'n', 'c', 'o', 'd', 'i', 'n', 'g']
  const CHUNKED: Bytes := ['c', 'h', 'u', 'n', 'k', 'e', 'd']

  /** InterpretHeaders_: how the body is delimited, and 200 or an error. */
  function InterpretHeaders(s: Builder): (r: (Builder, Status))
    ensures r.0.buf == s.buf && r.0.idx == s.idx && r.0.rq == s.rq
  {
    var h := s.rq.headers;
    if HOST !in h then (s, HTTP_BAD_REQUEST)
    else if CONTENT_LENGTH in h && TRANSFER_ENCODING in h then (s, HTTP_BAD_REQUEST)
    else
      var s1 := if TRANSFER_ENCODING in h && h[TRANSFER_ENCODING] == CHUNKED
                then s.(hasBody := true, chunked := true) else s;
      var length := if CONTENT_LENGTH in h then StrToUnsigned(h[CONTENT_LENGTH], SIZE_MAX) else None;
      if CONTENT_LENGTH in h && length.None? then (s1, HTTP_BAD_REQUEST)
      else
        var s2 := if CONTENT_LENGTH in h then s1.(remaining := length.value, hasBody := true) else s1;
        if s2.rq.verb == Post && !s2.hasBody then (s2, HTTP_LENGTH_REQUIRED)
        else if s2.rq.verb != Post && s2.hasBody then (s2, HTTP_BAD_REQUEST)
        else (s2, HTTP_OK)
  }

  function ProcessHeaders(env: Env, s: Builder): (r: Builder)
    ensures r.buf == s.buf && r.idx == s.idx
    ensures r.state != AfterHeaders
  {
    if !HeadersWellFormed(s.rq.headers) then Fail(s, HTTP_BAD_REQUEST)
    else
      var i := InterpretHeaders(s);
      if i.1 != HTTP_OK then Fail(i.0, i.1)
      else
        var v := env.onHeadersReady(i.0.rq);
        if v.status != HTTP_OK then Fail(i.0, v.status)
        else if !i.0.hasBody then i.0.(state := End)
        else PrepareBody(env, i.0, v)
  }

  function PrepareBody(env: Env, s: Builder, v: Validation): (r: Builder)
    ensures r.buf == s.buf && r.idx == s.idx
    ensures r.state != AfterHeaders
  {
    var s' := s.(maxBody := v.maxBodySize);
    match v.uploadPath
    case Some(p) =>
      if env.doesPathExist(p) then Fail(s', HTTP_CONFLICT)
      else if !env.opensForWriting(p) then Fail(s', HTTP_INTERNAL_SERVER_ERROR)
      else StartBody(s'.(rq := s.rq.(body := s.rq.body.(path := p, storage := OnServer, content := []))))
    case None =>
      StartBody(s'.(rq := s.rq.(body := s.rq.body.(path := env.tmpPath, storage := InTmpFolder, content := []))))
  }

  function StartBody(s: Builder): (r: Builder)
    ensures r.buf == s.buf && r.idx == s.idx
    ensures r.state != AfterHeaders
  {
    if s.chunked then s.(state := BodyChunkSize)
    else if s.remaining > s.maxBody then Fail(s, HTTP_PAYLOAD_TOO_LARGE)
    else s.(state := BodyRegular)
  }

  /** MoveToStream: the first `remaining` buffered bytes go to the body file. */
  function MoveToBody(s: Builder): (t: Builder)
    ensures t.idx == 0 && t.state == s.state && |t.buf| + s.remaining == |s.buf| + t.remaining
    ensures if s.remaining > |s.buf| then t.buf == [] else t.remaining == 0 && t.buf == s.buf[s.remaining..]
  {
    var n := Min(s.remaining, |s.buf|);
    s.(rq := s.rq.(body := s.rq.body.(content := s.rq.body.content + s.buf[..n])),
       buf := s.buf[n..], idx := 0, remaining := s.remaining - n)
  }

  function BodyRegularStep(s: Builder): Builder {
    var s' := MoveToBody(s);
    if s'.remaining > 0 then s'
    else s'.(state := End, rq := s'.rq.(body := s'.rq.body.(transferComplete := true)))
  }

  function ChunkContentStep(s: Builder): Builder {
    EndChunk(if s.remaining > 0 then MoveToBody(s) else s)
  }

  /** A chunk whose data is complete ends with a CRLF, taken as a whole. */
  function EndChunk(s: Builder): Builder {
    if s.remaining > 0 || |s.buf| - s.idx < 2 then s
    else if !(s.buf[0] == '\r' && s.buf[1] == '\n') then Fail(s, HTTP_BAD_REQUEST)
    else s.(buf := s.buf[2..], idx := 0, state := BodyChunkSize)
  }

  function Step(env: Env, s: Builder): Builder
    requires s.idx <= |s.buf|
  {
    match s.state
    case RqLine => LineStep(s)
    case HeaderFields => LineStep(s)
    case AfterHeaders => ProcessHeaders(env, s)
    case BodyRegular => BodyRegularStep(s)
    case BodyChunkSize => LineStep(s)
    case BodyChunkContent => ChunkContentStep(s)
    case BadRequest => s
    case End => s
  }

  // ----- the loop

  // CanBuild_
  predicate CanBuild(s: Builder) {
    !s.Terminal() && (s.state == AfterHeaders || !s.EndOfBuffer())
  }

  /** The chunk is complete and one byte of its line end is buffered. The step
      function leaves this state as it is while CanBuild_ holds on it; the
      model takes it as waiting for data. */
  predicate Stalled(s: Builder) {
    s.state == BodyChunkContent && s.remaining == 0 && |s.buf| - s.idx == 1
  }

  predicate Running(s: Builder) { CanBuild(s) && !Stalled(s) }

  // Rank of the loop: live, bytes buffered, headers to process, bytes to scan.
  function Live(s: Builder): nat { if s.Terminal() then 0 else 1 }

  function HeadersToProcess(s: Builder): nat { if s.state == AfterHeaders then 1 else 0 }

  function Unscanned(s: Builder): nat { if s.idx <= |s.buf| then |s.buf| - s.idx else 0 }

  predicate RankBelow(t: Builder, s: Builder) {
    Live(t) < Live(s) || (Live(t) == Live(s) &&
      (|t.buf| < |s.buf| || (|t.buf| == |s.buf| &&
        (HeadersToProcess(t) < HeadersToProcess(s) || (HeadersToProcess(t) == HeadersToProcess(s) &&
          Unscanned(t) < Unscanned(s))))))
  }

  lemma LineStepLowersRank(s: Builder)
    requires s.InLineState() && s.idx < |s.buf|
    ensures LineStep(s).idx <= |LineStep(s).buf| && RankBelow(LineStep(s), s)
  {
  }

  lemma ProcessHeadersLowersRank(env: Env, s: Builder)
    requires s.idx <= |s.buf| && s.state == AfterHeaders
    ensures var t := ProcessHeaders(env, s); t.idx <= |t.buf| && RankBelow(t, s)
  {
    hide ProcessHeaders;
  }

  lemma BodyRegularLowersRank(s: Builder)
    requires s.idx < |s.buf| && s.state == BodyRegular
    ensures var t := BodyRegularStep(s); t.idx <= |t.buf| && RankBelow(t, s)
  {
    hide MoveToBody;
  }

  lemma ChunkContentLowersRank(s: Builder)
    requires s.idx < |s.buf| && s.state == BodyChunkContent && !Stalled(s)
    ensures var t := ChunkContentStep(s); t.idx <= |t.buf| && RankBelow(t, s)
  {
    hide MoveToBody;
    var m := if s.remaining > 0 then MoveToBody(s) else s;
    assert m.idx <= |m.buf| <= |s.buf| && (s.remaining > 0 ==> |m.buf| < |s.buf|);
  }

  /** Every step of a running builder lowers the rank. */
  lemma StepLowersRank(env: Env, s: Builder)
    requires s.idx <= |s.buf| && Running(s)
    ensures Step(env, s).idx <= |Step(env, s).buf|
    ensures RankBelow(Step(env, s), s)
  {
    hide LineStep;
    hide BodyRegularStep;
    hide ChunkContentStep;
    hide RankBelow;
    match s.state
    case RqLine => LineStepLowersRank(s);
    case HeaderFields => LineStepLowersRank(s);
    case BodyChunkSize => LineStepLowersRank(s);
    case AfterHeaders => ProcessHeadersLowersRank(env, s);
    case BodyRegular => BodyRegularLowersRank(s);
    case BodyChunkContent => ChunkContentLowersRank(s);
    case End =>
    case BadRequest =>
  }

  function Run(env: Env, s: Builder): (r: Builder)
    requires s.idx <= |s.buf|
    ensures r.idx <= |r.buf| && !Running(r)
    decreases Live(s), |s.buf|, HeadersToProcess(s), Unscanned(s)
  {
    if Running(s) then
      StepLowersRank(env, s);
      Run(env, Step(env, s))
    else s
  }

  function Append(s: Builder, data: Bytes): Builder { s.(buf := s.buf + data) }

  /** Build(data): the builder after one fragment. */
  function Feed(env: Env, s: Builder, data: Bytes): (r: Builder)
    requires s.idx <= |s.buf|
    ensures r.idx <= |r.buf|
  {
    if s.EndOfBuffer() && data == [] then s.(rq := s.rq.(status := HTTP_BAD_REQUEST))
    else Run(env, Append(s, data))
  }

  function StatusAfter(s: Builder): BuilderStatus {
    if s.Terminal() then Done else NeedDataFromClient
  }

  function Reset(s: Builder): Builder { FRESH.(buf := s.buf, idx := s.idx) }

  /** The stalled states are exactly the non-terminal states on which the loop
      guard holds and a step changes nothing. */
  lemma OnlyFixpoint(env: Env, s: Builder)
    requires s.idx <= |s.buf|
    ensures CanBuild(s) && Step(env, s) == s <==> Stalled(s)
  {
    if Running(s) {
      StepLowersRank(env, s);
    }
  }
}
