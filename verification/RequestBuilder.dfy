/** http::RequestBuilder: the builder object, each method tied to its function
    in BuilderSpec. */
module RequestBuilder {
  import opened Octets
  import opened NumericUtils
  import opened HttpMessages
  import opened BuilderSpec
  import RqTarget
  import RequestParser

  datatype ExtractionResult =
    | ExtractionSuccess | ExtractionTooLong | ExtractionCrlfNotFound
    | ExtractionFoundSingleCr | ExtractionNullTerminatorFound

  class RequestBuilder {
    const env: Env
    const parser: RequestParser.RequestParser
    var status: BuilderStatus
    var state: BuildState
    var rq: Request
    var extraction: Bytes
    var chunked: bool
    var bodyLen: nat
    var remaining: nat
    var maxBody: nat
    var headerCount: nat
    var headerSize: nat
    var hasBody: bool

    function Value(): Builder
      reads this, parser
    {
      Builder(state, rq, parser.buf, parser.elementEndIdx, extraction, chunked, bodyLen, remaining, maxBody,
              headerCount, headerSize, hasBody)
    }

    predicate Valid()
      reads this, parser
    {
      parser.elementEndIdx <= |parser.buf|
    }

    constructor (env: Env)
      ensures Valid() && fresh(parser) && this.env == env
      ensures Value() == FRESH && status == Building
    {
      this.env := env;
      parser := new RequestParser.RequestParser();
      status, state, rq, extraction := Building, RqLine, NEW_REQUEST, [];
      chunked, bodyLen, remaining, maxBody := false, 0, 0, 0;
      headerCount, headerSize, hasBody := 0, 0, false;
    }

    method Reset()
      modifies this
      ensures Value() == BuilderSpec.Reset(old(Value())) && status == Building
    {
      rq := NEW_REQUEST;
      status := Building;
      extraction := [];
      state := RqLine;
      chunked, bodyLen, remaining, maxBody := false, 0, 0, 0;
      headerCount, headerSize, hasBody := 0, 0, false;
    }

    /** CanBuild_, with the stalled state taken as waiting for data. */
    method CanContinue() returns (b: bool)
      requires Valid()
      modifies `status
      ensures b == Running(Value())
      ensures !b && !Value().Terminal() ==> status == NeedDataFromClient
    {
      if state == BadRequest || state == End {
        return false;
      }
      if state != AfterHeaders && parser.EndOfBuffer() {
        status := NeedDataFromClient;
        return false;
      }
      if Stalled(Value()) {
        status := NeedDataFromClient;
        return false;
      }
      return true;
    }

    method Build(data: Bytes)
      requires Valid()
      modifies this, parser
      ensures Valid() && Value() == Feed(env, old(Value()), data)
      ensures status == if old(Value()).EndOfBuffer() && data == [] then Done else StatusAfter(Value())
    {
      if parser.EndOfBuffer() && |data| == 0 {
        rq := rq.(status := HTTP_BAD_REQUEST);
        status := Done;
        return;
      }
      parser.AddNewData(data);
      RunToCompletion();
      if state == End || state == BadRequest {
        status := Done;
      }
    }

    method RunToCompletion()
      requires Valid()
      modifies this, parser
      ensures Valid() && Value() == Run(env, old(Value()))
      ensures !Value().Terminal() ==> status == NeedDataFromClient
    {
      var more := CanContinue();
      while more
        invariant Valid() && more == Running(Value())
        invariant Run(env, old(Value())) == Run(env, Value())
        invariant !more && !Value().Terminal() ==> status == NeedDataFromClient
        decreases Live(Value()), |parser.buf|, HeadersToProcess(Value()), Unscanned(Value())
      {
        TakeStep();
        more := CanContinue();
      }
    }

    /** The switch over the build state. */
    method TakeStep()
      requires Valid() && Running(Value())
      modifies this, parser
      ensures Valid() && RankBelow(Value(), old(Value()))
      ensures Run(env, Value()) == Run(env, old(Value()))
    {
      StepLowersRank(env, Value());
      match state
      case RqLine => BuildFirstLine();
      case HeaderFields => BuildHeaderField();
      case AfterHeaders => ProcessHeaders();
      case BodyRegular => BuildBodyRegular();
      case BodyChunkSize => BuildBodyChunkSize();
      case BodyChunkContent => BuildBodyChunkContent();
      case BadRequest =>
      case End =>
    }

    method SetStatusAndExit(code: Status)
      modifies `state, `rq
      ensures Value() == Fail(old(Value()), code)
    {
      rq := rq.(status := code);
      state := BadRequest;
    }

    /** The scan: it stops where ScanLine says, and takes the line if it is one. */
    method TryToExtractLine() returns (r: ExtractionResult)
      requires Valid()
      modifies `extraction, parser
      ensures match ScanLine(old(parser.buf), old(parser.elementEndIdx))
              case Exhausted => r == ExtractionCrlfNotFound && Value() == old(Value()).(idx := |old(parser.buf)|)
              case Line(i) => r == ExtractionSuccess && Value() == TakeLine(old(Value()), i)
              case Reject(i) =>
                r != ExtractionCrlfNotFound && r != ExtractionSuccess && Value() == old(Value()).(idx := i)
    {
      while !parser.EndOfBuffer()
        invariant Valid() && parser.buf == old(parser.buf) && extraction == old(extraction)
        invariant ScanLine(old(parser.buf), old(parser.elementEndIdx)) == ScanLine(parser.buf, parser.elementEndIdx)
        decreases |parser.buf| - parser.elementEndIdx
      {
        if parser.ElementLen() > RQ_LINE_LEN_LIMIT {
          return ExtractionTooLong;
        }
        if parser.EndsWithCRLF() {
          extraction := parser.ExtractLine();
          return ExtractionSuccess;
        }
        if parser.FoundSingleCR() {
          return ExtractionFoundSingleCr;
        }
        if parser.Peek() == '\0' {
          return ExtractionNullTerminatorFound;
        }
        parser.Advance(1);
      }
      return ExtractionCrlfNotFound;
    }

    method BuildFirstLine()
      requires Valid() && state == RqLine
      modifies `state, `rq, `extraction, `headerSize, parser
      ensures Value() == LineStep(old(Value()))
    {
      var r := TryToExtractLine();
      match r {
        case ExtractionSuccess => ApplyFirstLine();
        case ExtractionCrlfNotFound =>
        case _ => SetStatusAndExit(HTTP_BAD_REQUEST);
      }
    }

    method ApplyFirstLine()
      modifies `state, `rq, `headerSize
      ensures Value() == OnRequestLine(old(Value()))
    {
      hide ApplyRequestLine;
      headerSize := headerSize + |extraction|;
      var code := ParseRequestLine();
      if code != HTTP_OK {
        SetStatusAndExit(code);
        return;
      }
      state := HeaderFields;
    }

    /** What is read off the request line and what is set from it. */
    method ParseRequestLine() returns (code: Status)
      modifies `rq
      ensures (rq, code) == ApplyRequestLine(old(rq), extraction)
    {
      var line := SplitRequestLine(extraction);
      if line.None? {
        return HTTP_BAD_REQUEST;
      }
      code := TrySetMethod(line.value.verb);
      if code != HTTP_OK {
        return;
      }
      code := TrySetRqTarget(line.value.target);
      if code != HTTP_OK {
        return;
      }
      code := TrySetVersion(line.value.version);
    }

    method TrySetMethod(raw: Bytes) returns (code: Status)
      modifies `rq
      ensures (rq, code) == SetMethod(old(rq), raw)
    {
      if !IsToken(raw) {
        return HTTP_BAD_REQUEST;
      }
      var converted := MethodFromStr(raw);
      if converted.None? {
        return HTTP_NOT_IMPLEMENTED;
      }
      rq := rq.(verb := converted.value);
      return HTTP_OK;
    }

    method TrySetRqTarget(raw: Bytes) returns (code: Status)
      modifies `rq
      ensures (rq, code) == SetTarget(old(rq), raw)
    {
      var target := new RqTarget.RqTarget(raw);
      rq := rq.(target := target.Value());
      if RqTarget.TooLong in rq.target.validity {
        return HTTP_URI_TOO_LONG;
      }
      if !rq.target.Good() {
        return HTTP_BAD_REQUEST;
      }
      return HTTP_OK;
    }

    method TrySetVersion(raw: Bytes) returns (code: Status)
      modifies `rq
      ensures (rq, code) == SetVersion(old(rq), raw)
    {
      var converted := VersionFromStr(raw);
      if converted.None? {
        return HTTP_BAD_REQUEST;
      }
      rq := rq.(version := converted.value);
      return HTTP_OK;
    }

    method BuildHeaderField()
      requires Valid() && state == HeaderFields
      modifies `state, `rq, `extraction, `headerSize, `headerCount, parser
      ensures Value() == LineStep(old(Value()))
    {
      var r := TryToExtractLine();
      match r {
        case ExtractionSuccess => ApplyHeaderLine();
        case ExtractionCrlfNotFound =>
        case _ => SetStatusAndExit(HTTP_BAD_REQUEST);
      }
    }

    method ApplyHeaderLine()
      requires state == HeaderFields
      modifies `state, `rq, `headerSize, `headerCount
      ensures Value() == OnHeaderLine(old(Value()))
    {
      headerSize := headerSize + |extraction|;
      if headerSize > RQ_HEADER_SECTION_LIMIT {
        SetStatusAndExit(HTTP_REQUEST_HEADER_FIELDS_TOO_LARGE);
        return;
      }
      if extraction == [] {
        state := AfterHeaders;
        return;
      }
      var field := SplitHeaderLine(extraction);
      if field.None? {
        SetStatusAndExit(HTTP_BAD_REQUEST);
        return;
      }
      var code := InsertHeaderField(field.value.key, field.value.value);
      if code != HTTP_OK {
        SetStatusAndExit(code);
      }
    }

    method InsertHeaderField(key: Bytes, value: Bytes) returns (code: Status)
      modifies `headerCount, `rq
      ensures headerCount == old(headerCount) + 1
      ensures code == if headerCount > RQ_MAX_HEADER_COUNT then HTTP_REQUEST_HEADER_FIELDS_TOO_LARGE else HTTP_OK
      ensures rq == if code == HTTP_OK then old(rq).(headers := old(rq).headers[LowerCase(key) := value]) else old(rq)
    {
      headerCount := headerCount + 1;
      if headerCount > RQ_MAX_HEADER_COUNT {
        return HTTP_REQUEST_HEADER_FIELDS_TOO_LARGE;
      }
      rq := rq.(headers := rq.headers[LowerCase(key) := value]);
      return HTTP_OK;
    }

    method InterpretHeaders() returns (code: Status)
      modifies `hasBody, `chunked, `remaining
      ensures (Value(), code) == BuilderSpec.InterpretHeaders(old(Value()))
    {
      if HOST !in rq.headers {
        return HTTP_BAD_REQUEST;
      }
      if CONTENT_LENGTH in rq.headers && TRANSFER_ENCODING in rq.headers {
        return HTTP_BAD_REQUEST;
      }
      if TRANSFER_ENCODING in rq.headers && rq.headers[TRANSFER_ENCODING] == CHUNKED {
        hasBody := true;
        chunked := true;
      }
      if CONTENT_LENGTH in rq.headers {
        var length := StrToUnsigned(rq.headers[CONTENT_LENGTH], SIZE_MAX);
        if length.None? {
          return HTTP_BAD_REQUEST;
        }
        remaining := length.value;
        hasBody := true;
      }
      if rq.verb == Post && !hasBody {
        return HTTP_LENGTH_REQUIRED;
      }
      if rq.verb != Post && hasBody {
        return HTTP_BAD_REQUEST;
      }
      return HTTP_OK;
    }

    method ProcessHeaders()
      requires Valid() && state == AfterHeaders
      modifies `state, `rq, `hasBody, `chunked, `remaining, `maxBody
      ensures Value() == BuilderSpec.ProcessHeaders(env, old(Value()))
    {
      if !HeadersWellFormed(rq.headers) {
        SetStatusAndExit(HTTP_BAD_REQUEST);
        return;
      }
      var code := InterpretHeaders();
      if code != HTTP_OK {
        SetStatusAndExit(code);
        return;
      }
      var validation := env.onHeadersReady(rq);
      if validation.status != HTTP_OK {
        rq := rq.(status := validation.status);
        state := BadRequest;
        return;
      }
      if !hasBody {
        state := End;
        return;
      }
      PrepareBody(validation);
    }

    method PrepareBody(validation: Validation)
      modifies `state, `rq, `maxBody
      ensures Value() == BuilderSpec.PrepareBody(env, old(Value()), validation)
    {
      maxBody := validation.maxBodySize;
      if validation.uploadPath.Some? {
        var path := validation.uploadPath.value;
        if env.doesPathExist(path) {
          SetStatusAndExit(HTTP_CONFLICT);
          return;
        }
        if !env.opensForWriting(path) {
          SetStatusAndExit(HTTP_INTERNAL_SERVER_ERROR);
          return;
        }
        rq := rq.(body := rq.body.(path := path, storage := OnServer, content := []));
      } else {
        rq := rq.(body := rq.body.(path := env.tmpPath, storage := InTmpFolder, content := []));
      }
      if chunked {
        state := BodyChunkSize;
        return;
      }
      if remaining > maxBody {
        SetStatusAndExit(HTTP_PAYLOAD_TOO_LARGE);
        return;
      }
      state := BodyRegular;
    }

    method MoveBody()
      modifies `rq, `remaining, parser
      ensures Value() == MoveToBody(old(Value()))
    {
      var moved := parser.MoveToStream(remaining);
      assert moved == old(parser.buf)[..|moved|];
      rq := rq.(body := rq.body.(content := rq.body.content + moved));
      remaining := remaining - |moved|;
    }

    method BuildBodyRegular()
      requires Valid() && state == BodyRegular
      modifies `state, `rq, `remaining, parser
      ensures Value() == BodyRegularStep(old(Value()))
    {
      MoveBody();
      if remaining > 0 {
        return;
      }
      rq := rq.(body := rq.body.(transferComplete := true));
      state := End;
    }

    method BuildBodyChunkSize()
      requires Valid() && state == BodyChunkSize
      modifies `state, `rq, `extraction, `bodyLen, `remaining, parser
      ensures Value() == LineStep(old(Value()))
    {
      var r := TryToExtractLine();
      match r {
        case ExtractionSuccess => ApplyChunkSize();
        case ExtractionCrlfNotFound =>
        case _ => SetStatusAndExit(HTTP_BAD_REQUEST);
      }
    }

    method ApplyChunkSize()
      modifies `state, `rq, `bodyLen, `remaining
      ensures Value() == OnChunkSizeLine(old(Value()))
    {
      var chunkSize := HexToUnsigned(extraction, SIZE_MAX);
      if chunkSize.None? {
        SetStatusAndExit(HTTP_BAD_REQUEST);
        return;
      }
      if chunkSize.value == 0 {
        rq := rq.(body := rq.body.(transferComplete := true));
        state := End;
        return;
      }
      bodyLen := (bodyLen + chunkSize.value) % SIZE_MODULUS;
      remaining := chunkSize.value;
      if bodyLen > maxBody {
        SetStatusAndExit(HTTP_PAYLOAD_TOO_LARGE);
        return;
      }
      state := BodyChunkContent;
    }

    method BuildBodyChunkContent()
      requires Valid() && state == BodyChunkContent
      modifies `state, `rq, `remaining, parser
      ensures Value() == ChunkContentStep(old(Value()))
    {
      if remaining > 0 {
        MoveBody();
      }
      if remaining <= 0 {
        if parser.RemainingLength() < 2 {
          return;
        }
        if !parser.BeginsWithCRLF() {
          SetStatusAndExit(HTTP_BAD_REQUEST);
          return;
        }
        parser.Ignore(2);
        state := BodyChunkSize;
      }
    }
  }
}
