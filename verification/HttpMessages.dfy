/** Requests as values, and the per-line parsing of the request line and of
    header fields (sections 3 and 5 of RFC 9112). */
module HttpMessages {
  import opened Octets
  import opened NumericUtils
  import RqTarget

  datatype Method = NoMethod | Get | Post | Delete

  datatype Version = NoVersion | Http10 | Http11

  type Status = nat

  const HTTP_OK: Status := 200
  const HTTP_BAD_REQUEST: Status := 400
  const HTTP_CONFLICT: Status := 409
  const HTTP_LENGTH_REQUIRED: Status := 411
  const HTTP_PAYLOAD_TOO_LARGE: Status := 413
  const HTTP_URI_TOO_LONG: Status := 414
  const HTTP_REQUEST_HEADER_FIELDS_TOO_LARGE: Status := 431
  const HTTP_INTERNAL_SERVER_ERROR: Status := 500
  const HTTP_NOT_IMPLEMENTED: Status := 501

  datatype Storage = InTmpFolder | OnServer

  // `content` is what the file at `path` holds.
  datatype BodyStorage = BodyStorage(path: Bytes, storage: Storage, content: Bytes, transferComplete: bool)

  datatype Request = Request(status: Status, verb: Method, target: RqTarget.Target, version: Version,
                             headers: map<Bytes, Bytes>, body: BodyStorage)

  const NO_BODY: BodyStorage := BodyStorage([], InTmpFolder, [], false)
  const NEW_REQUEST: Request := Request(HTTP_OK, NoMethod, RqTarget.EMPTY, NoVersion, map[], NO_BODY)

  // ----- SyntaxChecker

  predicate IsTokenChar(c: char) {
    IsAlnum(c)
    || c in ['!', '#', '$', '%', '&', '\'', '*', '+', '-', '.', '^', '_', '`', '|', '~']
  }

  predicate IsToken(s: Bytes) {
    s != [] && forall i :: 0 <= i < |s| ==> IsTokenChar(s[i])
  }

  predicate IsFieldVChar(c: char) { 0x21 <= c as int <= 0x7E || 0x80 <= c as int <= 0xFF }

  predicate IsBlank(c: char) { c == ' ' || c == '\t' }

  predicate IsFieldValue(s: Bytes) {
    (s != [] ==> IsFieldVChar(s[0]))
    && forall i :: 0 <= i < |s| ==> IsBlank(s[i]) || IsFieldVChar(s[i])
  }

  const GET: Bytes := ['G', 'E', 'T']
  const POST: Bytes := ['P', 'O', 'S', 'T']
  const DELETE: Bytes := ['D', 'E', 'L', 'E', 'T', 'E']
  const VERSION_10: Bytes := ['H', 'T', 'T', 'P', '/', '1', '.', '0']
  const VERSION_11: Bytes := ['H', 'T', 'T', 'P', '/', '1', '.', '1']

  function MethodFromStr(s: Bytes): Option<Method> {
    if s == GET then Some(Get) else if s == POST then Some(Post)
    else if s == DELETE then Some(Delete) else None
  }

  // IsValidVersionName admits these two spellings only.
  function VersionFromStr(s: Bytes): Option<Version> {
    if s == VERSION_10 then Some(Http10) else if s == VERSION_11 then Some(Http11) else None
  }

  // ----- one line at a time

  datatype RequestLine = RequestLine(verb: Bytes, target: Bytes, version: Bytes)

  /** The three fields of a request line: the first two end at a space, and
      the third must be non-empty and run to the end without a line feed. */
  function SplitRequestLine(line: Bytes): Option<RequestLine> {
    var sp1 := FindAny(line, [' '], 0);
    if sp1 == |line| then None
    else
      var sp2 := FindAny(line, [' '], sp1 + 1);
      if sp2 == |line| then None
      else
        var version := line[sp2 + 1..];
        if version == [] || '\n' in version then None
        else Some(RequestLine(line[..sp1], line[sp1 + 1..sp2], version))
  }

  function SetMethod(rq: Request, raw: Bytes): (Request, Status) {
    if !IsToken(raw) then (rq, HTTP_BAD_REQUEST)
    else match MethodFromStr(raw)
      case None => (rq, HTTP_NOT_IMPLEMENTED)
      case Some(m) => (rq.(verb := m), HTTP_OK)
  }

  function SetTarget(rq: Request, raw: Bytes): (Request, Status) {
    var t := RqTarget.Parse(raw);
    (rq.(target := t),
     if RqTarget.TooLong in t.validity then HTTP_URI_TOO_LONG
     else if !t.Good() then HTTP_BAD_REQUEST else HTTP_OK)
  }

  function SetVersion(rq: Request, raw: Bytes): (Request, Status) {
    match VersionFromStr(raw)
    case None => (rq, HTTP_BAD_REQUEST)
    case Some(v) => (rq.(version := v), HTTP_OK)
  }

  /** The request after its first line, and 200 or the status it failed with. */
  function ApplyRequestLine(rq: Request, line: Bytes): (Request, Status) {
    match SplitRequestLine(line)
    case None => (rq, HTTP_BAD_REQUEST)
    case Some(l) =>
      var m := SetMethod(rq, l.verb);
      if m.1 != HTTP_OK then m
      else
        var t := SetTarget(m.0, l.target);
        if t.1 != HTTP_OK then t else SetVersion(t.0, l.version)
  }

  function SkipBlanks(s: Bytes, from: nat): (i: nat)
    requires from <= |s|
    ensures from <= i <= |s|
    ensures i < |s| ==> !IsBlank(s[i])
    ensures forall k :: from <= k < i ==> IsBlank(s[k])
    decreases |s| - from
  {
    if from < |s| && IsBlank(s[from]) then SkipBlanks(s, from + 1) else from
  }

  datatype HeaderField = HeaderField(key: Bytes, value: Bytes)

  /** Name and value of a non-empty header line: the name ends at the first
      colon, blanks are skipped, and a non-empty value without a carriage
      return must follow. */
  function SplitHeaderLine(line: Bytes): Option<HeaderField> {
    var colon := FindAny(line, [':'], 0);
    if colon == |line| then None
    else
      var v := SkipBlanks(line, colon + 1);
      if v == |line| || '\r' in line[v..] then None
      else Some(HeaderField(line[..colon], line[v..]))
  }

  predicate HeadersWellFormed(headers: map<Bytes, Bytes>) {
    forall k :: k in headers ==> IsToken(k) && IsFieldValue(headers[k])
  }
}
