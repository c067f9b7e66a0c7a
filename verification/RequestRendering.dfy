/** Requests written out in the usual form (sections 3, 5 and 6 of RFC 9112)
    and what the builder makes of them. */
module RequestRendering {
  import opened Octets
  import opened NumericUtils
  import opened HttpMessages
  import RqTarget
  import opened BuilderSpec
  import opened BuilderFragments
  import opened ChunkedCoding

  datatype Message = Message(verb: Bytes, target: Bytes, version: Bytes, fields: seq<HeaderField>)

  const SP: Bytes := [' ']
  const COLON: Bytes := [':']

  function FirstLine(m: Message): Bytes { m.verb + SP + m.target + SP + m.version }

  function FieldLine(f: HeaderField): Bytes { f.key + COLON + SP + f.value }

  function RenderFields(fields: seq<HeaderField>): Bytes {
    if fields == [] then [] else FieldLine(fields[0]) + CRLF + RenderFields(fields[1..])
  }

  function RenderHead(m: Message): Bytes { FirstLine(m) + CRLF + RenderFields(m.fields) + CRLF }

  function FieldsSize(fields: seq<HeaderField>): nat {
    if fields == [] then 0 else |FieldLine(fields[0])| + FieldsSize(fields[1..])
  }

  predicate FieldOk(f: HeaderField) {
    IsToken(f.key) && f.value != [] && IsFieldValue(f.value) && Scannable(FieldLine(f))
  }

  predicate HeadOk(m: Message) {
    && MethodFromStr(m.verb).Some? && VersionFromStr(m.version).Some?
    && RqTarget.Parse(m.target).Good() && ' ' !in m.target && Scannable(FirstLine(m))
    && (forall i :: 0 <= i < |m.fields| ==> FieldOk(m.fields[i]))
    && |m.fields| <= RQ_MAX_HEADER_COUNT
    && |FirstLine(m)| + FieldsSize(m.fields) <= RQ_HEADER_SECTION_LIMIT
  }

  // Later fields replace earlier ones of the same name, whatever its case.
  function Fold(headers: map<Bytes, Bytes>, fields: seq<HeaderField>): map<Bytes, Bytes>
    decreases |fields|
  {
    if fields == [] then headers else Fold(headers[LowerCase(fields[0].key) := fields[0].value], fields[1..])
  }

  function RequestOf(m: Message): Request
    requires HeadOk(m)
  {
    NEW_REQUEST.(verb := MethodFromStr(m.verb).value, target := RqTarget.Parse(m.target),
                 version := VersionFromStr(m.version).value, headers := Fold(map[], m.fields))
  }

  // ----- the request line

  lemma MethodNameIsToken(raw: Bytes)
    requires MethodFromStr(raw).Some?
    ensures IsToken(raw)
  {
    assert |raw| <= 6;
  }

  lemma VersionNameHasNoLineFeed(raw: Bytes)
    requires VersionFromStr(raw).Some?
    ensures raw != [] && '\n' !in raw
  {
    assert |raw| == 8;
  }

  lemma FindAfter(before: Bytes, word: Bytes, delimiter: Bytes, after: Bytes)
    requires |delimiter| == 1 && delimiter[0] !in word
    ensures FindAny(before + word + delimiter + after, delimiter, |before|) == |before| + |word|
  {
    var s := before + word + delimiter + after;
    var at := |before| + |word|;
    assert s[at] == delimiter[0];
    forall k | |before| <= k < at ensures s[k] !in delimiter {
      assert s[k] == word[k - |before|];
    }
    FindAnyAt(s, delimiter, |before|, at);
  }

  lemma SlicesOfThree(a: Bytes, b: Bytes, c: Bytes, line: Bytes)
    requires line == a + SP + b + SP + c
    ensures line[..|a|] == a && line[|a| + 1..|a| + 1 + |b|] == b && line[|a| + 1 + |b| + 1..] == c
  {
  }

  lemma SplitAtSpaces(a: Bytes, b: Bytes, c: Bytes)
    requires ' ' !in a && ' ' !in b
    ensures var line := a + SP + b + SP + c;
            && FindAny(line, SP, 0) == |a| && FindAny(line, SP, |a| + 1) == |a| + 1 + |b|
            && line[..|a|] == a && line[|a| + 1..|a| + 1 + |b|] == b && line[|a| + 1 + |b| + 1..] == c
  {
    hide FindAny;
    SlicesOfThree(a, b, c, a + SP + b + SP + c);
    FindAfter([], a, SP, b + SP + c);
    assert [] + a == a;
    Assoc(a + SP, b, SP);
    Assoc(a + SP, b + SP, c);
    FindAfter(a + SP, b, SP, c);
  }

  lemma SplitsFirstLine(m: Message)
    requires MethodFromStr(m.verb).Some? && VersionFromStr(m.version).Some? && ' ' !in m.target
    ensures SplitRequestLine(FirstLine(m)) == Some(RequestLine(m.verb, m.target, m.version))
  {
    MethodNameIsToken(m.verb);
    VersionNameHasNoLineFeed(m.version);
    assert ' ' !in m.verb;
    hide MethodFromStr;
    hide VersionFromStr;
    SplitAtSpaces(m.verb, m.target, m.version);
  }

  lemma FirstLineApplies(rq: Request, m: Message)
    requires HeadOk(m)
    ensures ApplyRequestLine(rq, FirstLine(m))
            == (rq.(verb := MethodFromStr(m.verb).value, target := RqTarget.Parse(m.target),
                    version := VersionFromStr(m.version).value), HTTP_OK)
  {
    SplitsFirstLine(m);
    MethodNameIsToken(m.verb);
    hide SplitRequestLine;
    hide FirstLine;
    hide MethodFromStr;
    hide VersionFromStr;
    hide RqTarget.Parse;
    hide IsToken;
    hide FieldOk;
    hide FieldsSize;
    hide Scannable;
  }

  // ----- header fields

  lemma SlicesOfField(key: Bytes, value: Bytes, line: Bytes)
    requires line == key + COLON + SP + value
    ensures line[..|key|] == key && line[|key| + 2..] == value
    ensures value != [] ==> line[|key| + 1] == ' ' && line[|key| + 2] == value[0]
  {
  }

  lemma OneBlank(line: Bytes, from: nat)
    requires from + 1 < |line| && line[from] == ' ' && !IsBlank(line[from + 1])
    ensures SkipBlanks(line, from) == from + 1
  {
  }

  lemma ColonFound(key: Bytes, value: Bytes)
    requires ':' !in key
    ensures FindAny(key + COLON + SP + value, COLON, 0) == |key|
  {
    FindAfter([], key, COLON, SP + value);
    assert key + COLON + SP + value == [] + key + COLON + (SP + value);
    hide FindAny;
  }

  // A line in which colon, blank and value were found.
  lemma FieldFound(line: Bytes, f: HeaderField, n: nat)
    requires FindAny(line, COLON, 0) == n && n + 2 < |line| && SkipBlanks(line, n + 1) == n + 2
    requires line[..n] == f.key && line[n + 2..] == f.value && '\r' !in f.value
    ensures SplitHeaderLine(line) == Some(f)
  {
    hide FindAny;
    hide SkipBlanks;
  }

  lemma SplitsFieldLine(f: HeaderField)
    requires FieldOk(f)
    ensures SplitHeaderLine(FieldLine(f)) == Some(f)
  {
    var line := FieldLine(f);
    assert line == f.key + COLON + SP + f.value;
    assert ':' !in f.key && '\r' !in f.value && !IsBlank(f.value[0]);
    hide *;
    SlicesOfField(f.key, f.value, line);
    OneBlank(line, |f.key| + 1);
    ColonFound(f.key, f.value);
    FieldFound(line, f, |f.key|);
  }

  lemma LineSteps(env: Env, s: Builder, line: Bytes, rest: Bytes)
    requires s.InLineState() && s.idx == 0 && Scannable(line) && s.buf == line + CRLF + rest
    ensures Running(s) && Step(env, s) == OnLine(s.(extraction := line, buf := rest))
  {
    ScanFindsLine(line, rest, 0);
    assert s.buf[..|line|] == line && s.buf[|line| + 2..] == rest;
    hide OnLine;
  }

  function WithField(s: Builder, f: HeaderField, rest: Bytes): Builder {
    s.(extraction := FieldLine(f), buf := rest, headerCount := s.headerCount + 1,
       headerSize := s.headerSize + |FieldLine(f)|,
       rq := s.rq.(headers := s.rq.headers[LowerCase(f.key) := f.value]))
  }

  predicate AtHeaders(s: Builder) { s.state == HeaderFields && s.idx == 0 }

  lemma FieldSteps(env: Env, s: Builder, f: HeaderField, rest: Bytes)
    requires AtHeaders(s) && FieldOk(f) && s.buf == FieldLine(f) + CRLF + rest
    requires s.headerCount < RQ_MAX_HEADER_COUNT && s.headerSize + |FieldLine(f)| <= RQ_HEADER_SECTION_LIMIT
    ensures Run(env, s) == Run(env, WithField(s, f, rest))
  {
    LineSteps(env, s, FieldLine(f), rest);
    SplitsFieldLine(f);
    hide Step;
    hide SplitHeaderLine;
    hide FieldOk;
    assert FieldLine(f) != [];
    hide FieldLine;
    hide LowerCase;
    var l := s.(extraction := FieldLine(f), buf := rest);
    assert OnHeaderLine(l) == WithField(s, f, rest);
  }

  // The builder behind the empty line.
  function WithFields(s: Builder, fields: seq<HeaderField>, rest: Bytes): Builder {
    s.(extraction := [], buf := rest, headerCount := s.headerCount + |fields|,
       headerSize := s.headerSize + FieldsSize(fields), state := AfterHeaders,
       rq := s.rq.(headers := Fold(s.rq.headers, fields)))
  }

  lemma EmptyHeaderLine(s: Builder)
    requires s.state == HeaderFields && s.extraction == [] && s.headerSize <= RQ_HEADER_SECTION_LIMIT
    ensures OnLine(s) == s.(state := AfterHeaders)
  {
  }

  lemma OneStep(env: Env, s: Builder, t: Builder)
    requires s.idx <= |s.buf| && Running(s) && Step(env, s) == t && t.idx <= |t.buf|
    ensures Run(env, s) == Run(env, t)
  {
    hide Step;
  }

  lemma EmptyLineSteps(env: Env, s: Builder, rest: Bytes)
    requires AtHeaders(s) && s.buf == CRLF + rest && s.headerSize <= RQ_HEADER_SECTION_LIMIT
    ensures Run(env, s) == Run(env, s.(extraction := [], buf := rest, state := AfterHeaders))
  {
    assert s.buf == [] + CRLF + rest && s.InLineState();
    assert Scannable([]);
    hide *;
    var l := s.(extraction := [], buf := rest);
    LineSteps(env, s, [], rest);
    EmptyHeaderLine(l);
    OneStep(env, s, l.(state := AfterHeaders));
  }

  lemma {:induction false} FieldsRun(env: Env, s: Builder, fields: seq<HeaderField>, rest: Bytes)
    requires AtHeaders(s) && s.buf == RenderFields(fields) + CRLF + rest
    requires forall i :: 0 <= i < |fields| ==> FieldOk(fields[i])
    requires s.headerCount + |fields| <= RQ_MAX_HEADER_COUNT
    requires s.headerSize + FieldsSize(fields) <= RQ_HEADER_SECTION_LIMIT
    ensures Run(env, s) == Run(env, WithFields(s, fields, rest))
    decreases |fields|
  {
    hide Run;
    hide FieldOk;
    if fields == [] {
      assert s.buf == CRLF + rest;
      EmptyLineSteps(env, s, rest);
    } else {
      var f, more := fields[0], fields[1..];
      var tail := RenderFields(more) + CRLF + rest;
      assert s.buf == FieldLine(f) + CRLF + tail;
      FieldSteps(env, s, f, tail);
      FieldsRun(env, WithField(s, f, tail), more, rest);
    }
  }

  // The builder behind the request line.
  function FirstLineParsed(m: Message, rest: Bytes): Builder
    requires HeadOk(m)
  {
    FRESH.(state := HeaderFields, rq := RequestOf(m).(headers := map[]), buf := rest,
           extraction := FirstLine(m), headerSize := |FirstLine(m)|)
  }

  lemma FirstLineSteps(env: Env, m: Message, s: Builder, rest: Bytes)
    requires HeadOk(m) && s == FRESH.(buf := FirstLine(m) + CRLF + rest)
    ensures Run(env, s) == Run(env, FirstLineParsed(m, rest))
  {
    hide FirstLine;
    hide FieldOk;
    LineSteps(env, s, FirstLine(m), rest);
    FirstLineApplies(FRESH.rq, m);
    hide ApplyRequestLine;
    hide Step;
    hide RqTarget.Parse;
  }

  /** The builder whose headers are complete, with `rest` behind them. */
  function HeadParsed(m: Message, rest: Bytes): Builder
    requires HeadOk(m)
  {
    FRESH.(state := AfterHeaders, rq := RequestOf(m), buf := rest,
           headerCount := |m.fields|, headerSize := |FirstLine(m)| + FieldsSize(m.fields))
  }

  lemma FieldsComplete(m: Message, tail: Bytes, rest: Bytes)
    requires HeadOk(m)
    ensures WithFields(FirstLineParsed(m, tail), m.fields, rest) == HeadParsed(m, rest)
  {
    hide FirstLine;
    hide RqTarget.Parse;
    hide Fold;
    hide FieldOk;
  }

  /** Head round trip: the rendered head is read back as the request it was
      made from, and nothing behind it is touched. */
  lemma HeadRoundTrip(env: Env, m: Message, rest: Bytes)
    requires HeadOk(m)
    ensures Run(env, Append(FRESH, RenderHead(m) + rest)) == Run(env, HeadParsed(m, rest))
  {
    hide Run;
    hide RenderFields;
    hide FirstLine;
    hide FieldOk;
    var s := Append(FRESH, RenderHead(m) + rest);
    var tail := RenderFields(m.fields) + CRLF + rest;
    Assoc(FirstLine(m) + CRLF, RenderFields(m.fields), CRLF);
    Assoc(FirstLine(m) + CRLF, RenderFields(m.fields) + CRLF, rest);
    assert [] + (RenderHead(m) + rest) == RenderHead(m) + rest;
    FirstLineSteps(env, m, s, tail);
    FieldsRun(env, FirstLineParsed(m, tail), m.fields, rest);
    FieldsComplete(m, tail, rest);
    hide HeadParsed;
    hide WithFields;
    hide FirstLineParsed;
  }
}
