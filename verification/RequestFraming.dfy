/** Where one request ends and the next begins on a connection. */
module RequestFraming {
  import opened Octets
  import opened NumericUtils
  import opened HttpMessages
  import RqTarget
  import opened BuilderSpec
  import opened BuilderFragments
  import opened BuilderLimits
  import opened ChunkedCoding
  import opened RequestRendering

  /** Bytes that make exactly one request on a new builder, which ends with the
      last of them. */
  predicate Complete(env: Env, d: Bytes) {
    d != [] && Feed(env, FRESH, d).state == End && Feed(env, FRESH, d).buf == []
  }

  /** Bytes that make exactly one request, which ends with the byte after it:
      the builder waits for a body of no bytes. */
  predicate OpenEnded(env: Env, d: Bytes) {
    d != [] && var t := Feed(env, FRESH, d); t.state == BodyRegular && t.remaining == 0 && t.buf == [] && t.idx == 0
  }

  predicate Whole(env: Env, d: Bytes) { Complete(env, d) || OpenEnded(env, d) }

  /** How many bytes must be there before the request is handed on. */
  function Need(env: Env, d: Bytes): nat { if Complete(env, d) then |d| else |d| + 1 }

  // ----- which renderings are complete

  lemma {:induction false} FoldWellFormed(headers: map<Bytes, Bytes>, fields: seq<HeaderField>)
    requires HeadersWellFormed(headers) && forall i :: 0 <= i < |fields| ==> FieldOk(fields[i])
    ensures HeadersWellFormed(Fold(headers, fields))
    decreases |fields|
  {
    if fields != [] {
      var f := fields[0];
      LowerCaseToken(f.key);
      assert FieldOk(f);
      FoldWellFormed(headers[LowerCase(f.key) := f.value], fields[1..]);
    }
  }

  lemma LowerCaseToken(s: Bytes)
    requires IsToken(s)
    ensures IsToken(LowerCase(s))
  {
    forall i | 0 <= i < |s| ensures IsTokenChar(LowerCase(s)[i]) {
      assert LowerCase(s)[i] == ToLower(s[i]);
    }
  }

  function Headers(m: Message): map<Bytes, Bytes> { Fold(map[], m.fields) }

  predicate Accepted(env: Env, m: Message) {
    HeadOk(m) && HOST in Headers(m) && env.onHeadersReady(RequestOf(m)).status == HTTP_OK
  }

  predicate Bodiless(env: Env, m: Message) {
    && Accepted(env, m) && m.verb != POST
    && CONTENT_LENGTH !in Headers(m) && TRANSFER_ENCODING !in Headers(m)
  }

  predicate CanStore(env: Env, m: Message)
    requires HeadOk(m)
  {
    var v := env.onHeadersReady(RequestOf(m));
    v.uploadPath.None? || (!env.doesPathExist(v.uploadPath.value) && env.opensForWriting(v.uploadPath.value))
  }

  predicate FixedLength(env: Env, m: Message, n: nat) {
    && Accepted(env, m) && m.verb == POST && CanStore(env, m)
    && CONTENT_LENGTH in Headers(m) && TRANSFER_ENCODING !in Headers(m)
    && StrToUnsigned(Headers(m)[CONTENT_LENGTH], SIZE_MAX) == Some(n)
    && n <= env.onHeadersReady(RequestOf(m)).maxBodySize
  }

  predicate ChunkedCoded(env: Env, m: Message) {
    && Accepted(env, m) && m.verb == POST && CanStore(env, m)
    && CONTENT_LENGTH !in Headers(m)
    && TRANSFER_ENCODING in Headers(m) && Headers(m)[TRANSFER_ENCODING] == CHUNKED
  }

  // The body file the headers select, still empty.
  function NewBody(env: Env, m: Message): BodyStorage
    requires HeadOk(m)
  {
    match env.onHeadersReady(RequestOf(m)).uploadPath
    case Some(p) => BodyStorage(p, OnServer, [], false)
    case None => BodyStorage(env.tmpPath, InTmpFolder, [], false)
  }

  function BodyStarted(env: Env, m: Message, chunked: bool, n: nat, rest: Bytes): Builder
    requires HeadOk(m)
  {
    HeadParsed(m, rest).(
      state := if chunked then BodyChunkSize else BodyRegular,
      hasBody := true, chunked := chunked, remaining := n,
      maxBody := env.onHeadersReady(RequestOf(m)).maxBodySize,
      rq := RequestOf(m).(body := NewBody(env, m)))
  }

  lemma RenderedHeadersWellFormed(m: Message)
    requires HeadOk(m)
    ensures HeadersWellFormed(Headers(m))
  {
    FoldWellFormed(map[], m.fields);
  }

  lemma VerbIsPost(m: Message)
    requires HeadOk(m)
    ensures RequestOf(m).verb == Post <==> m.verb == POST
  {
    assert GET != POST && DELETE != POST;
    hide FieldOk;
    hide RqTarget.Parse;
  }

  lemma BodilessHeaders(env: Env, m: Message, rest: Bytes)
    requires Bodiless(env, m)
    ensures ProcessHeaders(env, HeadParsed(m, rest)) == HeadParsed(m, rest).(state := End)
  {
    RenderedHeadersWellFormed(m);
    VerbIsPost(m);
    hide HeadOk;
    hide HeadersWellFormed;
    var s := HeadParsed(m, rest);
    assert s.rq == RequestOf(m) && s.rq.headers == Headers(m);
    hide RequestOf;
    hide Fold;
    assert InterpretHeaders(s) == (s, HTTP_OK);
  }

  lemma FixedLengthHeaders(env: Env, m: Message, n: nat, rest: Bytes)
    requires FixedLength(env, m, n)
    ensures ProcessHeaders(env, HeadParsed(m, rest)) == BodyStarted(env, m, false, n, rest)
  {
    RenderedHeadersWellFormed(m);
    VerbIsPost(m);
    hide HeadOk;
    hide HeadersWellFormed;
    hide StrToUnsigned;
    var s := HeadParsed(m, rest);
    assert s.rq == RequestOf(m) && s.rq.headers == Headers(m) && s.rq.body == NO_BODY;
    hide RequestOf;
    hide Fold;
    assert InterpretHeaders(s) == (s.(hasBody := true, remaining := n), HTTP_OK);
    hide InterpretHeaders;
  }

  lemma ChunkedHeaders(env: Env, m: Message, rest: Bytes)
    requires ChunkedCoded(env, m)
    ensures ProcessHeaders(env, HeadParsed(m, rest)) == BodyStarted(env, m, true, 0, rest)
  {
    RenderedHeadersWellFormed(m);
    VerbIsPost(m);
    hide HeadOk;
    hide HeadersWellFormed;
    var s := HeadParsed(m, rest);
    assert s.rq == RequestOf(m) && s.rq.headers == Headers(m) && s.rq.body == NO_BODY;
    hide RequestOf;
    hide Fold;
    assert InterpretHeaders(s) == (s.(hasBody := true, chunked := true), HTTP_OK);
    hide InterpretHeaders;
  }

  lemma FeedRendered(env: Env, m: Message, rest: Bytes)
    requires HeadOk(m)
    ensures Feed(env, FRESH, RenderHead(m) + rest) == Run(env, ProcessHeaders(env, HeadParsed(m, rest)))
  {
    HeadRoundTrip(env, m, rest);
    assert RenderHead(m) + rest != [];
    hide RenderHead;
    StepLowersRank(env, HeadParsed(m, rest));
    hide ProcessHeaders;
  }

  /** A rendered request without a body ends with the empty line: it is read
      back, and whatever follows stays. */
  lemma BodilessRoundTrip(env: Env, m: Message, rest: Bytes)
    requires Bodiless(env, m)
    ensures Feed(env, FRESH, RenderHead(m) + rest) == HeadParsed(m, rest).(state := End)
  {
    FeedRendered(env, m, rest);
    BodilessHeaders(env, m, rest);
    hide ProcessHeaders;
  }

  /** A rendered request with a Content-Length ends after that many bytes, but
      an empty body is noticed only once another byte is there. */
  lemma FixedLengthRoundTrip(env: Env, m: Message, body: Bytes, rest: Bytes)
    requires FixedLength(env, m, |body|)
    ensures var t := Feed(env, FRESH, RenderHead(m) + (body + rest));
            && (t.state == End <==> body + rest != [])
            && (body + rest == [] ==> t == BodyStarted(env, m, false, 0, []))
            && (body + rest != [] ==>
                  && t.buf == rest
                  && t.rq == RequestOf(m).(body := NewBody(env, m).(content := body, transferComplete := true)))
  {
    FeedRendered(env, m, body + rest);
    FixedLengthHeaders(env, m, |body|, body + rest);
    hide ProcessHeaders;
    hide HeadOk;
    hide RequestOf;
    hide Run;
    FixedBodyRun(env, BodyStarted(env, m, false, |body|, body + rest), body, rest);
  }

  lemma FixedBodyRun(env: Env, s: Builder, body: Bytes, rest: Bytes)
    requires s.state == BodyRegular && s.idx == 0 && s.remaining == |body| && s.buf == body + rest
    requires s.rq.body.content == []
    ensures s.buf == [] ==> Run(env, s) == s
    ensures s.buf != [] ==>
              Run(env, s) == s.(state := End, buf := rest, remaining := 0,
                                rq := s.rq.(body := s.rq.body.(content := body, transferComplete := true)))
  {
    assert s.buf[..|body|] == body && s.buf[|body|..] == rest && [] + body == body;
    if s.buf != [] {
      StepLowersRank(env, s);
      assert !Running(Step(env, s));
    }
  }

  /** A rendered request with a chunked body ends with the line of its last
      chunk; the empty line after it is not part of what is read. */
  lemma ChunkedRequestRoundTrip(env: Env, m: Message, cs: seq<Chunk>, last: Bytes, rest: Bytes)
    requires ChunkedCoded(env, m) && AllWellFormed(cs) && LastSize(last)
    requires |Payload(cs)| <= env.onHeadersReady(RequestOf(m)).maxBodySize <= SIZE_MAX
    ensures var t := Feed(env, FRESH, RenderHead(m) + (EncodeChunks(cs) + last + CRLF + rest));
            && t.state == End && t.buf == rest
            && t.rq == RequestOf(m).(body := NewBody(env, m).(content := Payload(cs), transferComplete := true))
  {
    var data := EncodeChunks(cs) + last + CRLF + rest;
    FeedRendered(env, m, data);
    ChunkedHeaders(env, m, data);
    hide ProcessHeaders;
    hide HeadOk;
    hide LastSize;
    var s := BodyStarted(env, m, true, 0, data);
    TotalWithinLimit(cs, 0, s.maxBody);
    ChunksRun(env, s, cs, last, rest);
    assert [] + Payload(cs) == Payload(cs);
    hide Run;
    hide RequestOf;
  }

  lemma EmptyRequestLine(s: Builder)
    requires s.extraction == []
    ensures OnRequestLine(s).state == BadRequest && OnRequestLine(s).rq.status == HTTP_BAD_REQUEST
  {
    assert SplitRequestLine([]).None?;
  }

  /** The CRLF that closes a chunked body is read as the next request's first
      line, and rejected. */
  lemma TrailingCrlfIsRejected(env: Env, rest: Bytes)
    ensures Feed(env, FRESH, CRLF + rest).state == BadRequest
    ensures Feed(env, FRESH, CRLF + rest).rq.status == HTTP_BAD_REQUEST
  {
    var s := Append(FRESH, CRLF + rest);
    assert s.buf == [] + CRLF + rest;
    LineSteps(env, s, [], rest);
    StepLowersRank(env, s);
    EmptyRequestLine(s.(extraction := [], buf := rest));
    hide Step;
    hide OnRequestLine;
    assert |CRLF + rest| >= 2;
    assert Run(env, s) == Step(env, s);
  }

  // ----- after a request

  /** A builder that finished a request and was reset goes on as a new builder
      that is given the unread bytes first. */
  lemma ResetIsFresh(env: Env, calls: seq<Call>, d: Bytes)
    requires var s := AfterCalls(env, FRESH, calls); s.state == End && s.buf + d != []
    ensures var s := AfterCalls(env, FRESH, calls);
            Feed(env, Reset(s), d) == Feed(env, FRESH, s.buf + d)
  {
    CallsKeepInv(env, FRESH, calls);
    var s := AfterCalls(env, FRESH, calls);
    assert s.idx == 0;
    FreshWithLeftover(env, s.buf, d);
    hide Feed;
  }

  lemma FreshWithLeftover(env: Env, leftover: Bytes, d: Bytes)
    requires leftover + d != []
    ensures Feed(env, FRESH.(buf := leftover), d) == Feed(env, FRESH, leftover + d)
  {
    assert [] + (leftover + d) == leftover + d;
    hide Run;
  }

  // The builder when the request is handed on, with what came behind it.
  function Ended(env: Env, m: Bytes, rest: Bytes): Builder {
    var t := Feed(env, FRESH, m);
    if Complete(env, m) then t.(buf := rest)
    else t.(state := End, buf := rest, rq := t.rq.(body := t.rq.body.(transferComplete := true)))
  }

  lemma EmptyBodyStep(env: Env, s: Builder)
    requires s.state == BodyRegular && s.remaining == 0 && s.buf != [] && s.idx == 0
    ensures Running(s)
    ensures Step(env, s) == s.(state := End, rq := s.rq.(body := s.rq.body.(transferComplete := true)))
  {
    assert s.buf[0..] == s.buf && s.rq.body.content + s.buf[..0] == s.rq.body.content;
  }

  lemma EmptyBodyEnds(env: Env, s: Builder, rest: Bytes)
    requires s.state == BodyRegular && s.remaining == 0 && s.buf == [] && s.idx == 0 && rest != []
    ensures Feed(env, s, rest)
            == s.(state := End, buf := rest, rq := s.rq.(body := s.rq.body.(transferComplete := true)))
  {
    assert [] + rest == rest;
    var t := Append(s, rest);
    EmptyBodyStep(env, t);
    hide Step;
    assert !Running(Step(env, t));
    assert Run(env, t) == Run(env, Step(env, t)) == Step(env, t);
  }

  /** More bytes behind a request change nothing but what is left. */
  lemma WholeThenMore(env: Env, m: Bytes, rest: Bytes)
    requires Whole(env, m) && |m + rest| >= Need(env, m)
    ensures Feed(env, FRESH, m + rest) == Ended(env, m, rest)
  {
    assert [] + rest == rest && m + [] == m;
    if rest != [] {
      FeedTwice(env, FRESH, m, rest);
      TerminalKeepsData(env, Feed(env, FRESH, m), rest);
      if !Complete(env, m) {
        EmptyBodyEnds(env, Feed(env, FRESH, m), rest);
      }
    }
    hide Feed;
  }

  /** A beginning that is shorter than needed is not the end of a request. */
  lemma BeginningIsNotDone(env: Env, p: Bytes, q: Bytes)
    requires Whole(env, p + q) && p != [] && |p| < Need(env, p + q)
    ensures !Feed(env, FRESH, p).Terminal()
  {
    if q == [] {
      assert p + q == p;
    } else {
      FeedTwice(env, FRESH, p, q);
      TerminalKeepsData(env, Feed(env, FRESH, p), q);
    }
    hide Feed;
  }

  lemma TerminalKeepsData(env: Env, t: Builder, q: Bytes)
    requires t.idx <= |t.buf| && q != []
    ensures t.Terminal() ==> Feed(env, t, q) == Append(t, q)
  {
  }

  // ----- a connection

  // Requests handed on so far, and the builder. A finished builder is reset
  // before the next bytes are given to it.
  datatype Connection = Connection(done: seq<Request>, builder: Builder)

  function Receive(env: Env, c: Connection, d: Bytes): (r: Connection)
    requires c.builder.idx <= |c.builder.buf|
    ensures r.builder.idx <= |r.builder.buf|
  {
    var t := Feed(env, c.builder, d);
    if t.Terminal() then Connection(c.done + [t.rq], Reset(t)) else Connection(c.done, t)
  }

  function ReceiveAll(env: Env, c: Connection, fragments: seq<Bytes>): (r: Connection)
    requires c.builder.idx <= |c.builder.buf|
    ensures r.builder.idx <= |r.builder.buf|
    decreases |fragments|
  {
    if fragments == [] then c else ReceiveAll(env, Receive(env, c, fragments[0]), fragments[1..])
  }

  function RequestIn(env: Env, m: Bytes): Request { Ended(env, m, []).rq }

  function RequestsIn(env: Env, ms: seq<Bytes>): (r: seq<Request>)
    ensures |r| == |ms|
  {
    if ms == [] then [] else [RequestIn(env, ms[0])] + RequestsIn(env, ms[1..])
  }

  predicate AllWhole(env: Env, ms: seq<Bytes>) { forall i :: 0 <= i < |ms| ==> Whole(env, ms[i]) }

  predicate AllNonEmpty(fragments: seq<Bytes>) { forall i :: 0 <= i < |fragments| ==> fragments[i] != [] }

  /** The builder stands at a request boundary with `pending` unread, or has
      read a beginning `pending` of the next request. */
  predicate Holds(env: Env, b: Builder, pending: Bytes) {
    b == FRESH.(buf := pending) || (pending != [] && b == Feed(env, FRESH, pending) && !b.Terminal())
  }

  lemma ReceiveOne(env: Env, b: Builder, pending: Bytes, d: Bytes)
    requires Holds(env, b, pending) && d != [] && b.idx <= |b.buf|
    ensures Feed(env, b, d) == Feed(env, FRESH, pending + d)
  {
    if b == FRESH.(buf := pending) {
      FreshWithLeftover(env, pending, d);
    } else {
      FeedTwice(env, FRESH, pending, d);
    }
    hide Feed;
  }

  lemma SplitConcat(a: Bytes, b: Bytes, c: Bytes, d: Bytes)
    requires a + b == c + d && |a| >= |c|
    ensures a == c + a[|c|..] && a[|c|..] + b == d
  {
    assert a == (a + b)[..|a|] && c == (c + d)[..|c|];
    assert d == (c + d)[|c|..] && (a + b)[|c|..] == a[|c|..] + b;
  }

  /** How many requests are handed on when `pending` bytes are unread and the
      fragments arrive: at most one with each fragment, as soon as the bytes it
      needs are there. */
  function Handed(env: Env, ms: seq<Bytes>, pending: nat, fragments: seq<Bytes>): (k: nat)
    ensures k <= |fragments| && k <= |ms|
    decreases |fragments|
  {
    if fragments == [] || ms == [] then 0
    else
      var given := pending + |fragments[0]|;
      if given < Need(env, ms[0]) then Handed(env, ms, given, fragments[1..])
      else
        1 + Handed(env, ms[1..], given - |ms[0]|, fragments[1..])
  }

  // With a fragment that completes what the next request needs, it is handed on.
  lemma HandsOn(env: Env, c: Connection, pending: Bytes, f: Bytes, m: Bytes, after: Bytes)
    requires c.builder.idx <= |c.builder.buf| && Holds(env, c.builder, pending) && f != []
    requires Whole(env, m) && pending + f == m + after && |m + after| >= Need(env, m)
    ensures Receive(env, c, f) == Connection(c.done + [RequestIn(env, m)], FRESH.(buf := after))
  {
    ReceiveOne(env, c.builder, pending, f);
    WholeThenMore(env, m, after);
    NextBoundary(env, m, after);
    hide Feed;
    hide Whole;
    hide Ended;
    hide Need;
  }

  // With less, the builder keeps its beginning.
  lemma KeepsBeginning(env: Env, c: Connection, pending: Bytes, f: Bytes, q: Bytes)
    requires c.builder.idx <= |c.builder.buf| && Holds(env, c.builder, pending) && f != []
    requires Whole(env, pending + f + q) && |pending + f| < Need(env, pending + f + q)
    ensures Receive(env, c, f).done == c.done && Holds(env, Receive(env, c, f).builder, pending + f)
  {
    ReceiveOne(env, c.builder, pending, f);
    BeginningIsNotDone(env, pending + f, q);
    hide Feed;
    hide Whole;
    hide Need;
  }

  /** Requests are split at their boundaries. Whatever way a concatenation of
      requests is cut into fragments, the requests handed on are the first
      Handed(...) of them, in order and unchanged, and the bytes not yet handed
      on are exactly the remaining ones. */
  lemma {:induction false} SplitAtBoundaries(env: Env, c: Connection, pending: Bytes, fragments: seq<Bytes>,
                                             ms: seq<Bytes>)
    requires c.builder.idx <= |c.builder.buf| && Holds(env, c.builder, pending)
    requires AllWhole(env, ms) && AllNonEmpty(fragments) && pending + Concat(fragments) == Concat(ms)
    ensures var k := Handed(env, ms, |pending|, fragments);
            && ReceiveAll(env, c, fragments).done == c.done + RequestsIn(env, ms[..k])
            && Holds(env, ReceiveAll(env, c, fragments).builder, Concat(ms[k..]))
    decreases |fragments|
  {
    hide *;
    if fragments == [] {
      NothingArrived(env, c, pending, ms);
    } else {
      var f, more := fragments[0], fragments[1..];
      FirstFragment(env, pending, fragments, ms);
      HandedStep(env, ms, |pending|, fragments);
      ReceiveStep(env, c, fragments);
      var given, m, rest := pending + f, ms[0], Concat(ms[1..]);
      if |given| >= Need(env, m) {
        var after := given[|m|..];
        SplitConcat(given, Concat(more), m, rest);
        HandsOn(env, c, pending, f, m, after);
        AtBoundary(env, after);
        SplitAtBoundaries(env, Receive(env, c, f), after, more, ms[1..]);
        FirstRequest(env, c.done, ms, Handed(env, ms[1..], |after|, more));
      } else {
        ShortBeginning(m, rest, given, Concat(more));
        KeepsBeginning(env, c, pending, f, m[|given|..]);
        SplitAtBoundaries(env, Receive(env, c, f), given, more, ms);
      }
    }
  }

  lemma NothingArrived(env: Env, c: Connection, pending: Bytes, ms: seq<Bytes>)
    requires c.builder.idx <= |c.builder.buf| && pending + Concat([]) == Concat(ms)
    ensures ReceiveAll(env, c, []).done == c.done + RequestsIn(env, ms[..Handed(env, ms, |pending|, [])])
    ensures ReceiveAll(env, c, []) == c && Concat(ms[Handed(env, ms, |pending|, [])..]) == pending
  {
    assert pending + [] == pending && ms[0..] == ms;
    hide RequestIn;
    hide Need;
    hide Receive;
  }

  lemma FirstFragment(env: Env, pending: Bytes, fragments: seq<Bytes>, ms: seq<Bytes>)
    requires AllWhole(env, ms) && AllNonEmpty(fragments) && fragments != []
    requires pending + Concat(fragments) == Concat(ms)
    ensures fragments[0] != [] && AllNonEmpty(fragments[1..])
    ensures ms != [] && Whole(env, ms[0]) && AllWhole(env, ms[1..])
    ensures Concat(ms) == ms[0] + Concat(ms[1..]) == (pending + fragments[0]) + Concat(fragments[1..])
  {
    hide Whole;
    Assoc(pending, fragments[0], Concat(fragments[1..]));
    assert pending + fragments[0] != [];
  }

  lemma HandedStep(env: Env, ms: seq<Bytes>, pending: nat, fragments: seq<Bytes>)
    requires fragments != [] && ms != []
    ensures var given := pending + |fragments[0]|;
            && |ms[0]| <= Need(env, ms[0]) <= |ms[0]| + 1
            && Handed(env, ms, pending, fragments)
               == if given < Need(env, ms[0]) then Handed(env, ms, given, fragments[1..])
                  else 1 + Handed(env, ms[1..], given - |ms[0]|, fragments[1..])
  {
    NeedsItself(env, ms[0]);
    hide Need;
  }

  lemma ReceiveStep(env: Env, c: Connection, fragments: seq<Bytes>)
    requires fragments != [] && c.builder.idx <= |c.builder.buf|
    ensures ReceiveAll(env, c, fragments) == ReceiveAll(env, Receive(env, c, fragments[0]), fragments[1..])
  {
    hide Receive;
  }

  lemma NeedsItself(env: Env, m: Bytes)
    ensures |m| <= Need(env, m) <= |m| + 1
  {
    hide Complete;
  }

  lemma AtBoundary(env: Env, pending: Bytes)
    ensures Holds(env, FRESH.(buf := pending), pending)
  {
    hide Feed;
  }

  lemma ShortBeginning(m: Bytes, rest: Bytes, given: Bytes, more: Bytes)
    requires m + rest == given + more && |given| <= |m|
    ensures given + m[|given|..] == m
  {
    SplitConcat(m, rest, given, more);
  }

  lemma FirstRequest(env: Env, done: seq<Request>, ms: seq<Bytes>, k: nat)
    requires ms != [] && k <= |ms| - 1
    ensures done + [RequestIn(env, ms[0])] + RequestsIn(env, ms[1..][..k]) == done + RequestsIn(env, ms[..k + 1])
    ensures ms[1..][k..] == ms[k + 1..]
  {
    hide RequestIn;
    assert ms[..k + 1][1..] == ms[1..][..k] && ms[..k + 1][0] == ms[0];
  }

  lemma NextBoundary(env: Env, m: Bytes, after: Bytes)
    requires Whole(env, m)
    ensures Ended(env, m, after).Terminal() && Ended(env, m, after).rq == RequestIn(env, m)
    ensures Reset(Ended(env, m, after)) == FRESH.(buf := after)
  {
    FreshEndsAtZero(env, m);
    hide Feed;
  }

  lemma FreshEndsAtZero(env: Env, m: Bytes)
    requires Whole(env, m)
    ensures Feed(env, FRESH, m).idx == 0
  {
    CallKeepsInv(env, FRESH, BuildCall(m));
    hide Feed;
  }

  /** On a new connection, when all the bytes of the requests have arrived, the
      first Handed(...) of them were handed on, so all were exactly when that
      is their number. */
  lemma AllServed(env: Env, fragments: seq<Bytes>, ms: seq<Bytes>)
    requires AllWhole(env, ms) && AllNonEmpty(fragments) && Concat(fragments) == Concat(ms)
    ensures var c, k := ReceiveAll(env, Connection([], FRESH), fragments), Handed(env, ms, 0, fragments);
            && c.done == RequestsIn(env, ms[..k])
            && Holds(env, c.builder, Concat(ms[k..]))
            && (c.done == RequestsIn(env, ms) <==> k == |ms|)
  {
    assert [] + Concat(fragments) == Concat(fragments);
    SplitAtBoundaries(env, Connection([], FRESH), [], fragments, ms);
    var k := Handed(env, ms, 0, fragments);
    assert k == |ms| ==> ms[..k] == ms;
    hide Holds;
  }

  /** Requests that arrive together are not all served: of several in one
      fragment only the first is handed on, the others wait for further bytes. */
  lemma PipelinedRequestsWait(env: Env, ms: seq<Bytes>)
    requires AllWhole(env, ms) && |ms| >= 2
    ensures var c := ReceiveAll(env, Connection([], FRESH), [Concat(ms)]);
            c.done == [RequestIn(env, ms[0])] && c.builder == FRESH.(buf := Concat(ms[1..]))
  {
    var f := Concat(ms);
    assert Whole(env, ms[0]) && Whole(env, ms[1]) && Concat(ms[1..]) == ms[1] + Concat(ms[1..][1..]);
    assert |f| > |ms[0]|;
    WholeThenMore(env, ms[0], Concat(ms[1..]));
    NextBoundary(env, ms[0], Concat(ms[1..]));
    var fragments := [f];
    assert fragments[1..] == [];
    hide Feed;
    hide Whole;
    hide Complete;
  }

  /** One request in each fragment is served at once, unless it is open-ended. */
  lemma {:induction false} OnePerFragment(env: Env, ms: seq<Bytes>)
    requires forall i :: 0 <= i < |ms| ==> Complete(env, ms[i])
    ensures Handed(env, ms, 0, ms) == |ms|
    decreases |ms|
  {
    hide Complete;
    if ms != [] {
      OnePerFragment(env, ms[1..]);
    }
  }

  // ----- the requests written above

  lemma BodilessIsComplete(env: Env, m: Message)
    requires Bodiless(env, m)
    ensures Complete(env, RenderHead(m))
  {
    assert RenderHead(m) + [] == RenderHead(m) != [];
    BodilessRoundTrip(env, m, []);
    hide Feed;
    hide RenderHead;
    hide HeadOk;
  }

  /** A request with a Content-Length ends with its last byte, except that a
      length of zero needs one byte more. */
  lemma FixedLengthIsWhole(env: Env, m: Message, body: Bytes)
    requires FixedLength(env, m, |body|)
    ensures var d := RenderHead(m) + body;
            Whole(env, d) && (Complete(env, d) <==> body != []) && Need(env, d) == |d| + if body == [] then 1 else 0
  {
    assert RenderHead(m) != [];
    assert body + [] == body;
    FixedLengthRoundTrip(env, m, body, []);
    hide Feed;
    hide RenderHead;
    hide HeadOk;
  }

  lemma ChunkedIsComplete(env: Env, m: Message, cs: seq<Chunk>, last: Bytes)
    requires ChunkedCoded(env, m) && AllWellFormed(cs) && LastSize(last)
    requires |Payload(cs)| <= env.onHeadersReady(RequestOf(m)).maxBodySize <= SIZE_MAX
    ensures Complete(env, RenderHead(m) + (EncodeChunks(cs) + last + CRLF))
  {
    assert RenderHead(m) != [];
    ChunkedRequestRoundTrip(env, m, cs, last, []);
    assert EncodeChunks(cs) + last + CRLF + [] == EncodeChunks(cs) + last + CRLF;
    hide Feed;
    hide RenderHead;
    hide HeadOk;
  }
}
