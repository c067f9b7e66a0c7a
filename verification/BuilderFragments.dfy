/** Fragmentation does not matter: feeding bytes in pieces is feeding them
    whole, and the buffer is always the unread end of the stream. */
module BuilderFragments {
  import opened Octets
  import opened NumericUtils
  import opened HttpMessages
  import opened BuilderSpec

  lemma {:induction false} ScanAppend(buf: Bytes, more: Bytes, i: nat)
    requires i <= |buf|
    ensures ScanLine(buf + more, i)
            == if ScanLine(buf, i).Exhausted? then ScanLine(buf + more, |buf|) else ScanLine(buf, i)
    decreases |buf| - i
  {
    if i < |buf| {
      assert (buf + more)[i] == buf[i] && (i >= 1 ==> (buf + more)[i - 1] == buf[i - 1]);
      ScanAppend(buf, more, i + 1);
    }
  }

  // The step on a longer buffer is the same step, or one that the next round
  // would have taken on the rest.
  predicate StepsAgree(env: Env, s: Builder, more: Bytes)
    requires s.idx <= |s.buf| && Running(s)
  {
    StepLowersRank(env, s);
    var t := Append(Step(env, s), more);
    Step(env, Append(s, more)) == t || (Running(t) && Step(env, Append(s, more)) == Step(env, t))
  }

  // What follows a line never looks at the buffer.

  lemma RequestLineAppend(s: Builder, more: Bytes)
    ensures OnRequestLine(Append(s, more)) == Append(OnRequestLine(s), more)
  {
    hide ApplyRequestLine;
  }

  lemma HeaderLineAppend(s: Builder, more: Bytes)
    ensures OnHeaderLine(Append(s, more)) == Append(OnHeaderLine(s), more)
  {
    hide SplitHeaderLine;
  }

  lemma ChunkSizeLineAppend(s: Builder, more: Bytes)
    ensures OnChunkSizeLine(Append(s, more)) == Append(OnChunkSizeLine(s), more)
  {
  }

  lemma OnLineAppend(s: Builder, more: Bytes)
    requires s.InLineState()
    ensures OnLine(Append(s, more)) == Append(OnLine(s), more)
  {
    hide OnRequestLine;
    hide OnHeaderLine;
    hide OnChunkSizeLine;
    RequestLineAppend(s, more);
    HeaderLineAppend(s, more);
    ChunkSizeLineAppend(s, more);
  }

  lemma InterpretHeadersAppend(s: Builder, more: Bytes)
    ensures var i, j := InterpretHeaders(s), InterpretHeaders(Append(s, more));
            j.0 == Append(i.0, more) && j.1 == i.1
  {
    hide StrToUnsigned;
  }

  lemma PrepareBodyAppend(env: Env, s: Builder, v: Validation, more: Bytes)
    ensures PrepareBody(env, Append(s, more), v) == Append(PrepareBody(env, s, v), more)
  {
  }

  lemma ProcessHeadersAppend(env: Env, s: Builder, more: Bytes)
    ensures ProcessHeaders(env, Append(s, more)) == Append(ProcessHeaders(env, s), more)
  {
    hide HeadersWellFormed;
    hide InterpretHeaders;
    hide PrepareBody;
    InterpretHeadersAppend(s, more);
    var i := InterpretHeaders(s);
    PrepareBodyAppend(env, i.0, env.onHeadersReady(i.0.rq), more);
  }

  lemma TakeLineAppend(s: Builder, more: Bytes, at: nat)
    requires 1 <= at < |s.buf|
    ensures TakeLine(Append(s, more), at) == Append(TakeLine(s, at), more)
  {
    assert (s.buf + more)[..at - 1] == s.buf[..at - 1];
    assert (s.buf + more)[at + 1..] == s.buf[at + 1..] + more;
  }

  lemma LineStepAppend(env: Env, s: Builder, more: Bytes)
    requires s.idx < |s.buf| && s.InLineState() && more != []
    ensures StepsAgree(env, s, more)
  {
    hide OnLine;
    hide ScanLine;
    ScanAppend(s.buf, more, s.idx);
    match ScanLine(s.buf, s.idx)
    case Exhausted =>
      assert Append(s.(idx := |s.buf|), more) == Append(s, more).(idx := |s.buf|);
    case Reject(i) =>
    case Line(i) =>
      TakeLineAppend(s, more, i);
      OnLineAppend(TakeLine(s, i), more);
  }

  lemma MoveAllAppend(s: Builder, more: Bytes)
    requires s.remaining <= |s.buf|
    ensures MoveToBody(Append(s, more)) == Append(MoveToBody(s), more)
  {
    var n := s.remaining;
    assert (s.buf + more)[..n] == s.buf[..n] && (s.buf + more)[n..] == s.buf[n..] + more;
  }

  lemma SplitAppend(written: Bytes, a: Bytes, more: Bytes, k: nat)
    requires |a| <= k <= |a| + |more|
    ensures written + (a + more)[..k] == written + a[..|a|] + more[..k - |a|]
    ensures (a + more)[k..] == more[k - |a|..]
  {
    assert (a + more)[..k] == a + more[..k - |a|] && a[..|a|] == a;
  }

  // What moving all that is buffered, or a part of it, leaves.
  lemma MoveIs(s: Builder, k: nat)
    requires k == Min(s.remaining, |s.buf|)
    ensures MoveToBody(s) == s.(rq := s.rq.(body := s.rq.body.(content := s.rq.body.content + s.buf[..k])),
                                buf := s.buf[k..], idx := 0, remaining := s.remaining - k)
  {
  }

  lemma MovePartAppend(s: Builder, more: Bytes)
    requires s.remaining > |s.buf|
    ensures MoveToBody(Append(s, more)) == MoveToBody(Append(MoveToBody(s), more))
  {
    MoveIs(s, |s.buf|);
    var t := MoveToBody(s);
    hide MoveToBody;
    assert t.buf + more == more;
    var k := Min(s.remaining, |s.buf| + |more|);
    SplitAppend(s.rq.body.content, s.buf, more, k);
    MoveIs(Append(s, more), k);
    MoveIs(Append(t, more), k - |s.buf|);
  }

  lemma BodyRegularAppend(env: Env, s: Builder, more: Bytes)
    requires s.idx < |s.buf| && more != [] && s.state == BodyRegular
    ensures StepsAgree(env, s, more)
  {
    hide MoveToBody;
    if s.remaining <= |s.buf| {
      MoveAllAppend(s, more);
    } else {
      MovePartAppend(s, more);
    }
  }

  lemma ChunkContentAppend(env: Env, s: Builder, more: Bytes)
    requires s.idx < |s.buf| && more != [] && s.state == BodyChunkContent && !Stalled(s)
    ensures StepsAgree(env, s, more)
  {
    hide MoveToBody;
    var m := if s.remaining == 0 then s else MoveToBody(s);
    if s.remaining <= |s.buf| {
      MoveAllAppend(s, more);
    } else {
      MovePartAppend(s, more);
    }
    if |m.buf| - m.idx >= 2 {
      assert (m.buf + more)[0] == m.buf[0] && (m.buf + more)[1] == m.buf[1];
      assert (m.buf + more)[2..] == m.buf[2..] + more;
    }
  }

  lemma StepAppend(env: Env, s: Builder, more: Bytes)
    requires s.idx <= |s.buf| && Running(s) && more != []
    ensures Running(Append(s, more)) && StepsAgree(env, s, more)
  {
    match s.state
    case RqLine => LineStepAppend(env, s, more);
    case HeaderFields => LineStepAppend(env, s, more);
    case BodyChunkSize => LineStepAppend(env, s, more);
    case AfterHeaders => ProcessHeadersAppend(env, s, more);
    case BodyRegular => BodyRegularAppend(env, s, more);
    case BodyChunkContent => ChunkContentAppend(env, s, more);
    case End =>
    case BadRequest =>
  }

  /** Running with more bytes at the end is running first and adding them then. */
  lemma {:induction false} RunAppend(env: Env, s: Builder, more: Bytes)
    requires s.idx <= |s.buf| && more != []
    ensures Run(env, Append(s, more)) == Run(env, Append(Run(env, s), more))
    decreases Live(s), |s.buf|, HeadersToProcess(s), Unscanned(s)
  {
    if Running(s) {
      StepLowersRank(env, s);
      StepAppend(env, s, more);
      StepLowersRank(env, Append(s, more));
      RunAppend(env, Step(env, s), more);
    }
  }

  /** Two fragments are their concatenation. */
  lemma FeedTwice(env: Env, s: Builder, a: Bytes, b: Bytes)
    requires s.idx <= |s.buf| && a != [] && b != []
    ensures Feed(env, Feed(env, s, a), b) == Feed(env, s, a + b)
  {
    hide Run;
    hide Running;
    RunAppend(env, Append(s, a), b);
    assert s.buf + a + b == s.buf + (a + b);
  }

  function FeedAll(env: Env, s: Builder, fragments: seq<Bytes>): (r: Builder)
    requires s.idx <= |s.buf|
    ensures r.idx <= |r.buf|
    decreases |fragments|
  {
    if fragments == [] then s else FeedAll(env, Feed(env, s, fragments[0]), fragments[1..])
  }

  predicate NonEmptyFragments(fragments: seq<Bytes>) {
    fragments != [] && forall i :: 0 <= i < |fragments| ==> fragments[i] != []
  }

  /** Fragmentation independence, from any state: every way of cutting the
      bytes into non-empty fragments ends in the same state, request, counters,
      body, buffer and cursor as one call with all of them. */
  lemma {:induction false} FragmentationIndependence(env: Env, s: Builder, fragments: seq<Bytes>)
    requires s.idx <= |s.buf| && NonEmptyFragments(fragments)
    ensures FeedAll(env, s, fragments) == Feed(env, s, Concat(fragments))
    decreases |fragments|
  {
    var rest := fragments[1..];
    if rest == [] {
      assert Concat(rest) == [] && fragments[0] + [] == fragments[0];
    } else {
      assert forall i :: 0 <= i < |rest| ==> rest[i] == fragments[i + 1];
      FragmentationIndependence(env, Feed(env, s, fragments[0]), rest);
      assert Concat(rest) == rest[0] + Concat(rest[1..]);
      FeedTwice(env, s, fragments[0], Concat(rest));
    }
  }

  // ----- stream conservation

  predicate IsSuffix(t: Bytes, s: Bytes) { |t| <= |s| && s[|s| - |t|..] == t }

  lemma SuffixTransitive(u: Bytes, t: Bytes, s: Bytes)
    requires IsSuffix(u, t) && IsSuffix(t, s)
    ensures IsSuffix(u, s)
  {
    assert s[|s| - |u|..] == s[|s| - |t|..][|t| - |u|..];
  }

  lemma LineStepSuffix(s: Builder)
    requires s.idx <= |s.buf| && s.InLineState()
    ensures IsSuffix(LineStep(s).buf, s.buf)
  {
    hide OnLine;
  }

  lemma MoveSuffix(s: Builder)
    ensures IsSuffix(MoveToBody(s).buf, s.buf)
  {
  }

  lemma EndChunkSuffix(s: Builder)
    ensures IsSuffix(EndChunk(s).buf, s.buf)
  {
  }

  lemma ChunkContentSuffix(s: Builder)
    ensures IsSuffix(ChunkContentStep(s).buf, s.buf)
  {
    hide MoveToBody;
    hide EndChunk;
    var m := if s.remaining > 0 then MoveToBody(s) else s;
    MoveSuffix(s);
    EndChunkSuffix(m);
    SuffixTransitive(EndChunk(m).buf, m.buf, s.buf);
  }

  lemma StepConsumesPrefix(env: Env, s: Builder)
    requires s.idx <= |s.buf| && Running(s)
    ensures IsSuffix(Step(env, s).buf, s.buf)
  {
    hide LineStep;
    hide MoveToBody;
    hide ChunkContentStep;
    hide ProcessHeaders;
    if s.InLineState() {
      LineStepSuffix(s);
    } else {
      MoveSuffix(s);
      ChunkContentSuffix(s);
    }
  }

  lemma {:induction false} RunConsumesPrefix(env: Env, s: Builder)
    requires s.idx <= |s.buf|
    ensures IsSuffix(Run(env, s).buf, s.buf)
    decreases Live(s), |s.buf|, HeadersToProcess(s), Unscanned(s)
  {
    hide Step;
    if Running(s) {
      StepLowersRank(env, s);
      StepConsumesPrefix(env, s);
      RunConsumesPrefix(env, Step(env, s));
      SuffixTransitive(Run(env, s).buf, Step(env, s).buf, s.buf);
    }
  }

  /** No byte is lost or reordered: what a builder holds after any fragments is
      the end of everything it held and was given. */
  lemma StreamConservation(env: Env, s: Builder, fragments: seq<Bytes>)
    requires s.idx <= |s.buf| && NonEmptyFragments(fragments)
    ensures IsSuffix(FeedAll(env, s, fragments).buf, s.buf + Concat(fragments))
  {
    FragmentationIndependence(env, s, fragments);
    assert Concat(fragments) == fragments[0] + Concat(fragments[1..]);
    RunConsumesPrefix(env, Append(s, Concat(fragments)));
  }
}
