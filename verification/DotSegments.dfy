/** RqTarget::RemoveDotSegments_ (section 5.2.4 of RFC 3986) against a stack of
    segments. Unlike the RFC, the server refuses a path that climbs above the
    root instead of staying there. */
module DotSegments {
  import opened Octets
  import opened PathNormalization

  const DOT: Bytes := ['.']
  const DOTDOT: Bytes := ['.', '.']

  /** The segments left after the dot segments of `segs` have acted on
      `stack`; None when one of them pops an empty stack. A dot segment at the
      end leaves its trailing slash, an empty last segment. */
  function Resolve(segs: seq<Bytes>, stack: seq<Bytes>): Option<seq<Bytes>> {
    if segs == [] then Some(stack)
    else if segs[0] == DOT then
      if |segs| == 1 then Some(stack + [[]]) else Resolve(segs[1..], stack)
    else if segs[0] == DOTDOT then
      if stack == [] then None
      else if |segs| == 1 then Some(stack[..|stack| - 1] + [[]])
      else Resolve(segs[1..], stack[..|stack| - 1])
    else Resolve(segs[1..], stack + [segs[0]])
  }

  function Popped(stack: seq<Bytes>): seq<Bytes> { if stack == [] then [] else stack[..|stack| - 1] }

  /** The same where '..' at the root does nothing: the RFC's rules on a stack
      of segments (lemma RfcOnStack). */
  function RfcResolve(segs: seq<Bytes>, stack: seq<Bytes>): seq<Bytes> {
    if segs == [] then stack
    else if segs[0] == DOT then
      if |segs| == 1 then stack + [[]] else RfcResolve(segs[1..], stack)
    else if segs[0] == DOTDOT then
      if |segs| == 1 then Popped(stack) + [[]] else RfcResolve(segs[1..], Popped(stack))
    else RfcResolve(segs[1..], stack + [segs[0]])
  }

  // The output buffer without its last segment and the slash before that.
  function WithoutLastSegment(output: Bytes): Bytes {
    if output == [] then []
    else
      var n := |output| - 1;
      if output[n] == '/' then output[..n] else WithoutLastSegment(output[..n])
  }

  /** Section 5.2.4 of RFC 3986 as it is written, step 2A to 2E over an input
      and an output buffer. */
  function RfcRemove(input: Bytes, output: Bytes): Bytes
    decreases |input|
  {
    if input == [] then output
    else if Opens(input, ['.', '.', '/']) then RfcRemove(input[3..], output)
    else if Opens(input, ['.', '/']) then RfcRemove(input[2..], output)
    else if Opens(input, ['/', '.', '/']) then RfcRemove(['/'] + input[3..], output)
    else if input == ['/', '.'] then RfcRemove(['/'], output)
    else if Opens(input, ['/', '.', '.', '/']) then RfcRemove(['/'] + input[4..], WithoutLastSegment(output))
    else if input == ['/', '.', '.'] then RfcRemove(['/'], WithoutLastSegment(output))
    else if input == DOT || input == DOTDOT then RfcRemove([], output)
    else
      var e := FindAny(input, ['/'], 1);
      RfcRemove(input[e..], output + input[..e])
  }

  // How far the segments climb (or fall) from where they start.
  function Depth(segs: seq<Bytes>): int {
    if segs == [] then 0 else Height(segs[0]) + Depth(segs[1..])
  }

  function Height(seg: Bytes): int {
    if seg == DOT then 0 else if seg == DOTDOT then -1 else 1
  }

  // Some prefix of the segments has more '..' than real segments.
  ghost predicate ClimbsAboveRoot(segs: seq<Bytes>) {
    exists k :: 0 <= k <= |segs| && Depth(segs[..k]) < 0
  }

  function RemoveDots(path: Bytes): Option<Bytes>
    requires Rooted(path)
  {
    var r := Resolve(Segments(path), []);
    if r.None? then None else Some(Path(r.value))
  }

  // std::string::compare(0, |lit|, lit) == 0
  predicate Opens(s: Bytes, lit: Bytes)
    ensures Opens(s, lit) && lit != [] ==> s != [] && s[0] == lit[0]
  {
    assert StartsWith(s, lit) && lit != [] ==> s[0] == s[..|lit|][0];
    StartsWith(s, lit)
  }

  predicate LastSlash(path: Bytes, k: int) {
    0 <= k < |path| && path[k] == '/' && forall i :: k < i < |path| ==> path[i] != '/'
  }

  method RemoveLastSegment(path: Bytes) returns (r: Bytes)
    ensures '/' !in path ==> r == path
    ensures '/' in path ==> exists k :: LastSlash(path, k) && r == path[..k]
  {
    var k := |path|;
    while k > 0 && path[k - 1] != '/'
      invariant 0 <= k <= |path|
      invariant forall i :: k <= i < |path| ==> path[i] != '/'
    {
      k := k - 1;
    }
    if k == 0 {
      return path;
    }
    r := path[..k - 1];
    assert LastSlash(path, k - 1);
  }

  lemma LastSlashIsAt(init: Bytes, last: Bytes, k: int)
    requires '/' !in last && LastSlash(init + ['/'] + last, k)
    ensures k == |init|
  {
    var p := init + ['/'] + last;
    assert p[|init|] == '/';
    assert forall i :: |init| < i < |p| ==> p[i] == last[i - |init| - 1];
  }

  lemma PathPopped(init: seq<Bytes>, last: Bytes, k: int)
    requires '/' !in last && LastSlash(Path(init + [last]), k)
    ensures Path(init + [last])[..k] == Path(init)
  {
    PathAppend(init, last);
    LastSlashIsAt(Path(init), last, k);
  }

  lemma DotDotStep(was: Bytes, rest: Bytes, stack: seq<Bytes>)
    requires was == ['/'] + DOTDOT + rest && Rooted(rest)
    ensures stack == [] ==> Resolve(Segments(was), stack) == None
    ensures stack != [] ==> Resolve(Segments(was), stack)
                            == Resolve(Segments(if rest == [] then ['/'] else rest), stack[..|stack| - 1])
  {
    SegmentsSplit(DOTDOT, rest);
    LoneSlash();
    assert ([DOTDOT] + Segments(rest))[1..] == Segments(rest);
  }

  lemma DotStep(was: Bytes, rest: Bytes, stack: seq<Bytes>)
    requires was == ['/'] + DOT + rest && Rooted(rest)
    ensures Resolve(Segments(was), stack) == Resolve(Segments(if rest == [] then ['/'] else rest), stack)
  {
    SegmentsSplit(DOT, rest);
    LoneSlash();
    assert ([DOT] + Segments(rest))[1..] == Segments(rest);
  }

  lemma LoneSlash()
    ensures Segments(['/']) == [[]]
  {
    assert ['/'] == ['/'] + [] + [];
    SegmentsSplit([], []);
  }

  // How a dot segment at the front shows in the text.
  lemma DotHeads(input: Bytes)
    requires input != [] && Rooted(input)
    ensures input[1..SegmentEnd(input)] == DOT ==> input == ['/', '.'] || Opens(input, ['/', '.', '/'])
    ensures input[1..SegmentEnd(input)] == DOTDOT ==> input == ['/', '.', '.'] || Opens(input, ['/', '.', '.', '/'])
  {
    var e := SegmentEnd(input);
    assert input == ['/'] + input[1..e] + input[e..];
    if e < |input| {
      assert input == ['/'] + input[1..e] + ['/'] + input[e + 1..];
    }
  }

  lemma MoveStep(input: Bytes, stack: seq<Bytes>)
    requires input != [] && Rooted(input)
    requires !Opens(input, ['/', '.', '/']) && !Opens(input, ['/', '.', '.', '/'])
    requires input != ['/', '.'] && input != ['/', '.', '.']
    ensures var e := SegmentEnd(input);
            Resolve(Segments(input), stack) == Resolve(Segments(input[e..]), stack + [input[1..e]])
  {
    var e := SegmentEnd(input);
    var seg := input[1..e];
    assert input == ['/'] + seg + input[e..];
    DotHeads(input);
    assert Segments(input)[1..] == Segments(input[e..]);
  }

  ghost predicate Pending(str: Bytes, input: Bytes, output: Bytes, level: int, stack: seq<Bytes>) {
    Rooted(str) ==>
      && Rooted(input) && Slashless(stack)
      && output == Path(stack) && level == |stack|
      && Resolve(Segments(str), []) == Resolve(Segments(input), stack)
  }

  lemma PendingStart(str: Bytes)
    ensures Pending(str, str, [], 0, [])
  {
  }

  // Only a path that does not start with a slash leaves such an input.
  lemma PendingUnrooted(str: Bytes, input: Bytes, output: Bytes, level: int, stack: seq<Bytes>,
                        rest: Bytes, level': int)
    requires Pending(str, input, output, level, stack) && !Rooted(input)
    ensures !Rooted(str) && Pending(str, rest, output, level', stack)
  {
  }

  lemma PendingDone(str: Bytes, output: Bytes, level: int, stack: seq<Bytes>)
    requires Pending(str, [], output, level, stack) && Rooted(str)
    ensures RemoveDots(str) == Some(output) && level == |Segments(output)|
  {
    SegmentsOfPath(stack);
  }

  lemma PendingDotDot(str: Bytes, input: Bytes, output: Bytes, level: int, stack: seq<Bytes>, shorter: Bytes)
    requires Pending(str, input, output, level, stack)
    requires |input| >= 3 && input[..3] == ['/', '.', '.'] && Rooted(input[3..])
    requires '/' !in output ==> shorter == output
    requires '/' in output ==> exists k :: LastSlash(output, k) && shorter == output[..k]
    ensures Rooted(str) ==> level == |stack|
    ensures Rooted(str) && stack == [] ==> RemoveDots(str) == None
    ensures var rest := if input == ['/', '.', '.'] then ['/'] else input[3..];
            (Rooted(str) && stack == []) || Pending(str, rest, shorter, level - 1, Popped(stack))
  {
    if Rooted(str) {
      assert input == ['/'] + DOTDOT + input[3..];
      DotDotStep(input, input[3..], stack);
      if stack != [] {
        var k :| LastSlash(output, k) && shorter == output[..k];
        assert stack[..|stack| - 1] + [stack[|stack| - 1]] == stack;
        PathPopped(stack[..|stack| - 1], stack[|stack| - 1], k);
      }
    }
  }

  lemma PendingDot(str: Bytes, input: Bytes, output: Bytes, level: int, stack: seq<Bytes>)
    requires Pending(str, input, output, level, stack)
    requires |input| >= 2 && input[..2] == ['/', '.'] && Rooted(input[2..])
    ensures Pending(str, if input == ['/', '.'] then ['/'] else input[2..], output, level, stack)
  {
    if Rooted(str) {
      assert input == ['/'] + DOT + input[2..];
      DotStep(input, input[2..], stack);
    }
  }

  lemma PendingMove(str: Bytes, input: Bytes, output: Bytes, level: int, stack: seq<Bytes>)
    requires Pending(str, input, output, level, stack)
    requires input != []
    requires !Opens(input, ['/', '.', '/']) && !Opens(input, ['/', '.', '.', '/'])
    requires input != ['/', '.'] && input != ['/', '.', '.']
    ensures var e := SegmentEnd(input);
            Pending(str, input[e..], output + input[..e], level + 1, stack + [input[1..e]])
  {
    if Rooted(str) {
      var e := SegmentEnd(input);
      MoveStep(input, stack);
      PathAppend(stack, input[1..e]);
      assert output + input[..e] == output + ['/'] + input[1..e];
    }
  }

  /** `level` is dir_level at the end. */
  method RemoveDotSegments(str: Bytes) returns (r: Option<Bytes>, ghost level: int)
    ensures Rooted(str) ==> r == RemoveDots(str)
    ensures Rooted(str) && r.Some? ==> level == |Segments(r.value)|
    ensures r.None? <==> level < 0
  {
    var dirLevel := 0;
    var input := str;
    var output: Bytes := [];
    ghost var stack: seq<Bytes> := [];
    PendingStart(str);
    hide Pending;
    hide RemoveDots;
    while input != []
      invariant Pending(str, input, output, dirLevel, stack)
      invariant dirLevel >= 0
      decreases |input|
    {
      if Opens(input, ['.', '.', '/']) {
        PendingUnrooted(str, input, output, dirLevel, stack, input[3..], dirLevel - 1);
        input := input[3..];
        dirLevel := dirLevel - 1;
      } else if Opens(input, ['.', '/']) {
        PendingUnrooted(str, input, output, dirLevel, stack, input[2..], dirLevel);
        input := input[2..];
      } else if input == ['/', '.', '.'] || Opens(input, ['/', '.', '.', '/']) {
        var eraseLen := if input == ['/', '.', '.'] then 2 else 3;
        var shorter := RemoveLastSegment(output);
        PendingDotDot(str, input, output, dirLevel, stack, shorter);
        assert input[..1] + input[1 + eraseLen..] == if eraseLen == 2 then ['/'] else input[3..];
        input := input[..1] + input[1 + eraseLen..];
        output := shorter;
        dirLevel := dirLevel - 1;
        stack := Popped(stack);
      } else if Opens(input, ['/', '.', '/']) {
        PendingDot(str, input, output, dirLevel, stack);
        assert input[..1] + input[3..] == input[2..];
        input := input[..1] + input[3..];
      } else if input == ['/', '.'] {
        PendingDot(str, input, output, dirLevel, stack);
        assert input[..1] == ['/'];
        input := input[..1];
      } else if input == DOT {
        PendingUnrooted(str, input, output, dirLevel, stack, [], dirLevel);
        input := [];
      } else if input == DOTDOT {
        PendingUnrooted(str, input, output, dirLevel, stack, [], dirLevel - 1);
        input := [];
        dirLevel := dirLevel - 1;
      } else {
        var end := FindAny(input, ['/'], 1);
        PendingMove(str, input, output, dirLevel, stack);
        stack := stack + [input[1..end]];
        output := output + input[..end];
        input := input[end..];
        dirLevel := dirLevel + 1;
      }
      if dirLevel < 0 {
        return None, dirLevel;
      }
    }
    if Rooted(str) {
      PendingDone(str, output, dirLevel, stack);
    }
    return Some(output), dirLevel;
  }

  // ----- what the resolution means

  lemma {:induction false} ResolveFailsByDepth(segs: seq<Bytes>, stack: seq<Bytes>)
    ensures Resolve(segs, stack).None? <==> exists k :: 0 <= k <= |segs| && |stack| + Depth(segs[..k]) < 0
  {
    if segs != [] {
      var st := if segs[0] == DOT then stack
                else if segs[0] == DOTDOT then Popped(stack)
                else stack + [segs[0]];
      if segs[0] == DOTDOT && stack == [] {
        assert segs[..1][1..] == [];
        assert Depth(segs[..1]) == -1;
      } else {
        ResolveFailsByDepth(segs[1..], st);
        forall k | 1 <= k <= |segs|
          ensures |stack| + Depth(segs[..k]) == |st| + Depth(segs[1..][..k - 1])
        {
          assert segs[..k][1..] == segs[1..][..k - 1] && segs[..k][0] == segs[0];
        }
        assert Depth(segs[..0]) == 0;
        if Resolve(segs[1..], st).None? {
          var k :| 0 <= k <= |segs[1..]| && |st| + Depth(segs[1..][..k]) < 0;
          assert |stack| + Depth(segs[..k + 1]) < 0;
        }
        if k :| 0 <= k <= |segs| && |stack| + Depth(segs[..k]) < 0 {
          assert |st| + Depth(segs[1..][..k - 1]) < 0;
        }
        if |segs| == 1 {
          assert segs[1..] == [];
        }
      }
    }
  }

  lemma {:induction false} ResolveIsRfc(segs: seq<Bytes>, stack: seq<Bytes>)
    ensures Resolve(segs, stack).Some? ==> Resolve(segs, stack).value == RfcResolve(segs, stack)
  {
    if segs != [] {
      if segs[0] == DOT {
        ResolveIsRfc(segs[1..], stack);
      } else if segs[0] == DOTDOT {
        ResolveIsRfc(segs[1..], Popped(stack));
      } else {
        ResolveIsRfc(segs[1..], stack + [segs[0]]);
      }
    }
  }

  lemma {:induction false} WithoutLast(before: Bytes, last: Bytes)
    requires '/' !in last
    ensures WithoutLastSegment(before + ['/'] + last) == before
    decreases |last|
  {
    var p := before + ['/'] + last;
    var n := |p| - 1;
    if last == [] {
      assert p[..n] == before;
    } else {
      var shorter := last[..|last| - 1];
      assert p[n] == last[|last| - 1];
      assert p[..n] == before + ['/'] + shorter;
      WithoutLast(before, shorter);
    }
  }

  lemma PopPath(stack: seq<Bytes>)
    requires Slashless(stack)
    ensures WithoutLastSegment(Path(stack)) == Path(Popped(stack)) && Slashless(Popped(stack))
  {
    if stack != [] {
      var init, last := stack[..|stack| - 1], stack[|stack| - 1];
      assert stack == init + [last];
      PathAppend(init, last);
      WithoutLast(Path(init), last);
    }
  }

  // What a dot segment in front, with `rest` behind it, leaves to resolve.
  lemma RfcDot(seg: Bytes, rest: Bytes, stack: seq<Bytes>)
    requires Rooted(rest) && (seg == DOT || seg == DOTDOT)
    ensures RfcResolve(Segments(['/'] + seg + rest), stack)
            == RfcResolve(Segments(if rest == [] then ['/'] else rest), if seg == DOT then stack else Popped(stack))
  {
    SegmentsSplit(seg, rest);
    LoneSlash();
    assert ([seg] + Segments(rest))[1..] == Segments(rest);
  }

  // The rules that apply to a rooted input, one at a time.

  lemma RuleDot(input: Bytes, rest: Bytes, output: Bytes)
    requires Rooted(rest) && input == ['/'] + DOT + rest
    ensures RfcRemove(input, output) == RfcRemove(if rest == [] then ['/'] else rest, output)
  {
    assert input[0] == '/' && input[1] == '.' && input[2..] == rest;
    if rest != [] {
      assert input[2] == '/' && input[..3] == ['/', '.', '/'];
      assert ['/'] + input[3..] == rest;
    }
  }

  lemma RuleDotDot(input: Bytes, rest: Bytes, output: Bytes)
    requires Rooted(rest) && input == ['/'] + DOTDOT + rest
    ensures RfcRemove(input, output) == RfcRemove(if rest == [] then ['/'] else rest, WithoutLastSegment(output))
  {
    assert input[0] == '/' && input[1] == '.' && input[2] == '.' && input[3..] == rest;
    if rest != [] {
      assert input[3] == '/' && input[..4] == ['/', '.', '.', '/'];
      assert ['/'] + input[4..] == rest;
    }
    assert |input| >= 3 && input[..3] != ['/', '.', '/'] by {
      assert input[..3][2] == '.';
    }
  }

  lemma RuleMove(input: Bytes, output: Bytes)
    requires input != [] && Rooted(input)
    requires !Opens(input, ['/', '.', '/']) && !Opens(input, ['/', '.', '.', '/'])
    requires input != ['/', '.'] && input != ['/', '.', '.']
    ensures var e := SegmentEnd(input); RfcRemove(input, output) == RfcRemove(input[e..], output + input[..e])
  {
  }

  /** On a rooted path the RFC's buffers hold what the stack does. */
  lemma {:induction false} RfcOnStack(input: Bytes, stack: seq<Bytes>)
    requires Rooted(input) && Slashless(stack)
    ensures RfcRemove(input, Path(stack)) == Path(RfcResolve(Segments(input), stack))
    decreases |input|
  {
    if input == [] {
      assert Segments(input) == [];
    } else {
      hide RfcRemove;
      hide RfcResolve;
      hide Segments;
      if Opens(input, ['/', '.', '/']) {
        assert input[..2] == input[..3][..2] == ['/'] + DOT;
        RfcDotAtFront(input, DOT, input[2..], stack);
      } else if input == ['/', '.'] {
        RfcDotAtFront(input, DOT, [], stack);
      } else if Opens(input, ['/', '.', '.', '/']) {
        assert input[..3] == input[..4][..3] == ['/'] + DOTDOT;
        RfcDotAtFront(input, DOTDOT, input[3..], stack);
      } else if input == ['/', '.', '.'] {
        RfcDotAtFront(input, DOTDOT, [], stack);
      } else {
        var e := SegmentEnd(input);
        RfcMoveStep(input, stack);
        MovedPath(input, stack);
        RuleMove(input, Path(stack));
        RfcOnStack(input[e..], stack + [input[1..e]]);
      }
    }
  }

  lemma MovedPath(input: Bytes, stack: seq<Bytes>)
    requires input != [] && Rooted(input) && Slashless(stack)
    ensures var e := SegmentEnd(input);
            Path(stack) + input[..e] == Path(stack + [input[1..e]]) && Slashless(stack + [input[1..e]])
  {
    var e := SegmentEnd(input);
    PathAppend(stack, input[1..e]);
    assert Path(stack) + input[..e] == Path(stack) + ['/'] + input[1..e];
  }

  lemma RfcMoveStep(input: Bytes, stack: seq<Bytes>)
    requires input != [] && Rooted(input)
    requires !Opens(input, ['/', '.', '/']) && !Opens(input, ['/', '.', '.', '/'])
    requires input != ['/', '.'] && input != ['/', '.', '.']
    ensures var e := SegmentEnd(input);
            RfcResolve(Segments(input), stack) == RfcResolve(Segments(input[e..]), stack + [input[1..e]])
  {
    var e := SegmentEnd(input);
    assert input == ['/'] + input[1..e] + input[e..];
    DotHeads(input);
    assert Segments(input)[1..] == Segments(input[e..]);
  }

  lemma RfcDotAtFront(input: Bytes, seg: Bytes, rest: Bytes, stack: seq<Bytes>)
    requires Rooted(rest) && Slashless(stack) && (seg == DOT || seg == DOTDOT)
    requires |input| == 1 + |seg| + |rest| && input[..1 + |seg|] == ['/'] + seg && input[1 + |seg|..] == rest
    ensures RfcRemove(input, Path(stack)) == Path(RfcResolve(Segments(input), stack))
    decreases |input|, 0
  {
    hide RfcRemove;
    hide RfcResolve;
    hide WithoutLastSegment;
    assert input == ['/'] + seg + rest;
    RfcDot(seg, rest, stack);
    PopPath(stack);
    var next := if rest == [] then ['/'] else rest;
    if seg == DOT {
      RuleDot(input, rest, Path(stack));
    } else {
      RuleDotDot(input, rest, Path(stack));
    }
    RfcOnStack(next, if seg == DOT then stack else Popped(stack));
  }

  predicate Dotless(segs: seq<Bytes>) {
    forall i :: 0 <= i < |segs| ==> segs[i] != DOT && segs[i] != DOTDOT
  }

  // Empty segments stand at the end only: no double slash in the path.
  predicate Dense(segs: seq<Bytes>) { forall i :: 0 <= i < |segs| - 1 ==> segs[i] != [] }

  lemma {:induction false} ResolveShape(segs: seq<Bytes>, stack: seq<Bytes>)
    requires Dotless(stack) && Slashless(stack) && Slashless(segs)
    requires Resolve(segs, stack).Some?
    ensures Dotless(Resolve(segs, stack).value) && Slashless(Resolve(segs, stack).value)
    ensures segs != [] ==> Resolve(segs, stack).value != []
    ensures (forall i :: 0 <= i < |stack| ==> stack[i] != []) && Dense(segs) ==> Dense(Resolve(segs, stack).value)
  {
    if segs != [] {
      if segs[0] == DOT {
        if |segs| > 1 {
          ResolveShape(segs[1..], stack);
        }
      } else if segs[0] == DOTDOT {
        if |segs| > 1 {
          ResolveShape(segs[1..], stack[..|stack| - 1]);
        }
      } else {
        ResolveShape(segs[1..], stack + [segs[0]]);
        if |segs| == 1 {
          assert segs[1..] == [];
        }
      }
    }
  }

  lemma {:induction false} ResolveDotless(segs: seq<Bytes>, stack: seq<Bytes>)
    requires Dotless(segs)
    ensures Resolve(segs, stack) == Some(stack + segs)
  {
    if segs == [] {
      assert stack + segs == stack;
    } else {
      ResolveDotless(segs[1..], stack + [segs[0]]);
      assert stack + [segs[0]] + segs[1..] == stack + segs;
    }
  }

  /** The whole story of dot-segment removal on a rooted path: it refuses
      exactly the paths that climb above the root, and otherwise returns what
      the RFC prescribes, free of dot segments. */
  lemma RemoveDotsRefinesRfc(path: Bytes)
    requires Rooted(path)
    ensures RemoveDots(path).None? <==> ClimbsAboveRoot(Segments(path))
    ensures RemoveDots(path).Some? ==> RemoveDots(path).value == RfcRemove(path, [])
    ensures RemoveDots(path).Some? ==> Dotless(Segments(RemoveDots(path).value))
    ensures RemoveDots(path).Some? && path != [] ==> RemoveDots(path).value != []
  {
    PathOfSegments(path);
    ResolveFailsByDepth(Segments(path), []);
    ResolveIsRfc(Segments(path), []);
    RfcOnStack(path, []);
    if RemoveDots(path).Some? {
      ResolveShape(Segments(path), []);
      SegmentsOfPath(Resolve(Segments(path), []).value);
    }
  }

  /** Removing dot segments twice is removing them once. */
  lemma RemoveDotsIdempotent(path: Bytes)
    requires Rooted(path) && RemoveDots(path).Some?
    ensures RemoveDots(RemoveDots(path).value) == RemoveDots(path)
  {
    RemoveDotsRefinesRfc(path);
    RemoveDotsIdentity(RemoveDots(path).value);
  }

  lemma RemoveDotsIdentity(path: Bytes)
    requires Rooted(path) && Dotless(Segments(path))
    ensures RemoveDots(path) == Some(path)
  {
    ResolveDotless(Segments(path), []);
    assert [] + Segments(path) == Segments(path);
    PathOfSegments(path);
  }

  lemma NoDoubleSlashSplit(seg: Bytes, rest: Bytes)
    requires '/' !in seg && Rooted(rest)
    ensures NoDoubleSlash(['/'] + seg + rest) <==> (rest != [] ==> seg != []) && NoDoubleSlash(rest)
  {
    var p, n := ['/'] + seg + rest, 1 + |seg|;
    assert forall i :: 1 <= i < n ==> p[i] == seg[i - 1] && p[i] != '/';
    assert forall i :: n <= i < |p| ==> p[i] == rest[i - n];
    assert p[0] == '/' && (rest != [] ==> p[n] == '/' && p[n - 1 + 1] == '/');
    if NoDoubleSlash(p) {
      forall i | 0 <= i < |rest| - 1 && rest[i] == '/' ensures rest[i + 1] != '/' {
        assert p[i + n] == '/' && p[i + n + 1] == rest[i + 1];
      }
    }
  }

  lemma DenseCons(segs: seq<Bytes>)
    requires segs != []
    ensures Dense(segs) <==> (|segs| > 1 ==> segs[0] != []) && Dense(segs[1..])
  {
    if Dense(segs) {
      assert forall i :: 0 <= i < |segs[1..]| - 1 ==> segs[1..][i] == segs[i + 1];
    }
    if (|segs| > 1 ==> segs[0] != []) && Dense(segs[1..]) {
      assert forall i :: 1 <= i < |segs| - 1 ==> segs[i] == segs[1..][i - 1];
    }
  }

  lemma {:induction false} DenseIsNoDoubleSlash(segs: seq<Bytes>)
    requires Slashless(segs)
    ensures Dense(segs) <==> NoDoubleSlash(Path(segs))
  {
    if segs != [] {
      DenseIsNoDoubleSlash(segs[1..]);
      DenseCons(segs);
      NoDoubleSlashSplit(segs[0], Path(segs[1..]));
      assert |segs| > 1 <==> Path(segs[1..]) != [];
    }
  }

  lemma RemoveDotsNoDoubleSlash(path: Bytes)
    requires Rooted(path) && NoDoubleSlash(path) && RemoveDots(path).Some?
    ensures NoDoubleSlash(RemoveDots(path).value)
  {
    PathOfSegments(path);
    DenseIsNoDoubleSlash(Segments(path));
    ResolveShape(Segments(path), []);
    DenseIsNoDoubleSlash(Resolve(Segments(path), []).value);
  }
}
