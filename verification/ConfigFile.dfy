/** The block structure of the configuration file: settings, nested blocks and
    comments, one to a line. */
module ConfigFile {
  import opened Octets

  datatype Config = Config(level: Bytes, descr: Bytes, settings: map<Bytes, seq<Bytes>>, nested: seq<Config>)

  function EmptyConfig(level: Bytes, descr: Bytes): Config { Config(level, descr, map[], []) }

  const BLANKS: Bytes := [' ', '\t']

  // ----- str_utils

  function SkipAny(s: Bytes, chars: Bytes): (r: Bytes)
    ensures |r| <= |s| && r == s[|s| - |r|..]
    ensures r != [] ==> r[0] !in chars
    ensures forall i :: 0 <= i < |s| - |r| ==> s[i] in chars
  {
    if s != [] && s[0] in chars then SkipAny(s[1..], chars) else s
  }

  function DropAny(s: Bytes, chars: Bytes): (r: Bytes)
    ensures |r| <= |s| && r == s[..|r|]
    ensures r != [] ==> r[|r| - 1] !in chars
    ensures forall i :: |r| <= i < |s| ==> s[i] in chars
  {
    if s != [] && s[|s| - 1] in chars then DropAny(s[..|s| - 1], chars) else s
  }

  function Trim(s: Bytes, chars: Bytes): Bytes { DropAny(SkipAny(s, chars), chars) }

  // ----- lines

  datatype Line = Comment | Setting(key: Bytes, value: Bytes) | Open(key: Bytes, descr: Bytes) | Close | Bad

  // MakePair
  function MakePair(s: Bytes): (Bytes, Bytes) {
    var pos := FindAny(s, BLANKS, 0);
    (s[..pos], SkipAny(s[pos..], BLANKS))
  }

  // A line without its last byte's kind and the blanks around it.
  function Content(t: Bytes, last: Byte): Bytes { Trim(t, BLANKS + [last]) }

  function ByEnding(last: Byte, content: Bytes): Line {
    if last == ';' then if content == [] then Bad else Setting(MakePair(content).0, MakePair(content).1)
    else if last == '{' then if content == [] then Bad else Open(MakePair(content).0, MakePair(content).1)
    else if last == '}' then if content == [] then Close else Bad
    else Bad
  }

  /** What one non-empty line is, by its last byte; that byte and blanks are
      stripped from both ends. */
  function Classify(line: Bytes): Line {
    var t := Trim(line, BLANKS);
    if line != [] && line[0] == '#' then Comment
    else if t == [] then Bad
    else ByEnding(t[|t| - 1], Content(t, t[|t| - 1]))
  }

  function LineEnd(s: Bytes): nat
    ensures LineEnd(s) <= |s|
  {
    FindAny(s, ['\n'], 0)
  }

  function AfterLine(s: Bytes): (r: Bytes)
    requires s != []
    ensures |r| < |s|
  {
    if LineEnd(s) == |s| then [] else s[LineEnd(s) + 1..]
  }

  /** getline(ifs >> ws): the next line and what follows it. */
  function NextLine(input: Bytes): (r: Option<(Bytes, Bytes)>)
    ensures r.Some? ==> r.value.0 != [] && |r.value.1| < |input|
  {
    var s := SkipSpaces(input);
    if s == [] then None else Some((s[..LineEnd(s)], AfterLine(s)))
  }

  // ----- the recursive constructor

  datatype ParseResult = Failed | Parsed(config: Config, rest: Bytes)

  function AddSetting(c: Config, key: Bytes, value: Bytes): Config {
    c.(settings := c.settings[key := (if key in c.settings then c.settings[key] else []) + [value]])
  }

  function AddNested(c: Config, n: Config): Config { c.(nested := c.nested + [n]) }

  /** The rest of a block: up to its closing line, or to the end of the file
      for the top level, whose name is empty. */
  function Build(input: Bytes, c: Config): (r: ParseResult)
    ensures r.Parsed? ==> |r.rest| <= |input| && (c.level != [] ==> |r.rest| < |input|)
    decreases |input|
  {
    match NextLine(input)
    case None => if c.level == [] then Parsed(c, []) else Failed
    case Some(l) =>
      match Classify(l.0)
      case Comment => Build(l.1, c)
      case Setting(key, value) => Build(l.1, AddSetting(c, key, value))
      case Open(key, descr) =>
        var inner := Build(l.1, EmptyConfig(key, descr));
        if inner.Failed? then Failed else Build(inner.rest, AddNested(c, inner.config))
      case Close => if c.level == [] then Failed else Parsed(c, l.1)
      case Bad => Failed
  }

  /** FindSetting: the values of a key, in file order. */
  function FindSetting(c: Config, key: Bytes): seq<Bytes> { if key in c.settings then c.settings[key] else [] }

  // ----- a file with its position

  class InputFile {
    var left: Bytes

    constructor (content: Bytes)
      ensures left == content
    {
      left := content;
    }

    method GetLine() returns (line: Option<Bytes>)
      modifies this
      ensures match NextLine(old(left))
              case None => line == None && left == old(left)
              case Some(l) => line == Some(l.0) && left == l.1
    {
      var l := NextLine(left);
      if l.None? {
        return None;
      }
      left := l.value.1;
      line := Some(l.value.0);
    }
  }

  /** The constructor: `None` stands for the exception it throws. */
  method ReadConfig(ifs: InputFile, level: Bytes, descr: Bytes) returns (config: Option<Config>)
    modifies ifs
    ensures match Build(old(ifs.left), EmptyConfig(level, descr))
            case Failed => config == None
            case Parsed(c, rest) => config == Some(c) && (level != [] ==> ifs.left == rest)
    ensures |ifs.left| <= old(|ifs.left|)
    decreases |ifs.left|
  {
    hide NextLine;
    hide Classify;
    var c := EmptyConfig(level, descr);
    ghost var whole := Build(ifs.left, c);
    while true
      invariant c.level == level && |ifs.left| <= old(|ifs.left|)
      invariant Build(ifs.left, c) == whole
      decreases |ifs.left|
    {
      var line := ifs.GetLine();
      if line.None? {
        return if level == [] then Some(c) else None;
      }
      match Classify(line.value) {
        case Comment =>
        case Setting(key, value) =>
          c := AddSetting(c, key, value);
        case Open(key, innerDescr) =>
          OpenNamesBlock(line.value);
          var n := ReadConfig(ifs, key, innerDescr);
          if n.None? {
            return None;
          }
          c := AddNested(c, n.value);
        case Close =>
          return if level == [] then None else Some(c);
        case Bad =>
          return None;
      }
    }
  }

  lemma TrimStart(s: Bytes, chars: Bytes)
    ensures Trim(s, chars) != [] ==> Trim(s, chars)[0] !in chars
  {
    var skipped := SkipAny(s, chars);
    var r := DropAny(skipped, chars);
    assert r != [] ==> r[0] == skipped[0];
  }

  lemma OpenNamesBlock(line: Bytes)
    ensures Classify(line).Open? ==> Classify(line).key != []
  {
    hide Content;
    hide MakePair;
    hide Trim;
    var t := Trim(line, BLANKS);
    if t != [] {
      ContentStart(t, t[|t| - 1]);
    }
  }

  lemma ContentStart(t: Bytes, last: Byte)
    ensures Content(t, last) != [] ==> MakePair(Content(t, last)).0 != []
  {
    TrimStart(t, BLANKS + [last]);
    var content := Content(t, last);
    assert content != [] ==> content[0] !in BLANKS + [last];
    hide Content;
    if content != [] {
      var first := content[0];
      assert first in BLANKS ==> first in BLANKS + [last];
      assert first !in BLANKS;
      assert FindAny(content, BLANKS, 0) > 0;
    }
  }

  // ----- round trip

  /** A file as its author writes it: entries and blocks in order. */
  datatype Tree =
    | Nil
    | Entry(key: Bytes, value: Bytes, more: Tree)
    | Block(key: Bytes, descr: Bytes, inner: Tree, more: Tree)

  function EntryLine(key: Bytes, value: Bytes): Bytes { key + [' '] + value + [';'] }

  function OpenLine(key: Bytes, descr: Bytes): Bytes { key + [' '] + descr + [' ', '{'] }

  const CLOSE: Bytes := ['}']
  const NL: Bytes := ['\n']

  function Render(t: Tree): Bytes {
    match t
    case Nil => []
    case Entry(key, value, more) => EntryLine(key, value) + NL + Render(more)
    case Block(key, descr, inner, more) => OpenLine(key, descr) + NL + Render(inner) + (CLOSE + NL + Render(more))
  }

  // What the tree adds to a configuration.
  function Meaning(t: Tree, c: Config): (r: Config)
    ensures r.level == c.level
  {
    match t
    case Nil => c
    case Entry(key, value, more) => Meaning(more, AddSetting(c, key, value))
    case Block(key, descr, inner, more) => Meaning(more, AddNested(c, Meaning(inner, EmptyConfig(key, descr))))
  }

  /** Words that survive a line ended by `last`: a key without blanks that does
      not look like a comment, and a value on one line, neither of which has
      the ending byte where it would be stripped. */
  predicate PairOk(key: Bytes, value: Bytes, last: char) {
    && key != [] && key[0] != '#' && key[0] != last && (forall i :: 0 <= i < |key| ==> !IsSpace(key[i]))
    && '\n' !in value
    && if value == [] then key[|key| - 1] != last
       else value[0] !in BLANKS && value[|value| - 1] !in BLANKS && value[|value| - 1] != last
  }

  predicate TreeOk(t: Tree) {
    match t
    case Nil => true
    case Entry(key, value, more) => PairOk(key, value, ';') && TreeOk(more)
    case Block(key, descr, inner, more) => PairOk(key, descr, '{') && TreeOk(inner) && TreeOk(more)
  }

  lemma TrimExact(core: Bytes, tail: Bytes, chars: Bytes)
    requires core != [] && core[0] !in chars && core[|core| - 1] !in chars
    requires forall i :: 0 <= i < |tail| ==> tail[i] in chars
    ensures Trim(core + tail, chars) == core
  {
    var s := core + tail;
    assert s[0] == core[0] && SkipAny(s, chars) == s;
    var r := DropAny(s, chars);
    assert s[|core| - 1] == core[|core| - 1];
    assert forall i :: |core| <= i < |s| ==> s[i] == tail[i - |core|];
    assert |r| == |core|;
  }

  // The words of a line without its ending.
  function Words(key: Bytes, value: Bytes): Bytes { if value == [] then key else key + [' '] + value }

  lemma MakePairOfWords(key: Bytes, value: Bytes, last: char)
    requires PairOk(key, value, last)
    ensures MakePair(Words(key, value)) == (key, value)
  {
    assert forall k :: 0 <= k < |key| ==> key[k] !in BLANKS;
    if value == [] {
      assert FindAny(key, BLANKS, 0) == |key| && key[..|key|] == key && key[|key|..] == value;
    } else {
      TwoWords(key, value);
    }
  }

  lemma TwoWords(key: Bytes, value: Bytes)
    requires value != [] && value[0] !in BLANKS && forall k :: 0 <= k < |key| ==> key[k] !in BLANKS
    ensures MakePair(key + [' '] + value) == (key, value)
  {
    var s := key + [' '] + value;
    assert forall k :: 0 <= k < |key| ==> s[k] == key[k];
    FindAnyAt(s, BLANKS, 0, |key|);
    var rest := s[|key|..];
    assert s[..|key|] == key && rest == [' '] + value && rest[1..] == value;
    hide FindAny;
  }

  lemma WordsEnd(key: Bytes, value: Bytes, last: char)
    requires PairOk(key, value, last) && (last == ';' || last == '{')
    ensures var words := Words(key, value);
            words != [] && words[0] !in BLANKS + [last] && words[|words| - 1] !in BLANKS + [last]
  {
    var words := Words(key, value);
    assert words[0] == key[0] && words[|words| - 1] == if value == [] then key[|key| - 1] else value[|value| - 1];
  }

  lemma ClassifyLine(key: Bytes, value: Bytes, tail: Bytes, last: Byte)
    requires PairOk(key, value, last) && (last == ';' || last == '{')
    requires tail == [last] || tail == [' ', last]
    ensures Classify(key + [' '] + value + tail) == if last == ';' then Setting(key, value) else Open(key, value)
  {
    var line := key + [' '] + value + tail;
    var none: Bytes := [];
    assert line + none == line && line[0] == key[0] && line[|line| - 1] == last;
    TrimExact(line, none, BLANKS);
    LineContent(key, value, tail, last);
    ClassifyIs(line, last);
    hide Classify;
    WordsEnd(key, value, last);
    MakePairOfWords(key, value, last);
    hide Content;
    hide MakePair;
    hide Words;
  }

  lemma ClassifyIs(line: Bytes, last: Byte)
    requires line != [] && line[0] != '#' && line[|line| - 1] == last && Trim(line, BLANKS) == line
    ensures Classify(line) == ByEnding(last, Content(line, last))
  {
    hide ByEnding;
  }

  lemma LineContent(key: Bytes, value: Bytes, tail: Bytes, last: Byte)
    requires PairOk(key, value, last) && (last == ';' || last == '{')
    requires tail == [last] || tail == [' ', last]
    ensures Content(key + [' '] + value + tail, last) == Words(key, value)
  {
    var words := Words(key, value);
    var stripped := if value == [] then [' '] + tail else tail;
    assert key + [' '] + value + tail == words + stripped;
    WordsEnd(key, value, last);
    TrimExact(words, stripped, BLANKS + [last]);
    hide Trim;
    hide Words;
  }

  lemma NextLineIs(line: Bytes, rest: Bytes)
    requires line != [] && !IsSpace(line[0]) && '\n' !in line
    ensures NextLine(line + NL + rest) == Some((line, rest))
  {
    var s := line + NL + rest;
    assert s[0] == line[0] && SkipSpaces(s) == s;
    assert forall k :: 0 <= k < |line| ==> s[k] == line[k];
    FindAnyAt(s, ['\n'], 0, |line|);
    assert s[..|line|] == line && s[|line| + 1..] == rest;
  }

  lemma EntryIsRead(key: Bytes, value: Bytes, rest: Bytes, c: Config)
    requires PairOk(key, value, ';')
    ensures Build(EntryLine(key, value) + NL + rest, c) == Build(rest, AddSetting(c, key, value))
  {
    var line := EntryLine(key, value);
    assert line[0] == key[0] && '\n' !in line;
    NextLineIs(line, rest);
    ClassifyLine(key, value, [';'], ';');
    hide Classify;
    hide NextLine;
  }

  // How the enclosing block goes on.
  function AfterBlock(inner: ParseResult, c: Config): ParseResult {
    if inner.Failed? then Failed else Build(inner.rest, AddNested(c, inner.config))
  }

  lemma OpenIsRead(key: Bytes, descr: Bytes, rest: Bytes, c: Config)
    requires PairOk(key, descr, '{')
    ensures Build(OpenLine(key, descr) + NL + rest, c) == AfterBlock(Build(rest, EmptyConfig(key, descr)), c)
  {
    var line := OpenLine(key, descr);
    assert line[0] == key[0] && '\n' !in line;
    NextLineIs(line, rest);
    ClassifyLine(key, descr, [' ', '{'], '{');
    hide Classify;
    hide NextLine;
  }

  lemma CloseIsRead(rest: Bytes, c: Config)
    requires c.level != []
    ensures Build(CLOSE + NL + rest, c) == Parsed(c, rest)
  {
    NextLineIs(CLOSE, rest);
    CloseIsClose();
    hide Classify;
    hide NextLine;
  }

  lemma CloseIsClose()
    ensures Classify(CLOSE) == Close
  {
    CloseContent();
    ClassifyIs(CLOSE, CLOSE[0]);
    hide Classify;
    hide Content;
  }

  lemma CloseContent()
    ensures Trim(CLOSE, BLANKS) == CLOSE && Content(CLOSE, CLOSE[0]) == []
  {
    var none: Bytes := [];
    TrimExact(CLOSE, none, BLANKS);
    assert CLOSE + none == CLOSE;
    var chars := BLANKS + [CLOSE[0]];
    assert chars[2] == CLOSE[0];
    TrimAll(CLOSE, chars);
    hide Trim;
  }

  lemma {:induction false} TrimAll(s: Bytes, chars: Bytes)
    requires forall i :: 0 <= i < |s| ==> s[i] in chars
    ensures Trim(s, chars) == []
  {
    if s != [] {
      TrimAll(s[1..], chars);
    }
  }

  /** A rendered tree in front of anything is read as its meaning. */
  lemma {:induction false} RenderedIsRead(t: Tree, rest: Bytes, c: Config)
    requires TreeOk(t)
    ensures Build(Render(t) + rest, c) == Build(rest, Meaning(t, c))
    decreases t
  {
    hide Build;
    match t
    case Nil =>
      assert Render(t) + rest == rest;
    case Entry(key, value, more) =>
      EntryIsRead(key, value, Render(more) + rest, c);
      Assoc(EntryLine(key, value) + NL, Render(more), rest);
      RenderedIsRead(more, rest, AddSetting(c, key, value));
    case Block(key, descr, inner, more) =>
      var after := CLOSE + NL + Render(more);
      var inside := Meaning(inner, EmptyConfig(key, descr));
      BlockText(OpenLine(key, descr) + NL, Render(inner), CLOSE + NL, Render(more), rest);
      OpenIsRead(key, descr, Render(inner) + (CLOSE + NL + (Render(more) + rest)), c);
      RenderedIsRead(inner, CLOSE + NL + (Render(more) + rest), EmptyConfig(key, descr));
      CloseIsRead(Render(more) + rest, inside);
      RenderedIsRead(more, rest, AddNested(c, inside));
  }

  lemma BlockText(open: Bytes, inner: Bytes, close: Bytes, more: Bytes, rest: Bytes)
    ensures (open + inner + (close + more)) + rest == open + (inner + (close + (more + rest)))
  {
  }

  /** Config round trip: reading the rendering of a tree gives the tree. */
  lemma ConfigRoundTrip(t: Tree)
    requires TreeOk(t)
    ensures Build(Render(t), EmptyConfig([], [])) == Parsed(Meaning(t, EmptyConfig([], [])), [])
  {
    RenderedIsRead(t, [], EmptyConfig([], []));
    assert Render(t) + [] == Render(t);
    var none: Bytes := [];
    assert NextLine(none) == None;
    hide Render;
  }

  function ValuesOf(t: Tree, key: Bytes): seq<Bytes> {
    match t
    case Nil => []
    case Entry(k, value, more) => (if k == key then [value] else []) + ValuesOf(more, key)
    case Block(_, _, _, more) => ValuesOf(more, key)
  }

  /** And FindSetting gives a key's values of this level in file order. */
  lemma {:induction false} SettingsInFileOrder(t: Tree, c: Config, key: Bytes)
    ensures FindSetting(Meaning(t, c), key) == FindSetting(c, key) + ValuesOf(t, key)
    decreases t
  {
    match t
    case Nil =>
    case Entry(k, value, more) =>
      SettingsInFileOrder(more, AddSetting(c, k, value), key);
    case Block(k, descr, inner, more) =>
      SettingsInFileOrder(more, AddNested(c, Meaning(inner, EmptyConfig(k, descr))), key);
  }

  // ----- what is accepted

  function Lines(input: Bytes): seq<Line>
    decreases |input|
  {
    match NextLine(input)
    case None => []
    case Some(l) => [Classify(l.0)] + Lines(l.1)
  }

  /** No line is malformed, no block is closed that is not open, and all are
      closed at the end. */
  predicate WellNested(lines: seq<Line>, depth: nat) {
    if lines == [] then depth == 0
    else match lines[0]
      case Bad => false
      case Close => depth > 0 && WellNested(lines[1..], depth - 1)
      case Open(_, _) => WellNested(lines[1..], depth + 1)
      case _ => WellNested(lines[1..], depth)
  }

  lemma {:induction false} BlockConsumes(input: Bytes, c: Config, depth: nat)
    requires c.level != []
    ensures match Build(input, c)
            case Failed => !WellNested(Lines(input), depth + 1)
            case Parsed(_, rest) => WellNested(Lines(input), depth + 1) == WellNested(Lines(rest), depth)
    decreases |input|
  {
    hide NextLine;
    hide Classify;
    match NextLine(input)
    case None =>
    case Some(l) =>
      assert Lines(input)[1..] == Lines(l.1);
      match Classify(l.0) {
        case Comment => BlockConsumes(l.1, c, depth);
        case Setting(key, value) => BlockConsumes(l.1, AddSetting(c, key, value), depth);
        case Open(key, descr) =>
          OpenNamesBlock(l.0);
          BlockConsumes(l.1, EmptyConfig(key, descr), depth + 1);
          match Build(l.1, EmptyConfig(key, descr)) {
            case Failed =>
            case Parsed(n, rest) => BlockConsumes(rest, AddNested(c, n), depth);
          }
        case Close =>
        case Bad =>
      }
  }

  /** A file is accepted exactly when its lines are well nested. */
  lemma {:induction false} AcceptedIffWellNested(input: Bytes, c: Config)
    requires c.level == []
    ensures Build(input, c).Parsed? <==> WellNested(Lines(input), 0)
    decreases |input|
  {
    hide NextLine;
    hide Classify;
    match NextLine(input)
    case None =>
    case Some(l) =>
      assert Lines(input)[1..] == Lines(l.1);
      match Classify(l.0) {
        case Comment => AcceptedIffWellNested(l.1, c);
        case Setting(key, value) => AcceptedIffWellNested(l.1, AddSetting(c, key, value));
        case Open(key, descr) =>
          OpenNamesBlock(l.0);
          BlockConsumes(l.1, EmptyConfig(key, descr), 0);
          match Build(l.1, EmptyConfig(key, descr)) {
            case Failed =>
            case Parsed(n, rest) => AcceptedIffWellNested(rest, AddNested(c, n));
          }
        case Close =>
        case Bad =>
      }
  }

  function Opened(lines: seq<Line>): nat {
    if lines == [] then 0 else (if lines[0].Open? then 1 else 0) + Opened(lines[1..])
  }

  function Closed(lines: seq<Line>): nat {
    if lines == [] then 0 else (if lines[0].Close? then 1 else 0) + Closed(lines[1..])
  }

  lemma {:induction false} WellNestedCounts(lines: seq<Line>, depth: nat)
    requires WellNested(lines, depth)
    ensures depth + Opened(lines) == Closed(lines)
    decreases |lines|
  {
    if lines != [] {
      match lines[0]
      case Close => WellNestedCounts(lines[1..], depth - 1);
      case Open(_, _) => WellNestedCounts(lines[1..], depth + 1);
      case Comment => WellNestedCounts(lines[1..], depth);
      case Setting(_, _) => WellNestedCounts(lines[1..], depth);
      case Bad =>
    }
  }

  /** Unbalanced braces are rejected. */
  lemma UnbalancedIsRejected(input: Bytes)
    requires Opened(Lines(input)) != Closed(Lines(input))
    ensures Build(input, EmptyConfig([], [])).Failed?
  {
    AcceptedIffWellNested(input, EmptyConfig([], []));
    if WellNested(Lines(input), 0) {
      WellNestedCounts(Lines(input), 0);
    }
  }
}
