/** Lines of text, and literal block scalars with their chomping indicators. */
module YamlBlocks {
  import opened Values

  // ---------------------------------------------------------------- lines

  predicate OneLine(s: string) { forall i | 0 <= i < |s| :: s[i] != '\n' }

  predicate AllOneLine(lines: seq<string>) { forall i | 0 <= i < |lines| :: OneLine(lines[i]) }

  function LineEnd(s: string): (i: nat)
    ensures i <= |s| && (i < |s| ==> s[i] == '\n')
    ensures forall j | 0 <= j < i :: s[j] != '\n'
  {
    if s == "" || s[0] == '\n' then 0 else LineEnd(s[1..]) + 1
  }

  /** Cuts at every line break. */
  function Split(s: string): (lines: seq<string>)
    ensures lines != []
    decreases |s|
  {
    var i := LineEnd(s);
    if i == |s| then [s] else [s[..i]] + Split(s[i + 1..])
  }

  function Join(lines: seq<string>): string {
    if lines == [] then "" else if |lines| == 1 then lines[0] else lines[0] + "\n" + Join(lines[1..])
  }

  /** The text made of whole lines. */
  function Text(lines: seq<string>): string {
    if lines == [] then "" else lines[0] + "\n" + Text(lines[1..])
  }

  /** The lines of a text whose last line is ended too. */
  function LinesOf(s: string): Option<seq<string>>
    decreases |s|
  {
    if s == "" then Some([])
    else
      var i := LineEnd(s);
      if i == |s| then None
      else
        var more := LinesOf(s[i + 1..]);
        if more.None? then None else Some([s[..i]] + more.value)
  }

  lemma {:induction false} LineEndAt(line: string, rest: string)
    requires OneLine(line)
    ensures LineEnd(line + "\n" + rest) == |line|
  {
    if line == "" {
      assert (line + "\n" + rest)[0] == '\n';
    } else {
      assert (line + "\n" + rest)[1..] == line[1..] + "\n" + rest;
      LineEndAt(line[1..], rest);
    }
  }

  lemma {:induction false} LineEndOfLine(line: string)
    requires OneLine(line)
    ensures LineEnd(line) == |line|
  {
    if line != "" { LineEndOfLine(line[1..]); }
  }

  lemma {:induction false} LinesOfText(lines: seq<string>)
    requires AllOneLine(lines)
    ensures LinesOf(Text(lines)) == Some(lines)
  {
    hide LinesOf;
    if lines == [] {
      LinesOfNothing();
    } else {
      LinesOfText(lines[1..]);
      LinesOfLine(lines[0], Text(lines[1..]), lines[1..]);
      assert lines == [lines[0]] + lines[1..];
    }
  }

  lemma LinesOfNothing()
    ensures LinesOf("") == Some([])
  {
  }

  lemma LinesOfLine(line: string, rest: string, more: seq<string>)
    requires OneLine(line) && LinesOf(rest) == Some(more)
    ensures LinesOf(line + "\n" + rest) == Some([line] + more)
  {
    hide LineEnd, OneLine;
    LineEndAt(line, rest);
    assert (line + "\n" + rest)[..|line|] == line;
    assert (line + "\n" + rest)[|line| + 1..] == rest;
  }

  lemma {:induction false} JoinSplit(s: string)
    ensures Join(Split(s)) == s
    decreases |s|
  {
    hide LineEnd, Join;
    var i := LineEnd(s);
    if i < |s| {
      JoinSplit(s[i + 1..]);
      JoinMore(s[..i], Split(s[i + 1..]));
      assert s == s[..i] + "\n" + s[i + 1..];
    } else {
      JoinOne(s);
    }
  }

  lemma JoinOne(line: string)
    ensures Join([line]) == line
  {
  }

  lemma JoinMore(line: string, lines: seq<string>)
    requires lines != []
    ensures Join([line] + lines) == line + "\n" + Join(lines)
  {
    assert ([line] + lines)[1..] == lines;
  }

  lemma {:induction false} TextIsJoin(lines: seq<string>)
    requires lines != []
    ensures Text(lines) == Join(lines) + "\n"
  {
    if |lines| == 1 {
      assert Text(lines[1..]) == "";
    } else {
      TextIsJoin(lines[1..]);
      assert lines[0] + "\n" + (Join(lines[1..]) + "\n") == lines[0] + "\n" + Join(lines[1..]) + "\n";
    }
  }

  lemma {:induction false} TextConcat(a: seq<string>, b: seq<string>)
    ensures Text(a + b) == Text(a) + Text(b)
  {
    if a == [] {
      assert a + b == b;
    } else {
      assert (a + b)[1..] == a[1..] + b;
      TextConcat(a[1..], b);
    }
  }

  // ---------------------------------------------------------------- writing a block

  function Breaks(n: nat): string { if n == 0 then "" else "\n" + Breaks(n - 1) }

  /** How many line breaks end the text. */
  function Trailing(s: string): (t: nat)
    ensures t <= |s|
    ensures t < |s| ==> s[|s| - t - 1] != '\n'
  {
    if s != "" && s[|s| - 1] == '\n' then 1 + Trailing(s[..|s| - 1]) else 0
  }

  lemma {:induction false} BreaksEnd(n: nat)
    ensures Breaks(n) + "\n" == Breaks(n + 1)
  {
    if n > 0 { BreaksEnd(n - 1); }
  }

  lemma {:induction false} TrailingSplits(s: string)
    ensures s == Content(s) + Breaks(Trailing(s))
  {
    hide Breaks;
    if s != "" && s[|s| - 1] == '\n' {
      var init := s[..|s| - 1];
      TrailingSplits(init);
      BreaksEnd(Trailing(init));
      assert Content(init) == Content(s);
      Associate3(Content(init), Breaks(Trailing(init)), "\n");
      assert s == init + "\n";
    } else {
      NoBreaks();
      assert s[..|s|] == s;
    }
  }

  lemma NoBreaks()
    ensures Breaks(0) == ""
  {
  }

  predicate ForbiddenInBlock(c: char) {
    var n := c as int;
    n == 0x2028 || n == 0x2029 || n < 0x20 || n == 0x7F
  }

  predicate EndsInBlank(line: string) { line != "" && (line[|line| - 1] == ' ' || line[|line| - 1] == '\t') }

  predicate BlockLine(line: string) {
    !EndsInBlank(line) && forall c | c in line :: !ForbiddenInBlock(c)
  }

  predicate StartsAtOnce(line: string) { line != "" && line[0] != ' ' && line[0] != '\t' }

  /** The values a literal block may carry. */
  predicate BlockCandidate(value: string) {
    && '\r' !in value
    && ('\n' in value || '"' in value || '\\' in value)
    && StartsAtOnce(Split(value)[0])
    && forall line | line in Split(value) :: BlockLine(line)
  }

  function Indicator(trailing: nat): string {
    if trailing == 0 then "|-" else if trailing == 1 then "|" else "|+"
  }

  function Indented(lines: seq<string>): seq<string> {
    if lines == [] then [] else ["  " + lines[0]] + Indented(lines[1..])
  }

  function Empty(n: nat): seq<string> { if n == 0 then [] else [""] + Empty(n - 1) }

  function Content(value: string): string { value[..|value| - Trailing(value)] }

  /** The lines of a block below its indicator. */
  function BlockLines(value: string): seq<string> {
    var t := Trailing(value);
    Indented(Split(Content(value))) + Empty(if t < 2 then 0 else t - 1)
  }

  /** Writes a block: the indicator, the indented lines, and the breaks to keep. */
  method RenderBlock(value: string) returns (block: string)
    ensures block == Join([Indicator(Trailing(value))] + BlockLines(value)) && IsBlock(value, block)
  {
    hide Trailing, Split, Breaks, Join, Text, Indented, Empty, IsBlock;
    BlockShape(value);
    var trailing := Trailing(value);
    var lines := Split(value[..|value| - trailing]);
    block := WriteIndented(Indicator(trailing) + "\n", lines);
    var extra := if trailing < 2 then 0 else trailing - 1;
    ghost var written := block;
    NoBreaks();
    for i := 0 to extra
      invariant block == written + Breaks(i)
    {
      BreaksEnd(i);
      block := block + "\n";
    }
    BlockText(Indicator(trailing), lines, extra);
    TextIsJoin([Indicator(trailing)] + BlockLines(value));
    block := block[..|block| - 1];
  }

  method WriteIndented(start: string, lines: seq<string>) returns (text: string)
    ensures text == start + Text(Indented(lines))
  {
    text := start;
    for i := 0 to |lines|
      invariant text + Text(Indented(lines[i..])) == start + Text(Indented(lines))
    {
      assert lines[i..][1..] == lines[i + 1..];
      assert Text(Indented(lines[i..])) == "  " + lines[i] + "\n" + Text(Indented(lines[i + 1..])) by {
        assert Indented(lines[i..])[1..] == Indented(lines[i + 1..]);
      }
      text := text + "  " + lines[i] + "\n";
    }
    assert lines[|lines|..] == [];
  }

  lemma BlockText(indicator: string, lines: seq<string>, extra: nat)
    ensures Text([indicator] + (Indented(lines) + Empty(extra))) == indicator + "\n" + Text(Indented(lines)) + Breaks(extra)
  {
    var below := Indented(lines) + Empty(extra);
    assert ([indicator] + below)[1..] == below;
    TextConcat(Indented(lines), Empty(extra));
    TextOfEmpty(extra);
  }

  lemma {:induction false} TextOfEmpty(n: nat)
    ensures Text(Empty(n)) == Breaks(n)
  {
    if n > 0 {
      TextOfEmpty(n - 1);
      assert Empty(n)[1..] == Empty(n - 1);
    }
  }

  // ---------------------------------------------------------------- reading a block

  predicate Blank(line: string) { forall c | c in line :: c == ' ' }

  /** The lines that belong to a block under a key at the margin: section 8.1 of YAML 1.2.2. */
  function Extent(lines: seq<string>): (n: nat)
    ensures n <= |lines|
  {
    if lines != [] && (Blank(lines[0]) || lines[0][0] == ' ') then 1 + Extent(lines[1..]) else 0
  }

  function Spaces(line: string): (n: nat)
    ensures n <= |line|
  {
    if line != "" && line[0] == ' ' then 1 + Spaces(line[1..]) else 0
  }

  /** The indentation of the first line that is not blank. */
  function Indentation(lines: seq<string>): nat {
    if lines == [] then 0 else if Blank(lines[0]) then Indentation(lines[1..]) else Spaces(lines[0])
  }

  /** The content of the lines; a line that is not blank must not be indented less. */
  function Strip(lines: seq<string>, indent: nat): Option<seq<string>> {
    if lines == [] then Some([])
    else
      var more := Strip(lines[1..], indent);
      if more.None? then None
      else if indent <= Spaces(lines[0]) then Some([lines[0][indent..]] + more.value)
      else if Blank(lines[0]) then Some([""] + more.value)
      else None
  }

  function TrailingEmpty(lines: seq<string>): (n: nat)
    ensures n <= |lines|
  {
    if lines != [] && lines[|lines| - 1] == "" then 1 + TrailingEmpty(lines[..|lines| - 1]) else 0
  }

  datatype Chomping = Strips | Clips | Keeps

  function ChompingOf(header: string): Option<Chomping> {
    if header == "|" then Some(Clips) else if header == "|-" then Some(Strips)
    else if header == "|+" then Some(Keeps) else None
  }

  /** The text of stripped lines: section 8.1.1.2. */
  function Chomped(lines: seq<string>, chomping: Chomping): string {
    var t := TrailingEmpty(lines);
    var content := lines[..|lines| - t];
    if content == [] then (if chomping.Keeps? then Breaks(t) else "")
    else match chomping
      case Strips => Join(content)
      case Clips => Join(content) + "\n"
      case Keeps => Join(content) + "\n" + Breaks(t)
  }

  datatype Block = Block(value: string, length: nat)

  function ReadBlock(chomping: Chomping, lines: seq<string>): (b: Option<Block>)
    ensures b.Some? ==> b.value.length <= |lines|
  {
    var n := Extent(lines);
    var stripped := Strip(lines[..n], Indentation(lines[..n]));
    if stripped.None? then None else Some(Block(Chomped(stripped.value, chomping), n))
  }

  // ---------------------------------------------------------------- round trip

  /** What may follow a block: nothing, or a line that starts at the margin. */
  predicate AtMargin(lines: seq<string>) { lines == [] || (!Blank(lines[0]) && lines[0][0] != ' ') }

  lemma {:induction false} IndentedAt(lines: seq<string>)
    ensures |Indented(lines)| == |lines|
    ensures forall i | 0 <= i < |lines| :: Indented(lines)[i] == "  " + lines[i]
  {
    if lines != [] { IndentedAt(lines[1..]); }
  }

  lemma {:induction false} ExtentOfIndented(lines: seq<string>, rest: seq<string>)
    ensures Extent(Indented(lines) + rest) == |lines| + Extent(rest)
  {
    if lines == [] {
      assert Indented(lines) + rest == rest;
    } else {
      assert (Indented(lines) + rest)[1..] == Indented(lines[1..]) + rest;
      ExtentOfIndented(lines[1..], rest);
    }
  }

  lemma {:induction false} ExtentOfEmpty(n: nat, rest: seq<string>)
    requires AtMargin(rest)
    ensures Extent(Empty(n) + rest) == n && |Empty(n)| == n
  {
    if n == 0 {
      assert Empty(0) + rest == rest;
    } else {
      ExtentOfEmpty(n - 1, rest);
      EmptyBefore(n - 1, rest);
      ExtentAfterEmpty(Empty(n - 1) + rest);
    }
  }

  lemma EmptyBefore(n: nat, rest: seq<string>)
    ensures Empty(n + 1) + rest == [""] + (Empty(n) + rest)
  {
  }

  lemma ExtentAfterEmpty(lines: seq<string>)
    ensures Extent([""] + lines) == 1 + Extent(lines)
  {
    assert ([""] + lines)[1..] == lines;
  }

  lemma SpacesOfIndented(line: string)
    ensures Spaces("  " + line) == 2 + Spaces(line)
  {
    assert ("  " + line)[1..][1..] == line;
  }

  lemma {:induction false} StripEmpty(n: nat)
    ensures Strip(Empty(n), 2) == Some(Empty(n))
  {
    if n > 0 {
      assert Empty(n)[1..] == Empty(n - 1);
      StripEmpty(n - 1);
    }
  }

  lemma StripOneMore(line: string, rest: seq<string>, stripped: seq<string>)
    requires Strip(rest, 2) == Some(stripped)
    ensures Strip(["  " + line] + rest, 2) == Some([line] + stripped)
  {
    hide Spaces;
    SpacesOfIndented(line);
    assert (["  " + line] + rest)[1..] == rest && ("  " + line)[2..] == line;
  }

  lemma {:induction false} StripIndented(lines: seq<string>, n: nat)
    ensures Strip(Indented(lines) + Empty(n), 2) == Some(lines + Empty(n))
  {
    if lines == [] {
      StripEmpty(n);
      assert Indented(lines) + Empty(n) == Empty(n) && lines + Empty(n) == Empty(n);
    } else {
      StripIndented(lines[1..], n);
      assert Indented(lines) == ["  " + lines[0]] + Indented(lines[1..]);
      hide Indented, Empty, Strip;
      StripOneMore(lines[0], Indented(lines[1..]) + Empty(n), lines[1..] + Empty(n));
      assert ["  " + lines[0]] + Indented(lines[1..]) + Empty(n) == ["  " + lines[0]] + (Indented(lines[1..]) + Empty(n));
      assert [lines[0]] + (lines[1..] + Empty(n)) == lines + Empty(n);
    }
  }

  lemma {:induction false} TrailingOfEmpty(lines: seq<string>, n: nat)
    requires lines != [] && lines[|lines| - 1] != ""
    ensures TrailingEmpty(lines + Empty(n)) == n && |Empty(n)| == n
  {
    hide Empty, TrailingEmpty;
    if n == 0 {
      NoEmpty();
      NoTrailing(lines);
      assert lines + Empty(0) == lines;
    } else {
      EmptyEnd(n - 1);
      TrailingOfEmpty(lines, n - 1);
      TrailingAfter(lines + Empty(n - 1));
      assert lines + Empty(n) == lines + Empty(n - 1) + [""];
    }
  }

  lemma NoTrailing(lines: seq<string>)
    requires lines != [] && lines[|lines| - 1] != ""
    ensures TrailingEmpty(lines) == 0
  {
  }

  lemma TrailingAfter(lines: seq<string>)
    ensures TrailingEmpty(lines + [""]) == 1 + TrailingEmpty(lines)
  {
    assert (lines + [""])[..|lines|] == lines;
  }

  lemma {:induction false} EmptyEnd(n: nat)
    ensures Empty(n) + [""] == Empty(n + 1) && |Empty(n)| == n
  {
    if n > 0 { EmptyEnd(n - 1); }
  }

  lemma {:induction false} SplitLast(s: string)
    requires s != "" && s[|s| - 1] != '\n'
    ensures Split(s)[|Split(s)| - 1] != ""
    decreases |s|
  {
    var i := LineEnd(s);
    if i < |s| { SplitLast(s[i + 1..]); }
  }

  /** Splitting after a line is splitting off that line. */
  lemma SplitLine(line: string, rest: string)
    requires OneLine(line)
    ensures Split(line + "\n" + rest) == [line] + Split(rest)
  {
    var u := line + "\n" + rest;
    LineEndAt(line, rest);
    assert u[..|line|] == line && u[|line| + 1..] == rest;
  }

  lemma Associate<T>(a: seq<T>, b: seq<T>, c: seq<T>, d: seq<T>)
    ensures (a + b + c) + d == a + b + (c + d)
  {
  }

  lemma Associate3<T>(a: seq<T>, b: seq<T>, c: seq<T>)
    ensures a + b + c == a + (b + c)
  {
  }

  lemma SplitTrailingStep(s: string, t: nat, line: string, rest: string)
    requires OneLine(line) && s == line + "\n" + rest
    requires Split(rest + Breaks(t)) == Split(rest) + Empty(t)
    ensures Split(s + Breaks(t)) == Split(s) + Empty(t)
  {
    SplitLine(line, rest + Breaks(t));
    SplitLine(line, rest);
    Associate(line, "\n", rest, Breaks(t));
    Associate3([line], Split(rest), Empty(t));
  }

  lemma {:induction false} SplitTrailing(s: string, t: nat)
    ensures Split(s + Breaks(t)) == Split(s) + Empty(t)
    decreases |s|
  {
    var i := LineEnd(s);
    if i < |s| {
      assert s == s[..i] + "\n" + s[i + 1..];
      SplitTrailing(s[i + 1..], t);
      SplitTrailingStep(s, t, s[..i], s[i + 1..]);
    } else {
      SplitOneLine(s, t);
    }
  }

  lemma SplitOneLine(s: string, t: nat)
    requires OneLine(s)
    ensures Split(s + Breaks(t)) == Split(s) + Empty(t)
  {
    hide Split, Breaks, Empty;
    SplitAlone(s);
    if t == 0 {
      NoBreaks();
      NoEmpty();
      assert s + Breaks(0) == s;
    } else {
      SplitLine(s, Breaks(t - 1));
      SplitBreaks(t - 1);
      OneMoreBreak(t - 1);
      Associate3(s, "\n", Breaks(t - 1));
    }
  }

  lemma SplitAlone(s: string)
    requires OneLine(s)
    ensures Split(s) == [s]
  {
    LineEndOfLine(s);
  }

  lemma NoEmpty()
    ensures Empty(0) == []
  {
  }

  lemma OneMoreBreak(n: nat)
    ensures Breaks(n + 1) == "\n" + Breaks(n)
  {
  }

  lemma {:induction false} SplitBreaks(n: nat)
    ensures Split(Breaks(n)) == Empty(n + 1)
  {
    if n > 0 {
      SplitBreaks(n - 1);
      assert Breaks(n)[1..] == Breaks(n - 1);
    } else {
      assert Empty(1) == [""] + Empty(0);
    }
  }

  lemma SplitEmpty()
    ensures Split("") == [""]
  {
  }

  lemma BlockContent(value: string)
    requires BlockCandidate(value)
    ensures var lines := Split(Content(value));
      && StartsAtOnce(lines[0]) && lines[|lines| - 1] != "" && Content(value) != ""
      && forall l | l in lines :: BlockLine(l)
  {
    hide Split, Breaks, Empty, BlockLine, StartsAtOnce;
    var t := Trailing(value);
    TrailingSplits(value);
    SplitTrailing(Content(value), t);
    var lines := Split(Content(value));
    assert Split(value) == lines + Empty(t);
    assert Split(value)[0] == lines[0];
    forall l | l in lines ensures BlockLine(l) {
      assert l in Split(value);
    }
    SplitEmpty();
    EmptyNeverStarts();
    SplitLast(Content(value));
  }

  lemma EmptyNeverStarts()
    ensures !StartsAtOnce("")
  {
  }

  lemma IndentationOfBlock(lines: seq<string>, n: nat)
    requires lines != [] && StartsAtOnce(lines[0])
    ensures Indentation(Indented(lines) + Empty(n)) == 2
  {
    SpacesOfIndented(lines[0]);
    var first := "  " + lines[0];
    assert first[2] == lines[0][0] && first[2] in first;
    assert (Indented(lines) + Empty(n))[0] == first;
  }

  /** A literal block reads back as the value it was written for, whatever number of line
      breaks ends it, and leaves what follows it alone. */
  lemma BlockReads(value: string, rest: seq<string>)
    requires BlockCandidate(value) && AtMargin(rest)
    ensures ChompingOf(Indicator(Trailing(value))).Some?
    ensures ReadBlock(ChompingOf(Indicator(Trailing(value))).value, BlockLines(value) + rest) == Some(Block(value, |BlockLines(value)|))
  {
    hide Extent, Strip, Chomped, Indentation, BlockCandidate, BlockLine, Indented, Empty, Split, Content, Trailing;
    var t := Trailing(value);
    var n := if t < 2 then 0 else t - 1;
    var lines := Split(Content(value));
    BlockContent(value);
    BlockExtent(lines, n, rest);
    IndentationOfBlock(lines, n);
    StripIndented(lines, n);
    ChompedBlock(value);
    var below := Indented(lines) + Empty(n);
    assert BlockLines(value) == below;
    assert (below + rest)[..|below|] == below;
  }

  lemma BlockExtent(lines: seq<string>, n: nat, rest: seq<string>)
    requires AtMargin(rest)
    ensures Extent(Indented(lines) + Empty(n) + rest) == |Indented(lines) + Empty(n)|
  {
    assert Indented(lines) + Empty(n) + rest == Indented(lines) + (Empty(n) + rest);
    ExtentOfIndented(lines, Empty(n) + rest);
    ExtentOfEmpty(n, rest);
    IndentedAt(lines);
  }

  /** Stripping, clipping and keeping give back the breaks the indicator was chosen for. */
  lemma ChompedLines(lines: seq<string>, t: nat)
    requires lines != [] && lines[|lines| - 1] != ""
    ensures Chomped(lines + Empty(if t < 2 then 0 else t - 1), ChompingOf(Indicator(t)).value) == Join(lines) + Breaks(t)
  {
    hide Join, Empty, TrailingEmpty, Breaks;
    var n := if t < 2 then 0 else t - 1;
    TrailingOfEmpty(lines, n);
    assert (lines + Empty(n))[..|lines|] == lines;
    NoBreaks();
    OneMoreBreak(0);
    if t == 0 {
      assert Join(lines) + "" == Join(lines);
    } else if t >= 2 {
      OneMoreBreak(n);
      Associate3(Join(lines), "\n", Breaks(n));
    } else {
      assert "\n" + "" == "\n";
    }
  }

  lemma ChompedBlock(value: string)
    requires BlockCandidate(value)
    ensures var t := Trailing(value);
      Chomped(Split(Content(value)) + Empty(if t < 2 then 0 else t - 1), ChompingOf(Indicator(t)).value) == value
  {
    hide BlockCandidate, Chomped, Join, Split, Indicator, ChompingOf, Trailing, Content, Empty, Breaks;
    BlockContent(value);
    ChompedLines(Split(Content(value)), Trailing(value));
    JoinSplit(Content(value));
    TrailingSplits(value);
  }

  // ---------------------------------------------------------------- what a block looks like

  /** The text with two more spaces after every line break. */
  function Deepened(s: string): string {
    if s == "" then "" else if s[0] == '\n' then "\n  " + Deepened(s[1..]) else [s[0]] + Deepened(s[1..])
  }

  ghost predicate IsBlock(value: string, block: string) { exists content, t :: BlockOf(value, block, content, t) }

  /** The indicator for the number of line breaks that end the value; the lines of the rest,
      two spaces deeper; and all the breaks but one when the indicator keeps them. */
  ghost predicate BlockOf(value: string, block: string, content: string, t: nat) {
    && value == content + Breaks(t) && (content != "" ==> content[|content| - 1] != '\n')
    && block == (if t == 0 then "|-" else if t == 1 then "|" else "|+") + ("\n  " + Deepened(content))
                + (if t < 2 then "" else Breaks(t - 1))
  }

  lemma {:induction false} DeepenedLine(line: string, rest: string)
    requires OneLine(line)
    ensures Deepened(line + "\n" + rest) == line + "\n  " + Deepened(rest)
  {
    if line == "" {
      assert line + "\n" + rest == "\n" + rest;
      assert line + "\n  " + Deepened(rest) == "\n  " + Deepened(rest);
      assert ("\n" + rest)[1..] == rest;
    } else {
      assert (line + "\n" + rest)[1..] == line[1..] + "\n" + rest;
      DeepenedLine(line[1..], rest);
      assert [line[0]] + (line[1..] + "\n  " + Deepened(rest)) == line + "\n  " + Deepened(rest);
    }
  }

  lemma {:induction false} DeepenedAlone(line: string)
    requires OneLine(line)
    ensures Deepened(line) == line
  {
    if line != "" { DeepenedAlone(line[1..]); }
  }

  /** Indenting line by line is indenting after every break. */
  lemma {:induction false} IndentedText(s: string)
    ensures Join(Indented(Split(s))) == "  " + Deepened(s)
    decreases |s|
  {
    hide Join, Deepened, Split, Indented;
    var i := LineEnd(s);
    SplitsAt(s, i);
    if i == |s| {
      DeepenedAlone(s);
      JoinOne("  " + s);
    } else {
      IndentedText(s[i + 1..]);
      DeepenedLine(s[..i], s[i + 1..]);
      assert s == s[..i] + "\n" + s[i + 1..];
      IndentedSome(Split(s[i + 1..]));
      JoinMore("  " + s[..i], Indented(Split(s[i + 1..])));
      assert "  " + s[..i] + "\n" + ("  " + Deepened(s[i + 1..])) == "  " + (s[..i] + "\n  " + Deepened(s[i + 1..]));
    }
  }

  lemma SplitsAt(s: string, i: nat)
    requires i == LineEnd(s)
    ensures i == |s| ==> Split(s) == [s] && Indented(Split(s)) == ["  " + s]
    ensures i < |s| ==> Indented(Split(s)) == ["  " + s[..i]] + Indented(Split(s[i + 1..]))
  {
    if i < |s| { assert Split(s)[1..] == Split(s[i + 1..]); }
  }

  lemma IndentedSome(lines: seq<string>)
    requires lines != []
    ensures Indented(lines) != []
  {
  }

  lemma {:induction false} JoinEmpty(lines: seq<string>, n: nat)
    requires lines != []
    ensures Join(lines + Empty(n)) == Join(lines) + Breaks(n)
  {
    hide Join, Empty, Breaks;
    if |lines| == 1 {
      JoinBreaks(lines[0], n);
      assert lines == [lines[0]];
    } else {
      JoinEmpty(lines[1..], n);
      assert lines == [lines[0]] + lines[1..];
      Associate3([lines[0]], lines[1..], Empty(n));
      JoinMore(lines[0], lines[1..] + Empty(n));
      JoinMore(lines[0], lines[1..]);
      Associate3(lines[0] + "\n", Join(lines[1..]), Breaks(n));
    }
  }

  lemma {:induction false} JoinBreaks(line: string, n: nat)
    ensures Join([line] + Empty(n)) == Join([line]) + Breaks(n)
    decreases n
  {
    JoinOne(line);
    if n == 0 {
      assert [line] + Empty(0) == [line];
    } else {
      JoinBreaks("", n - 1);
      JoinOne("");
      assert "" + Breaks(n - 1) == Breaks(n - 1);
      JoinMore(line, Empty(n));
      assert Empty(n) == [""] + Empty(n - 1);
      Associate3(line, "\n", Breaks(n - 1));
    }
  }

  /** The lines written for a value are a block of it. */
  lemma BlockShape(value: string)
    ensures IsBlock(value, Join([Indicator(Trailing(value))] + BlockLines(value)))
  {
    hide Join, Empty, Breaks, Split, Indented, Deepened, Trailing;
    var t, content := Trailing(value), Content(value);
    var n := if t < 2 then 0 else t - 1;
    NoBreaks();
    TrailingSplits(value);
    BelowIndicator(content, n);
    IndentedSome(Split(content));
    assert BlockLines(value) == Indented(Split(content)) + Empty(n);
    JoinMore(Indicator(t), BlockLines(value));
    UnderIndicator(Indicator(t), Deepened(content), Breaks(n));
    assert BlockOf(value, Join([Indicator(t)] + BlockLines(value)), content, t);
  }

  lemma BelowIndicator(content: string, n: nat)
    ensures Join(Indented(Split(content)) + Empty(n)) == "  " + Deepened(content) + Breaks(n)
  {
    hide Join, Empty, Breaks, Split, Indented, Deepened;
    IndentedSome(Split(content));
    IndentedText(content);
    JoinEmpty(Indented(Split(content)), n);
  }

  lemma UnderIndicator(indicator: string, deep: string, kept: string)
    ensures indicator + "\n" + ("  " + deep + kept) == indicator + ("\n  " + deep) + kept
  {
    assert "\n" + ("  " + deep + kept) == "\n  " + deep + kept;
  }

  // ---------------------------------------------------------------- which values may be blocks

  /** No line ends in a blank and no character is one a block may not carry. */
  predicate FineChars(s: string) {
    && (forall i | 0 <= i < |s| && s[i] != '\n' :: !ForbiddenInBlock(s[i]))
    && (forall i | 0 <= i < |s| && (s[i] == ' ' || s[i] == '\t') :: i + 1 < |s| && s[i + 1] != '\n')
  }

  lemma {:induction false} FineLines(s: string)
    ensures (forall line | line in Split(s) :: BlockLine(line)) <==> FineChars(s)
    decreases |s|
  {
    hide ForbiddenInBlock;
    var i := LineEnd(s);
    if i < |s| {
      var line, rest := s[..i], s[i + 1..];
      FineLines(rest);
      assert forall l :: l in Split(s) <==> l == line || l in Split(rest);
      FineLine(line);
      FineApart(s, i);
    } else {
      FineLine(s);
    }
  }

  lemma FineLine(line: string)
    requires OneLine(line)
    ensures BlockLine(line) <==> FineChars(line)
  {
    hide ForbiddenInBlock;
    if FineChars(line) && line != "" { assert line[|line| - 1] in line; }
    if BlockLine(line) && line != "" {
      forall i | 0 <= i < |line| ensures !ForbiddenInBlock(line[i]) { assert line[i] in line; }
    }
  }

  lemma FineApart(s: string, i: nat)
    requires i < |s| && s[i] == '\n' && OneLine(s[..i])
    ensures FineChars(s) <==> FineChars(s[..i]) && FineChars(s[i + 1..])
  {
    hide ForbiddenInBlock;
    var line, rest := s[..i], s[i + 1..];
    if FineChars(s) {
      forall k | 0 <= k < |rest| ensures rest[k] == s[i + 1 + k] {}
    }
    if FineChars(line) && FineChars(rest) {
      forall k | 0 <= k < |s| && s[k] != '\n' ensures !ForbiddenInBlock(s[k]) {
        assert if k < i then s[k] == line[k] else s[k] == rest[k - i - 1];
      }
      forall k | 0 <= k < |s| && (s[k] == ' ' || s[k] == '\t') ensures k + 1 < |s| && s[k + 1] != '\n' {
        assert if k < i then s[k] == line[k] else s[k] == rest[k - i - 1];
      }
    }
  }

  /** The candidates, character by character: the value starts at once, holds a line break, a
      double quote or a backslash, has no blank before a line break or at its end, and no
      control character or separator. */
  lemma CandidateIff(value: string)
    ensures BlockCandidate(value) <==>
      && value != "" && value[0] != ' ' && value[0] != '\t' && value[0] != '\n'
      && ('\n' in value || '"' in value || '\\' in value)
      && (forall i | 0 <= i < |value| && (value[i] == ' ' || value[i] == '\t') :: i + 1 < |value| && value[i + 1] != '\n')
      && (forall i | 0 <= i < |value| && value[i] != '\n' :: value[i] as int >= 0x20 && value[i] as int !in {0x7F, 0x2028, 0x2029})
  {
    hide BlockLine;
    FineLines(value);
    var i := LineEnd(value);
    assert Split(value)[0] == value[..i];
  }
}
