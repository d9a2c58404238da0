/** The lines of a config file: what each of them says before anything is looked up. */
module ConfigLines {
  import opened Values

  /** A line of the file: without content, without a binding, or `keybind = key=action`. */
  datatype Line = Skipped | Malformed | Bind(key: string, action: string)

  const KEYBIND := "keybind"
  const MAX_LINE := 0x100000
  const BYTE_ORDER_MARK: char := '\U{FEFF}'

  // ---------------------------------------------------------------- blanks

  predicate IsBlank(c: char) { c == ' ' || c == '\t' }

  predicate Blank(s: string) { forall c | c in s :: c == ' ' || c == '\t' }

  /** Nothing to trim at either end. */
  predicate Neat(s: string) { s == "" || (!IsBlank(s[0]) && !IsBlank(s[|s| - 1])) }

  function TrimStart(s: string): string { if s != "" && IsBlank(s[0]) then TrimStart(s[1..]) else s }

  function TrimEnd(s: string): string { if s != "" && IsBlank(s[|s| - 1]) then TrimEnd(s[..|s| - 1]) else s }

  function Trim(s: string): string { TrimEnd(TrimStart(s)) }

  lemma {:induction false} StartCut(s: string) returns (left: string)
    ensures Blank(left) && s == left + TrimStart(s)
    ensures TrimStart(s) == "" || !IsBlank(TrimStart(s)[0])
  {
    left := "";
    if s != "" && IsBlank(s[0]) {
      var more := StartCut(s[1..]);
      left := [s[0]] + more;
    }
  }

  lemma {:induction false} EndCut(s: string) returns (right: string)
    ensures Blank(right) && s == TrimEnd(s) + right
    ensures TrimEnd(s) == "" || !IsBlank(TrimEnd(s)[|TrimEnd(s)| - 1])
  {
    right := "";
    if s != "" && IsBlank(s[|s| - 1]) {
      var more := EndCut(s[..|s| - 1]);
      right := more + [s[|s| - 1]];
    }
  }

  /** Trimming takes blanks from both ends and leaves a neat text. */
  lemma TrimCuts(s: string) returns (left: string, right: string)
    ensures Blank(left) && Blank(right) && Neat(Trim(s)) && s == left + Trim(s) + right
  {
    hide TrimStart, TrimEnd;
    left := StartCut(s);
    right := EndCut(TrimStart(s));
    if Trim(s) != "" { assert TrimStart(s)[0] == Trim(s)[0]; }
  }

  lemma BlankParts(s: string, t: string)
    ensures Blank(s + t) <==> Blank(s) && Blank(t)
  {
    if Blank(s + t) {
      forall c | c in s ensures c == ' ' || c == '\t' { assert c in s + t; }
      forall c | c in t ensures c == ' ' || c == '\t' { assert c in s + t; }
    }
  }

  lemma {:induction false} StartOf(left: string, s: string)
    requires Blank(left) && (s == "" || !IsBlank(s[0]))
    ensures TrimStart(left + s) == s
  {
    if left == "" {
      assert left + s == s;
    } else {
      assert (left + s)[1..] == left[1..] + s;
      BlankParts([left[0]], left[1..]);
      assert left == [left[0]] + left[1..] && left[0] in [left[0]];
      StartOf(left[1..], s);
    }
  }

  lemma {:induction false} EndOf(s: string, right: string)
    requires Blank(right) && (s == "" || !IsBlank(s[|s| - 1]))
    ensures TrimEnd(s + right) == s
  {
    if right == "" {
      assert s + right == s;
    } else {
      assert (s + right)[..|s + right| - 1] == s + right[..|right| - 1];
      BlankParts(right[..|right| - 1], [right[|right| - 1]]);
      assert right == right[..|right| - 1] + [right[|right| - 1]] && right[|right| - 1] in [right[|right| - 1]];
      EndOf(s, right[..|right| - 1]);
    }
  }

  lemma TrimOf(left: string, s: string, right: string)
    requires Blank(left) && Blank(right) && Neat(s)
    ensures Trim(left + s + right) == s
  {
    hide TrimStart, TrimEnd;
    if s == "" {
      assert left + s + right == (left + right) + "";
      StartOf(left + right, "");
      assert "" + "" == "";
      EndOf("", "");
    } else {
      assert left + s + right == left + (s + right);
      StartOf(left, s + right);
      EndOf(s, right);
    }
  }

  // ---------------------------------------------------------------- separators

  /** The first `c`, or the length. */
  function First(s: string, c: char): (i: nat)
    ensures i <= |s| && c !in s[..i] && (i < |s| ==> s[i] == c)
  {
    if s == "" || s[0] == c then 0
    else
      var i := 1 + First(s[1..], c);
      assert s[..i] == [s[0]] + s[1..][..i - 1];
      i
  }

  /** The last `c`, or the length. */
  function Last(s: string, c: char): (i: nat)
    ensures i <= |s| && (i < |s| ==> s[i] == c && c !in s[i + 1..])
    ensures i == |s| ==> c !in s
  {
    if s == "" then 0
    else
      var i := Last(s[1..], c);
      if i < |s| - 1 then
        assert s[i + 2..] == s[1..][i + 1..];
        i + 1
      else if s[0] == c then
        assert s[1..] == s[0 + 1..];
        0
      else |s|
  }

  lemma {:induction false} FirstOf(a: string, c: char, b: string)
    requires c !in a
    ensures First(a + [c] + b, c) == |a|
  {
    if a != "" {
      assert (a + [c] + b)[1..] == a[1..] + [c] + b;
      FirstOf(a[1..], c, b);
    }
  }

  lemma {:induction false} LastOf(a: string, c: char, b: string)
    requires c !in b
    ensures Last(a + [c] + b, c) == |a|
  {
    if a == "" {
      assert (a + [c] + b)[1..] == b;
    } else {
      assert (a + [c] + b)[1..] == a[1..] + [c] + b;
      LastOf(a[1..], c, b);
    }
  }

  // ---------------------------------------------------------------- one line

  function TrimReturns(s: string): string { if s != "" && s[|s| - 1] == '\r' then TrimReturns(s[..|s| - 1]) else s }

  /** The text of a line without carriage returns at its end, and without the byte order mark
      of the file. */
  function TextOfLine(first: bool, raw: string): string {
    var text := TrimReturns(raw);
    if first && text != "" && text[0] == BYTE_ORDER_MARK then text[1..] else text
  }

  predicate Returns(s: string) { forall c | c in s :: c == '\r' }

  lemma {:induction false} ReturnsCut(s: string) returns (cut: string)
    ensures Returns(cut) && s == TrimReturns(s) + cut
    ensures TrimReturns(s) != "" ==> TrimReturns(s)[|TrimReturns(s)| - 1] != '\r'
  {
    cut := "";
    if s != "" && s[|s| - 1] == '\r' {
      var more := ReturnsCut(s[..|s| - 1]);
      cut := more + [s[|s| - 1]];
    }
  }

  /** The carriage returns go from the end of a line, all of them, and then the byte order mark
      from the start of the first. */
  lemma TextIs(first: bool, raw: string) returns (full: string, cut: string)
    ensures raw == full + cut && Returns(cut) && (full != "" ==> full[|full| - 1] != '\r')
    ensures full == if first && full != "" && full[0] == BYTE_ORDER_MARK then [BYTE_ORDER_MARK] + TextOfLine(first, raw)
                    else TextOfLine(first, raw)
  {
    hide TrimReturns;
    full := TrimReturns(raw);
    cut := ReturnsCut(raw);
  }

  predicate Contentless(text: string) { Trim(text) == "" || Trim(text)[0] == '#' }

  /** What the value of a keybind setting says. */
  function LexBinding(value: string): Line {
    var j := Last(value, '=');
    if j == |value| then Malformed else Bind(Trim(value[..j]), Trim(value[j + 1..]))
  }

  function LexText(text: string): Line {
    if Contentless(text) then Skipped
    else
      var i := First(text, '=');
      if i == |text| || Trim(text[..i]) != KEYBIND then Malformed else LexBinding(Trim(text[i + 1..]))
  }

  function Lex(first: bool, raw: string): Line { LexText(TextOfLine(first, raw)) }

  /** The text reads `keybind = key=action`, with any blanks around its parts. The action is
      what follows the last equals sign, so that a key may hold one. */
  ghost predicate Spells(text: string, key: string, action: string) {
    exists before, between, value ::
      Blank(before) && Blank(between) && SpellsBinding(value, key, action)
      && text == (before + KEYBIND + between) + "=" + value
  }

  ghost predicate SpellsBinding(value: string, key: string, action: string) {
    && Neat(key) && Neat(action) && '=' !in action
    && exists a, b, c, d :: Blank(a) && Blank(b) && Blank(c) && Blank(d) && value == (a + key + b) + "=" + (c + action + d)
  }

  lemma TrimPadded(left: string, s: string, right: string)
    requires Blank(left) && Blank(right)
    ensures Trim(left + s + right) == Trim(s)
  {
    hide Trim, Neat;
    var a, b := TrimCuts(s);
    assert left + s + right == (left + a) + Trim(s) + (b + right);
    TrimOf(left + a, Trim(s), b + right);
  }

  /** Blanks around a binding do not change what it says. */
  lemma BindingPadded(left: string, value: string, right: string)
    requires Blank(left) && Blank(right)
    ensures LexBinding(left + value + right) == LexBinding(value)
  {
    hide Trim, Last, LexBinding, Blank;
    var j := Last(value, '=');
    BlankHasNoEquals(left);
    BlankHasNoEquals(right);
    if j == |value| {
      NoBinding(value);
      NoBinding(left + value + right);
    } else {
      var key, action := value[..j], value[j + 1..];
      assert value == key + "=" + action;
      assert left + value + right == (left + key) + "=" + (action + right);
      BindingAt(key, action);
      BindingAt(left + key, action + right);
      assert left + key + "" == left + key && "" + action + right == action + right;
      NothingBlank();
      TrimPadded(left, key, "");
      TrimPadded("", action, right);
    }
  }

  lemma BlankHasNoEquals(s: string)
    requires Blank(s)
    ensures '=' !in s
  {
  }

  lemma NothingBlank()
    ensures Blank("")
  {
  }

  lemma NoBinding(value: string)
    requires '=' !in value
    ensures LexBinding(value) == Malformed
  {
    hide Trim;
  }

  lemma BindingAt(key: string, action: string)
    requires '=' !in action
    ensures LexBinding(key + "=" + action) == Bind(Trim(key), Trim(action))
  {
    hide Trim, Last;
    var value := key + "=" + action;
    LastOf(key, '=', action);
    assert value[..|key|] == key && value[|key| + 1..] == action;
  }

  lemma BindingTrimmed(value: string)
    ensures LexBinding(Trim(value)) == LexBinding(value)
  {
    hide Trim, LexBinding;
    var left, right := TrimCuts(value);
    BindingPadded(left, Trim(value), right);
  }

  /** The parts of a value that was read as a binding. */
  lemma BindingSpelled(value: string)
    requires LexBinding(value).Bind?
    ensures SpellsBinding(value, LexBinding(value).key, LexBinding(value).action)
  {
    hide Trim, Neat, Blank, Last;
    var j := Last(value, '=');
    var a, b := TrimCuts(value[..j]);
    var c, d := TrimCuts(value[j + 1..]);
    var key, action := Trim(value[..j]), Trim(value[j + 1..]);
    assert forall e | e in action :: e in c + action + d;
    assert value == (a + key + b) + "=" + (c + action + d);
  }

  lemma SpelledBinding(value: string, key: string, action: string)
    requires SpellsBinding(value, key, action)
    ensures LexBinding(value) == Bind(key, action)
  {
    hide Trim, Neat, Last;
    var a, b, c, d :| Blank(a) && Blank(b) && Blank(c) && Blank(d) && value == (a + key + b) + "=" + (c + action + d);
    BindingAt(a + key + b, c + action + d);
    TrimOf(a, key, b);
    TrimOf(c, action, d);
  }

  lemma NotContentless(before: string, text: string)
    requires Blank(before) && text != "" && !IsBlank(text[0]) && text[0] != '#'
    ensures !Contentless(before + text)
  {
    hide TrimStart, TrimEnd;
    StartOf(before, text);
    var right := EndCut(text);
    assert text[0] in text && "" + right == right;
  }

  lemma SpelledLine(text: string, key: string, action: string)
    requires Spells(text, key, action)
    ensures LexText(text) == Bind(key, action)
  {
    hide Trim, SpellsBinding, Contentless, LexBinding, First;
    var before, between, value :| Blank(before) && Blank(between) && SpellsBinding(value, key, action)
      && text == (before + KEYBIND + between) + "=" + value;
    var name := before + KEYBIND + between;
    assert text == before + (KEYBIND + between + "=" + value);
    NotContentless(before, KEYBIND + between + "=" + value);
    FirstOf(name, '=', value);
    assert text[..|name|] == name && text[|name| + 1..] == value;
    TrimOf(before, KEYBIND, between);
    BindingTrimmed(value);
    SpelledBinding(value, key, action);
  }

  lemma LineSpelled(text: string)
    requires LexText(text).Bind?
    ensures Spells(text, LexText(text).key, LexText(text).action)
  {
    hide Trim, Neat, SpellsBinding, LexBinding, Contentless, First;
    var i := First(text, '=');
    var before, between := TrimCuts(text[..i]);
    BindingTrimmed(text[i + 1..]);
    BindingSpelled(text[i + 1..]);
    assert text == text[..i] + "=" + text[i + 1..];
    assert text == (before + KEYBIND + between) + "=" + text[i + 1..];
  }

  /** A line is a binding of a key to an action exactly when its text spells that binding. */
  lemma BindIff(first: bool, raw: string, key: string, action: string)
    ensures Lex(first, raw) == Bind(key, action) <==> Spells(TextOfLine(first, raw), key, action)
  {
    hide LexText, Spells, TextOfLine;
    var text := TextOfLine(first, raw);
    if LexText(text).Bind? { LineSpelled(text); }
    if Spells(text, key, action) { SpelledLine(text, key, action); }
  }

  // ---------------------------------------------------------------- whole files

  /** The lines of a file; a last line need not be ended. */
  function RawLines(content: string): seq<string> {
    if content == "" then []
    else
      var i := First(content, '\n');
      if i == |content| then [content] else [content[..i]] + RawLines(content[i + 1..])
  }

  /** The text of these lines, each of them ended. */
  function Ended(lines: seq<string>): string { if lines == [] then "" else lines[0] + "\n" + Ended(lines[1..]) }

  /** The lines hold no line break, and together are the file, with the last line ended or
      not. */
  lemma {:induction false} RawLinesAre(content: string)
    ensures forall i | 0 <= i < |RawLines(content)| :: '\n' !in RawLines(content)[i]
    ensures Ended(RawLines(content)) == if content != "" && content[|content| - 1] != '\n' then content + "\n" else content
  {
    hide Ended, First;
    EndedMore("", []);
    if content != "" {
      var i := First(content, '\n');
      EndedMore(content[..i], if i < |content| then RawLines(content[i + 1..]) else []);
      if i < |content| {
        RawLinesAre(content[i + 1..]);
        EndedAt(content, i);
      } else {
        assert content[..i] == content && content[|content| - 1] in content;
      }
    }
  }

  lemma EndedMore(line: string, lines: seq<string>)
    ensures Ended([line] + lines) == line + "\n" + Ended(lines) && Ended([]) == ""
    ensures Ended([line]) == line + "\n"
  {
    assert ([line] + lines)[1..] == lines;
  }

  lemma EndedAt(content: string, i: nat)
    requires i < |content| && content[i] == '\n'
    ensures var rest := content[i + 1..];
      && content == content[..i] + "\n" + rest && content + "\n" == content[..i] + "\n" + (rest + "\n")
      && (rest == "" ==> content[|content| - 1] == '\n') && (rest != "" ==> rest[|rest| - 1] == content[|content| - 1])
  {
  }

  /** A line that does not fit the reader's buffer. */
  predicate TooLong(raw: string) { |Encode(raw)| >= MAX_LINE }

  predicate HasLongLine(content: string) { exists i | 0 <= i < |RawLines(content)| :: TooLong(RawLines(content)[i]) }

  function Lines(content: string): (lines: seq<Line>)
    ensures |lines| == |RawLines(content)|
  {
    var raw := RawLines(content);
    seq(|raw|, i requires 0 <= i < |raw| => Lex(i == 0, raw[i]))
  }
}
