/** The editable document of a resource: one mapping entry per key, each scalar in the first
    style that survives reading back. */
module Resyaml {
  import opened Values
  import opened Resources
  import opened YamlScalars
  import opened YamlBlocks

  /** Which texts the YAML library, asked about them alone, resolves to themselves as
      strings. */
  type Resolver = string -> bool

  const MAX_IMPLICIT_KEY := 1024

  /** A plain key of this spelling does not name an entry: the library merges its value, which
      has to be a mapping, into the mapping around it. */
  const MERGE_KEY := "<<"

  predicate StartsPlain(c: char) {
    c != ' ' && c != '"' && c != '\'' && c != '#' && c != '|' && c != '>' && c != '%' && c != '@' && c != '`'
    && c != '&' && c != '*' && c != '!' && c != '[' && c != ']' && c != '{' && c != '}' && c != ','
  }

  /** The first colon that ends a key: one before a space or at the end of the line. */
  function ColonAt(line: string): (i: nat)
    ensures i <= |line|
  {
    if line == "" then 0
    else if line[0] == ':' && (|line| == 1 || line[1] == ' ') then 0
    else 1 + ColonAt(line[1..])
  }

  /** The form a plain scalar has on one line: section 7.3.3 of YAML 1.2.2. */
  predicate PlainForm(s: string) {
    && s != "" && StartsPlain(s[0]) && AllLiteral(s) && OneLine(s)
    && !(s[0] == '?' && (|s| == 1 || s[1] == ' '))
    && ColonAt(s) == |s|
  }

  /** A text that alone resolves to a string is written as a plain scalar is. */
  ghost predicate Sound(plain: Resolver) { forall s | plain(s) :: PlainForm(s) }

  // ---------------------------------------------------------------- reading

  predicate Skipped(line: string) {
    var n := Spaces(line);
    n == |line| || line[n] == '#'
  }

  /** A scalar that takes a whole text. */
  function ReadScalar(text: string, plain: Resolver): Option<string> {
    if text == "" then None
    else if text[0] == '"' then
      var q := ReadQuoted(text[1..]);
      if q.Some? && q.value.rest == "" then Some(q.value.value) else None
    else if plain(text) then Some(text)
    else None
  }

  datatype Item = Item(text: string, length: nat)

  /** A value and how many of the lines below its own it takes. */
  function ReadValue(text: string, below: seq<string>, plain: Resolver): (r: Option<Item>)
    ensures r.Some? ==> r.value.length <= |below|
  {
    if text != "" && text[0] == '|' then
      var chomping := ChompingOf(text);
      if chomping.None? then None
      else
        var b := ReadBlock(chomping.value, below);
        if b.Some? then Some(Item(b.value.value, b.value.length)) else None
    else
      var s := ReadScalar(text, plain);
      if s.Some? then Some(Item(s.value, 0)) else None
  }

  /** The key of an entry on one line, and the text after its colon. */
  function ReadImplicitKey(line: string, plain: Resolver): Option<Scalar> {
    if line != "" && line[0] == '"' then
      var q := ReadQuoted(line[1..]);
      if q.None? || |line| - |q.value.rest| > MAX_IMPLICIT_KEY then None else q
    else
      var i := ColonAt(line);
      if i <= MAX_IMPLICIT_KEY && plain(line[..i]) && line[..i] != MERGE_KEY then Some(Scalar(line[..i], line[i..])) else None
  }

  datatype Entry = Entry(key: string, value: string, length: nat)

  function AfterColon(text: string): Option<string> {
    if |text| >= 2 && text[0] == ':' && text[1] == ' ' then Some(text[2..]) else None
  }

  predicate Explicit(line: string) { |line| >= 2 && line[0] == '?' && line[1] == ' ' }

  function ReadEntry(lines: seq<string>, plain: Resolver): (e: Option<Entry>)
    requires lines != []
    ensures e.Some? ==> 0 < e.value.length <= |lines|
  {
    if Explicit(lines[0]) then
      var key := ReadScalar(lines[0][2..], plain);
      var text := if |lines| > 1 then AfterColon(lines[1]) else None;
      if key.None? || text.None? then None
      else
        var value := ReadValue(text.value, lines[2..], plain);
        if value.None? then None else Some(Entry(key.value, value.value.text, 2 + value.value.length))
    else
      var key := ReadImplicitKey(lines[0], plain);
      var text := if key.Some? then AfterColon(key.value.rest) else None;
      if text.None? then None
      else
        var value := ReadValue(text.value, lines[1..], plain);
        if value.None? then None else Some(Entry(key.value.value, value.value.text, 1 + value.value.length))
  }

  /** The entries of a document, no key twice. */
  function ReadLines(lines: seq<string>, found: map<string, string>, plain: Resolver): Option<map<string, string>>
    decreases |lines|
  {
    if lines == [] then Some(found)
    else if Skipped(lines[0]) then ReadLines(lines[1..], found, plain)
    else
      var e := ReadEntry(lines, plain);
      if e.None? || e.value.key in found then None
      else ReadLines(lines[e.value.length..], found[e.value.key := e.value.value], plain)
  }

  /** The string mapping a document spells. */
  function Parse(data: string, plain: Resolver): Option<map<string, string>> {
    var lines := LinesOf(data);
    if lines.None? || !AllLiteral(data) then None else ReadLines(lines.value, map[], plain)
  }

  // ---------------------------------------------------------------- writing

  /** The key is written as the library reads a merge. */
  predicate Merges(key: string, plain: Resolver) { key == MERGE_KEY && plain(key) }

  /** No key is taken for a merge. */
  predicate Mergeless(values: map<string, string>, plain: Resolver) { MERGE_KEY in values ==> !plain(MERGE_KEY) }

  function RenderKey(key: string, plain: Resolver): string {
    if plain(key) then key else QuoteString(key)
  }

  /** Whether a block, read back alone, is the value. */
  predicate BlockVerified(value: string, plain: Resolver) {
    Parse(YamlBlocks.Text(["k: " + Indicator(Trailing(value))] + BlockLines(value)), plain) == Some(map["k" := value])
  }

  /** The style ladder: plain, literal block, double quotes. */
  function ValueLines(value: string, plain: Resolver): (lines: seq<string>)
    ensures lines != []
  {
    if plain(value) then [value]
    else if BlockCandidate(value) && BlockVerified(value, plain) then [Indicator(Trailing(value))] + BlockLines(value)
    else [QuoteString(value)]
  }

  function EntryLines(key: string, value: string, plain: Resolver): (lines: seq<string>)
    ensures lines != []
  {
    var k, v := RenderKey(key, plain), ValueLines(value, plain);
    if |Encode(k)| > MAX_IMPLICIT_KEY then ["? " + k, ": " + v[0]] + v[1..]
    else [k + ": " + v[0]] + v[1..]
  }

  function BodyLines(keys: seq<string>, values: map<string, string>, plain: Resolver): seq<string>
    requires forall k | k in keys :: k in values
  {
    if keys == [] then [] else EntryLines(keys[0], values[keys[0]], plain) + BodyLines(keys[1..], values, plain)
  }

  // ---------------------------------------------------------------- keys and values read back

  lemma {:induction false} EncodeAtLeast(s: string)
    ensures |s| <= |Encode(s)|
  {
    if s != "" { EncodeAtLeast(s[1..]); }
  }

  lemma {:induction false} ColonFound(key: string, rest: string)
    requires ColonAt(key) == |key| && rest != "" && rest[0] == ':' && (|rest| == 1 || rest[1] == ' ')
    ensures ColonAt(key + rest) == |key|
  {
    if key != "" {
      assert (key + rest)[1..] == key[1..] + rest;
      ColonFound(key[1..], rest);
    } else {
      assert key + rest == rest;
    }
  }

  lemma KeyReads(key: string, rest: string, plain: Resolver)
    requires Sound(plain) && |Encode(RenderKey(key, plain))| <= MAX_IMPLICIT_KEY && !Merges(key, plain)
    requires |rest| >= 2 && rest[0] == ':' && rest[1] == ' '
    ensures ReadImplicitKey(RenderKey(key, plain) + rest, plain) == Some(Scalar(key, rest))
    ensures !Explicit(RenderKey(key, plain) + rest)
  {
    var k := RenderKey(key, plain);
    EncodeAtLeast(k);
    var line := k + rest;
    if plain(key) {
      assert PlainForm(key);
      ColonFound(key, rest);
      assert line[..|key|] == key && line[|key|..] == rest;
      assert line[0] == key[0];
    } else {
      QuoteReads(key, rest);
    }
  }

  lemma ScalarReads(s: string, plain: Resolver)
    requires Sound(plain)
    ensures plain(s) ==> ReadScalar(s, plain) == Some(s)
    ensures ReadScalar(QuoteString(s), plain) == Some(s)
  {
    QuoteReads(s, "");
    assert QuoteString(s) + "" == QuoteString(s);
    if plain(s) { assert PlainForm(s); }
  }

  lemma BlockValueReads(value: string, rest: seq<string>, plain: Resolver)
    requires BlockCandidate(value) && AtMargin(rest)
    ensures ReadValue(Indicator(Trailing(value)), BlockLines(value) + rest, plain) == Some(Item(value, |BlockLines(value)|))
  {
    hide BlockCandidate, BlockLines, ReadBlock, ReadValue, Trailing, AtMargin;
    BlockReads(value, rest);
    hide Indicator, ChompingOf;
    BlockRead(value, Indicator(Trailing(value)), BlockLines(value), rest, plain);
  }

  lemma BlockRead(value: string, indicator: string, lines: seq<string>, rest: seq<string>, plain: Resolver)
    requires indicator != "" && indicator[0] == '|' && ChompingOf(indicator).Some?
    requires ReadBlock(ChompingOf(indicator).value, lines + rest) == Some(Block(value, |lines|))
    ensures ReadValue(indicator, lines + rest, plain) == Some(Item(value, |lines|))
  {
    hide ReadBlock, ChompingOf;
  }

  lemma PlainReads(value: string, rest: seq<string>, plain: Resolver)
    requires Sound(plain) && plain(value)
    ensures ReadValue(value, [value][1..] + rest, plain) == Some(Item(value, 0))
  {
    hide ReadScalar;
    ScalarReads(value, plain);
    assert PlainForm(value);
  }

  lemma QuotedReads(value: string, rest: seq<string>, plain: Resolver)
    requires Sound(plain)
    ensures ReadValue(QuoteString(value), [QuoteString(value)][1..] + rest, plain) == Some(Item(value, 0))
  {
    hide ReadScalar, QuoteString, ReadQuoted, Sound;
    ScalarReads(value, plain);
    QuoteReads(value, "");
  }

  /** Every rung of the ladder reads back. */
  lemma ValueReads(value: string, rest: seq<string>, plain: Resolver)
    requires Sound(plain) && AtMargin(rest)
    ensures var v := ValueLines(value, plain);
      ReadValue(v[0], v[1..] + rest, plain) == Some(Item(value, |v| - 1))
  {
    hide ReadValue, BlockCandidate, BlockVerified, BlockLines, QuoteString, Sound, AtMargin, Indicator;
    if plain(value) {
      PlainReads(value, rest, plain);
    } else if BlockCandidate(value) && BlockVerified(value, plain) {
      BlockValueReads(value, rest, plain);
      assert ([Indicator(Trailing(value))] + BlockLines(value))[1..] == BlockLines(value);
    } else {
      QuotedReads(value, rest, plain);
    }
  }

  lemma ExplicitReads(key: string, value: string, k: string, v: seq<string>, rest: seq<string>, plain: Resolver)
    requires v != [] && ReadScalar(k, plain) == Some(key)
    requires ReadValue(v[0], v[1..] + rest, plain) == Some(Item(value, |v| - 1))
    ensures ReadEntry((["? " + k, ": " + v[0]] + v[1..]) + rest, plain) == Some(Entry(key, value, |v| + 1))
  {
    hide ReadScalar, ReadValue;
    var lines := (["? " + k, ": " + v[0]] + v[1..]) + rest;
    assert lines[0] == "? " + k && lines[0][2..] == k;
    assert lines[1] == ": " + v[0] && lines[1][2..] == v[0];
    assert lines[2..] == v[1..] + rest;
  }

  lemma ImplicitReads(key: string, value: string, k: string, v: seq<string>, rest: seq<string>, plain: Resolver)
    requires v != [] && !Explicit(k + (": " + v[0]))
    requires ReadImplicitKey(k + (": " + v[0]), plain) == Some(Scalar(key, ": " + v[0]))
    requires ReadValue(v[0], v[1..] + rest, plain) == Some(Item(value, |v| - 1))
    ensures ReadEntry(([k + ": " + v[0]] + v[1..]) + rest, plain) == Some(Entry(key, value, |v|))
  {
    hide ReadImplicitKey, ReadValue, Explicit;
    var lines := ([k + ": " + v[0]] + v[1..]) + rest;
    Associate3(k, ": ", v[0]);
    assert lines[0] == k + (": " + v[0]);
    assert (": " + v[0])[2..] == v[0];
    assert lines[1..] == v[1..] + rest;
  }

  lemma EntryReads(key: string, value: string, rest: seq<string>, plain: Resolver)
    requires Sound(plain) && AtMargin(rest) && !Merges(key, plain)
    ensures var e := EntryLines(key, value, plain);
      ReadEntry(e + rest, plain) == Some(Entry(key, value, |e|))
  {
    hide ValueLines, ReadEntry, ReadValue, ReadScalar, ReadImplicitKey, Encode, QuoteString, Sound, AtMargin, Merges, Explicit;
    var k, v := RenderKey(key, plain), ValueLines(value, plain);
    ValueReads(value, rest, plain);
    if |Encode(k)| > MAX_IMPLICIT_KEY {
      ScalarReads(key, plain);
      ExplicitReads(key, value, k, v, rest, plain);
    } else {
      KeyReads(key, ": " + v[0], plain);
      ImplicitReads(key, value, k, v, rest, plain);
    }
  }

  lemma MergeLine(rest: string, plain: Resolver)
    requires Sound(plain) && plain(MERGE_KEY) && |rest| >= 2 && rest[0] == ':' && rest[1] == ' '
    ensures ReadImplicitKey(MERGE_KEY + rest, plain) == None && !Explicit(MERGE_KEY + rest)
  {
    assert PlainForm(MERGE_KEY);
    ColonFound(MERGE_KEY, rest);
    assert (MERGE_KEY + rest)[..2] == MERGE_KEY && (MERGE_KEY + rest)[0] == '<';
  }

  /** An entry written under the merge key is not read as an entry. */
  lemma MergeFails(value: string, rest: seq<string>, plain: Resolver)
    requires Sound(plain) && plain(MERGE_KEY)
    ensures ReadEntry(EntryLines(MERGE_KEY, value, plain) + rest, plain) == None
  {
    hide ReadImplicitKey, Explicit, ValueLines;
    var v := ValueLines(value, plain);
    MergeKeyShort();
    MergeLine(": " + v[0], plain);
    Associate3(MERGE_KEY, ": ", v[0]);
    assert (EntryLines(MERGE_KEY, value, plain) + rest)[0] == MERGE_KEY + (": " + v[0]);
  }

  lemma MergeKeyShort()
    ensures |Encode(MERGE_KEY)| == 2
  {
    assert MERGE_KEY[1..][1..] == "";
  }

  /** An entry starts at the margin with something that is not a comment. */
  lemma EntryStarts(key: string, value: string, plain: Resolver)
    requires Sound(plain)
    ensures var first := EntryLines(key, value, plain)[0];
      first != "" && first[0] != ' ' && first[0] != '#'
  {
    if plain(key) { assert PlainForm(key); }
    QuoteReads(key, "");
  }

  // ---------------------------------------------------------------- whole documents

  predicate Comment(line: string) { line != "" && line[0] == '#' && CleanLine(line) }

  predicate Comments(lines: seq<string>) { forall i | 0 <= i < |lines| :: Comment(lines[i]) }

  /** Comments do not change what is read. */
  lemma {:induction false} CommentsSkipped(lines: seq<string>, rest: seq<string>, found: map<string, string>, plain: Resolver)
    requires Comments(lines)
    ensures ReadLines(lines + rest, found, plain) == ReadLines(rest, found, plain)
  {
    if lines == [] {
      assert lines + rest == rest;
    } else {
      assert (lines + rest)[1..] == lines[1..] + rest;
      CommentsSkipped(lines[1..], rest, found, plain);
    }
  }

  ghost predicate Distinct(keys: seq<string>) { forall i, j | 0 <= i < j < |keys| :: keys[i] != keys[j] }

  function Chosen(keys: seq<string>, values: map<string, string>): map<string, string>
    requires forall k | k in keys :: k in values
  {
    map k | k in keys :: values[k]
  }

  lemma EntryTaken(key: string, value: string, rest: seq<string>, found: map<string, string>, plain: Resolver)
    requires Sound(plain) && AtMargin(rest) && key !in found && !Merges(key, plain)
    ensures ReadLines(EntryLines(key, value, plain) + rest, found, plain) == ReadLines(rest, found[key := value], plain)
  {
    hide EntryLines, ReadEntry;
    var e := EntryLines(key, value, plain);
    EntryStarts(key, value, plain);
    EntryReads(key, value, rest, plain);
    assert (e + rest)[0] == e[0];
    assert (e + rest)[|e|..] == rest;
  }

  lemma MergeStops(value: string, rest: seq<string>, found: map<string, string>, plain: Resolver)
    requires Sound(plain) && plain(MERGE_KEY)
    ensures ReadLines(EntryLines(MERGE_KEY, value, plain) + rest, found, plain) == None
  {
    hide EntryLines, ReadEntry;
    var e := EntryLines(MERGE_KEY, value, plain);
    EntryStarts(MERGE_KEY, value, plain);
    MergeFails(value, rest, plain);
    assert (e + rest)[0] == e[0];
  }

  /** A body with a merge key in it cannot be read. */
  lemma {:induction false} BodyFails(keys: seq<string>, values: map<string, string>, rest: seq<string>,
                                     found: map<string, string>, plain: Resolver)
    requires Sound(plain) && Comments(rest) && Distinct(keys) && MERGE_KEY in keys && plain(MERGE_KEY)
    requires forall k | k in keys :: k in values && k !in found
    ensures ReadLines(BodyLines(keys, values, plain) + rest, found, plain) == None
  {
    hide ReadLines, Sound, Comments, Distinct, EntryLines;
    if keys[0] == MERGE_KEY {
      Associate3(EntryLines(keys[0], values[keys[0]], plain), BodyLines(keys[1..], values, plain), rest);
      MergeStops(values[MERGE_KEY], BodyLines(keys[1..], values, plain) + rest, found, plain);
    } else {
      BodyStep(keys, values, rest, found, plain);
      DistinctRest(keys);
      BodyFails(keys[1..], values, rest, found[keys[0] := values[keys[0]]], plain);
    }
  }

  lemma {:induction false} BodyReads(keys: seq<string>, values: map<string, string>, rest: seq<string>,
                                     found: map<string, string>, plain: Resolver)
    requires Sound(plain) && Comments(rest) && Distinct(keys)
    requires forall k | k in keys :: k in values && k !in found && !Merges(k, plain)
    ensures ReadLines(BodyLines(keys, values, plain) + rest, found, plain) == Some(found + Chosen(keys, values))
  {
    hide BodyLines, ReadLines, Sound, Comments, Chosen, Distinct;
    if keys == [] {
      BodyOfNothing(values, rest, found, plain);
    } else {
      ChosenStep(keys, values, found);
      BodyStep(keys, values, rest, found, plain);
      DistinctRest(keys);
      BodyReads(keys[1..], values, rest, found[keys[0] := values[keys[0]]], plain);
    }
  }

  lemma DistinctRest(keys: seq<string>)
    requires keys != [] && Distinct(keys)
    ensures Distinct(keys[1..]) && forall k | k in keys[1..] :: k in keys && k != keys[0]
  {
  }

  lemma BodyOfNothing(values: map<string, string>, rest: seq<string>, found: map<string, string>, plain: Resolver)
    requires Comments(rest)
    ensures ReadLines(BodyLines([], values, plain) + rest, found, plain) == Some(found + Chosen([], values))
  {
    assert BodyLines([], values, plain) + rest == rest + [];
    CommentsSkipped(rest, [], found, plain);
    assert found + Chosen([], values) == found;
  }

  lemma ChosenStep(keys: seq<string>, values: map<string, string>, found: map<string, string>)
    requires keys != [] && forall k | k in keys :: k in values
    ensures found[keys[0] := values[keys[0]]] + Chosen(keys[1..], values) == found + Chosen(keys, values)
  {
  }

  lemma BodyStep(keys: seq<string>, values: map<string, string>, rest: seq<string>, found: map<string, string>, plain: Resolver)
    requires Sound(plain) && Comments(rest) && keys != []
    requires (forall k | k in keys :: k in values) && keys[0] !in found && !Merges(keys[0], plain)
    ensures ReadLines(BodyLines(keys, values, plain) + rest, found, plain)
         == ReadLines(BodyLines(keys[1..], values, plain) + rest, found[keys[0] := values[keys[0]]], plain)
  {
    hide EntryLines, ReadLines, AtMargin, Sound, Comments;
    BodyAtMargin(keys[1..], values, rest, plain);
    Associate3(EntryLines(keys[0], values[keys[0]], plain), BodyLines(keys[1..], values, plain), rest);
    EntryTaken(keys[0], values[keys[0]], BodyLines(keys[1..], values, plain) + rest, found, plain);
  }

  lemma BodyAtMargin(keys: seq<string>, values: map<string, string>, rest: seq<string>, plain: Resolver)
    requires Sound(plain) && Comments(rest) && forall k | k in keys :: k in values
    ensures AtMargin(BodyLines(keys, values, plain) + rest)
  {
    if keys == [] {
      assert BodyLines(keys, values, plain) + rest == rest;
      if rest != [] { assert Comment(rest[0]) && rest[0][0] in rest[0]; }
    } else {
      EntryStarts(keys[0], values[keys[0]], plain);
      var first := EntryLines(keys[0], values[keys[0]], plain)[0];
      assert (BodyLines(keys, values, plain) + rest)[0] == first && first[0] in first;
    }
  }

  // ---------------------------------------------------------------- what may stand in a document

  predicate CleanLine(line: string) { OneLine(line) && AllLiteral(line) }

  predicate Clean(lines: seq<string>) { forall i | 0 <= i < |lines| :: CleanLine(lines[i]) }

  lemma {:induction false} CleanText(lines: seq<string>)
    requires Clean(lines)
    ensures AllLiteral(YamlBlocks.Text(lines)) && LinesOf(YamlBlocks.Text(lines)) == Some(lines)
  {
    LinesOfText(lines);
    CleanLiteral(lines);
  }

  lemma {:induction false} CleanLiteral(lines: seq<string>)
    requires Clean(lines)
    ensures AllLiteral(YamlBlocks.Text(lines))
  {
    if lines != [] {
      assert CleanLine(lines[0]);
      CleanLiteral(lines[1..]);
    }
  }

  lemma {:induction false} LiteralLines(lines: seq<string>)
    requires AllLiteral(YamlBlocks.Text(lines))
    ensures forall i | 0 <= i < |lines| :: AllLiteral(lines[i])
  {
    if lines != [] {
      var text := YamlBlocks.Text(lines);
      forall c | c in lines[0] ensures Literal(c) { assert c in text; }
      forall c | c in YamlBlocks.Text(lines[1..]) ensures Literal(c) { assert c in text; }
      LiteralLines(lines[1..]);
    }
  }

  lemma QuoteClean(value: string)
    ensures CleanLine(QuoteString(value))
  {
    QuoteLiteral(value);
  }

  lemma {:induction false} SplitOneLines(s: string)
    ensures AllOneLine(Split(s))
    decreases |s|
  {
    var i := LineEnd(s);
    if i < |s| { SplitOneLines(s[i + 1..]); }
  }

  lemma {:induction false} EmptyOneLines(n: nat)
    ensures AllOneLine(Empty(n))
  {
    if n > 0 { EmptyOneLines(n - 1); }
  }

  lemma BlockOneLines(value: string)
    ensures AllOneLine(BlockLines(value))
  {
    var lines := Split(Content(value));
    SplitOneLines(Content(value));
    IndentedAt(lines);
    EmptyOneLines(if Trailing(value) < 2 then 0 else Trailing(value) - 1);
  }

  lemma BlockClean(value: string, plain: Resolver)
    requires BlockCandidate(value) && BlockVerified(value, plain)
    ensures Clean([Indicator(Trailing(value))] + BlockLines(value))
  {
    hide BlockCandidate, BlockLines, Trailing;
    var doc := ["k: " + Indicator(Trailing(value))] + BlockLines(value);
    LiteralLines(doc);
    BlockOneLines(value);
    forall i | 0 <= i < |BlockLines(value)| ensures CleanLine(BlockLines(value)[i]) {
      assert doc[i + 1] == BlockLines(value)[i];
    }
  }

  lemma ValueClean(value: string, plain: Resolver)
    requires Sound(plain)
    ensures Clean(ValueLines(value, plain))
  {
    if plain(value) {
      assert PlainForm(value);
    } else if BlockCandidate(value) && BlockVerified(value, plain) {
      BlockClean(value, plain);
    } else {
      QuoteClean(value);
    }
  }

  lemma EntryClean(key: string, value: string, plain: Resolver)
    requires Sound(plain)
    ensures Clean(EntryLines(key, value, plain))
  {
    var k, v := RenderKey(key, plain), ValueLines(value, plain);
    if plain(key) { assert PlainForm(key); } else { QuoteClean(key); }
    ValueClean(value, plain);
    assert CleanLine(k) && CleanLine(v[0]);
    hide ValueLines, RenderKey;
    KeyLineClean(k, v[0]);
  }

  lemma KeyLineClean(k: string, v: string)
    requires CleanLine(k) && CleanLine(v)
    ensures CleanLine("? " + k) && CleanLine(": " + v) && CleanLine(k + ": " + v)
  {
  }

  lemma {:induction false} BodyClean(keys: seq<string>, values: map<string, string>, plain: Resolver)
    requires Sound(plain) && forall k | k in keys :: k in values
    ensures Clean(BodyLines(keys, values, plain))
  {
    if keys != [] {
      EntryClean(keys[0], values[keys[0]], plain);
      BodyClean(keys[1..], values, plain);
    }
  }

  /** Printing and parsing are inverse: for every mapping, whatever its keys and values, and
      with any comments before and after it, the document parses to that mapping, unless a
      key is taken for a merge; then it does not parse. */
  lemma DocumentRoundTrip(keys: seq<string>, values: map<string, string>, header: seq<string>, footer: seq<string>, plain: Resolver)
    requires Sound(plain) && IsListing(keys, values.Keys) && Comments(header) && Comments(footer)
    ensures Parse(YamlBlocks.Text(header + BodyLines(keys, values, plain) + footer), plain) ==
            if Mergeless(values, plain) then Some(values) else None
  {
    hide IsListing, ReadLines, BodyLines, Sound, Comments, Clean, AllLiteral, LinesOf, Distinct, Chosen;
    ListingDistinct(keys, values.Keys);
    ListingCovers(keys, values);
    ListingHas(keys, values);
    var body := BodyLines(keys, values, plain);
    BodyClean(keys, values, plain);
    DocumentClean(header, body, footer);
    CleanText(header + body + footer);
    Associate3(header, body, footer);
    CommentsSkipped(header, body + footer, map[], plain);
    if Mergeless(values, plain) {
      BodyReads(keys, values, footer, map[], plain);
    } else {
      BodyFails(keys, values, footer, map[], plain);
    }
  }

  lemma ListingHas(keys: seq<string>, values: map<string, string>)
    requires IsListing(keys, values.Keys)
    ensures forall k :: k in keys <==> k in values
  {
  }

  lemma ListingDistinct(keys: seq<string>, all: set<string>)
    requires IsListing(keys, all)
    ensures Distinct(keys)
  {
    forall i, j | 0 <= i < j < |keys| ensures keys[i] != keys[j] {
      ListedOnce(keys, all, j);
      assert keys[..j][i] == keys[i];
    }
  }

  lemma ListingCovers(keys: seq<string>, values: map<string, string>)
    requires IsListing(keys, values.Keys)
    ensures (forall k | k in keys :: k in values) && map[] + Chosen(keys, values) == values
  {
  }

  /** A mapping that is written and cannot be read back: its only key is the merge key. */
  lemma MergeKeyFails(value: string, plain: Resolver)
    requires Sound(plain) && plain(MERGE_KEY)
    ensures var values := map[MERGE_KEY := value];
      Parse(YamlBlocks.Text(BodyLines([MERGE_KEY], values, plain)), plain) == None
  {
    hide Parse, BodyLines, Sound;
    var values := map[MERGE_KEY := value];
    assert IsListing([MERGE_KEY], values.Keys);
    DocumentRoundTrip([MERGE_KEY], values, [], [], plain);
    NoComments(BodyLines([MERGE_KEY], values, plain));
  }

  lemma DocumentClean(header: seq<string>, body: seq<string>, footer: seq<string>)
    requires Comments(header) && Clean(body) && Comments(footer)
    ensures Clean(header + body + footer)
  {
  }

  /** The second rung holds: a candidate that may stand literally always reads back alone, so
      it is written as a block whenever it is not plain. */
  lemma CandidateVerifies(value: string, plain: Resolver)
    requires Sound(plain) && plain("k") && BlockCandidate(value) && AllLiteral(value)
    ensures BlockVerified(value, plain)
  {
    hide BlockCandidate, BlockVerified, BlockLines, ReadValue, ReadImplicitKey, Clean, AllLiteral, Sound;
    BlockValueReads(value, [], plain);
    BlockDocumentClean(value);
    BlockKeyReads(Indicator(Trailing(value)), plain);
    assert ([Indicator(Trailing(value))] + BlockLines(value))[1..] == BlockLines(value);
    VerifiesAlone(value, plain);
  }

  lemma VerifiesAlone(value: string, plain: Resolver)
    requires var indicator := Indicator(Trailing(value));
      && ReadValue(indicator, ([indicator] + BlockLines(value))[1..] + [], plain) == Some(Item(value, |BlockLines(value)|))
      && ReadImplicitKey("k" + (": " + indicator), plain) == Some(Scalar("k", ": " + indicator))
      && !Explicit("k" + (": " + indicator)) && Clean(["k: " + indicator] + BlockLines(value))
    ensures BlockVerified(value, plain)
  {
    hide BlockLines, ReadValue, ReadImplicitKey, Clean, Parse, Indicator, Trailing, Explicit;
    AloneVerifies(value, Indicator(Trailing(value)), BlockLines(value), plain);
  }

  /** Every character but a line break is in one of the lines. */
  lemma {:induction false} InSomeLine(s: string, c: char)
    requires c in s && c != '\n'
    ensures exists i :: 0 <= i < |Split(s)| && c in Split(s)[i]
    decreases |s|
  {
    hide LineEnd;
    var i := LineEnd(s);
    if c in s[..i] {
      assert Split(s)[0] == s[..i];
    } else {
      assert s == s[..i] + "\n" + s[i + 1..];
      InSomeLine(s[i + 1..], c);
      var j :| 0 <= j < |Split(s[i + 1..])| && c in Split(s[i + 1..])[j];
      assert Split(s)[j + 1] == Split(s[i + 1..])[j];
    }
  }

  /** A candidate holds neither of the two separators. */
  lemma CandidateLiteral(value: string)
    requires BlockCandidate(value) && AllPrintable(value) && '\U{0085}' !in value
    ensures AllLiteral(value)
  {
    forall c | c in value ensures Literal(c) {
      if c != '\n' {
        InSomeLine(value, c);
        var i :| 0 <= i < |Split(value)| && c in Split(value)[i];
        assert BlockLine(Split(value)[i]) && !ForbiddenInBlock(c);
      }
    }
  }

  /** A block that reads back alone was written with nothing that may not stand literally. */
  lemma VerifiedLiteral(value: string, plain: Resolver)
    requires BlockCandidate(value) && BlockVerified(value, plain)
    ensures AllLiteral(value)
  {
    hide BlockCandidate, BlockVerified, BlockLines, Split, Literal;
    BlockClean(value, plain);
    var lines := Split(Content(value));
    forall c | c in Content(value) ensures Literal(c) {
      if c == '\n' {
        BreakLiteral();
      } else {
        InSomeLine(Content(value), c);
        var i :| 0 <= i < |lines| && c in lines[i];
        LineOfBlock(value, i);
        assert c in "  " + lines[i];
      }
    }
    BreaksLiteral(Trailing(value));
    TrailingSplits(value);
    LiteralConcat(Content(value), Breaks(Trailing(value)));
  }

  lemma LineOfBlock(value: string, i: nat)
    requires i < |Split(Content(value))| && Clean([Indicator(Trailing(value))] + BlockLines(value))
    ensures AllLiteral("  " + Split(Content(value))[i])
  {
    hide Split, Indicator, AllLiteral, Trailing, Content;
    IndentedAt(Split(Content(value)));
    var all := [Indicator(Trailing(value))] + BlockLines(value);
    assert all[i + 1] == "  " + Split(Content(value))[i] && CleanLine(all[i + 1]);
  }

  lemma BreakLiteral()
    ensures Literal('\n')
  {
  }

  lemma {:induction false} BreaksLiteral(n: nat)
    ensures AllLiteral(Breaks(n))
  {
    if n > 0 { BreaksLiteral(n - 1); }
  }

  /** The verifying reparse accepts a block candidate exactly when it is printable and holds
      no next-line character. */
  lemma VerifiedIffPrintable(value: string, plain: Resolver)
    requires Sound(plain) && plain("k") && BlockCandidate(value)
    ensures BlockVerified(value, plain) <==> AllPrintable(value) && '\U{0085}' !in value
  {
    hide BlockCandidate, BlockVerified;
    if AllPrintable(value) && '\U{0085}' !in value {
      CandidateLiteral(value);
      CandidateVerifies(value, plain);
    }
    if BlockVerified(value, plain) { VerifiedLiteral(value, plain); }
  }

  /** A candidate of printable characters that does not survive the reparse: the next-line
      character is a line break to the library, so the value is quoted, which survives. */
  lemma NextLineFallsThrough(plain: Resolver)
    requires Sound(plain) && plain("k")
    ensures var value := "a\U{0085}b\"c";
      && BlockCandidate(value) && AllPrintable(value) && !BlockVerified(value, plain)
      && ValueLines(value, plain) == [QuoteString(value)]
      && ReadScalar(QuoteString(value), plain) == Some(value)
  {
    hide BlockCandidate, BlockVerified, ReadScalar, QuoteString;
    var value := "a\U{0085}b\"c";
    NextLineCandidate();
    assert value[1] in value;
    VerifiedIffPrintable(value, plain);
    assert plain(value) ==> PlainForm(value);
    ScalarReads(value, plain);
  }

  lemma NextLineCandidate()
    ensures BlockCandidate("a\U{0085}b\"c") && AllPrintable("a\U{0085}b\"c")
  {
    var value := "a\U{0085}b\"c";
    LineEndOfLine(value);
    assert value[3] in value;
  }

  lemma AloneVerifies(value: string, indicator: string, lines: seq<string>, plain: Resolver)
    requires ReadValue(indicator, ([indicator] + lines)[1..] + [], plain) == Some(Item(value, |lines|))
    requires ReadImplicitKey("k" + (": " + indicator), plain) == Some(Scalar("k", ": " + indicator))
    requires !Explicit("k" + (": " + indicator)) && Clean(["k: " + indicator] + lines)
    ensures Parse(YamlBlocks.Text(["k: " + indicator] + lines), plain) == Some(map["k" := value])
  {
    hide ReadEntry, ReadImplicitKey, ReadValue, Clean, LinesOf, AllLiteral, Explicit, ReadLines;
    ImplicitReads("k", value, "k", [indicator] + lines, [], plain);
    AloneDocument(indicator, lines);
    CleanText(["k: " + indicator] + lines);
    AloneReads(["k: " + indicator] + lines, value, plain);
  }

  lemma AloneDocument(indicator: string, lines: seq<string>)
    ensures var v := [indicator] + lines; ["k" + ": " + v[0]] + v[1..] + [] == ["k: " + indicator] + lines
  {
    assert "k" + ": " == "k: ";
    assert ([indicator] + lines)[1..] == lines;
  }

  lemma BlockKeyReads(indicator: string, plain: Resolver)
    requires Sound(plain) && plain("k")
    ensures ReadImplicitKey("k" + (": " + indicator), plain) == Some(Scalar("k", ": " + indicator))
    ensures !Explicit("k" + (": " + indicator))
  {
    NothingWide("k");
    KeyReads("k", ": " + indicator, plain);
  }

  lemma NothingWide(s: string)
    requires s == "k"
    ensures |Encode(s)| == 1
  {
    assert s[1..] == "";
  }

  lemma AloneReads(doc: seq<string>, value: string, plain: Resolver)
    requires doc != [] && doc[0] != "" && doc[0][0] == 'k'
    requires ReadEntry(doc, plain) == Some(Entry("k", value, |doc|))
    ensures ReadLines(doc, map[], plain) == Some(map["k" := value])
  {
    assert doc[|doc|..] == [];
  }

  lemma BlockDocumentClean(value: string)
    requires AllLiteral(value)
    ensures Clean(["k: " + Indicator(Trailing(value))] + BlockLines(value))
  {
    hide BlockLines, Trailing, AllLiteral;
    BlockOneLines(value);
    BlockLiteral(value);
    KeyIndicatorClean(Trailing(value));
  }

  lemma KeyIndicatorClean(trailing: nat)
    ensures CleanLine("k: " + Indicator(trailing))
  {
  }

  lemma BlockLiteral(value: string)
    requires AllLiteral(value)
    ensures forall i | 0 <= i < |BlockLines(value)| :: AllLiteral(BlockLines(value)[i])
  {
    hide Split, Indented, Empty, Literal, Trailing;
    var lines, n := Split(Content(value)), if Trailing(value) < 2 then 0 else Trailing(value) - 1;
    SplitLiteral(Content(value));
    IndentedAt(lines);
    EmptyLiteral(n);
    BlankLiteral();
    forall i | 0 <= i < |lines| ensures AllLiteral(Indented(lines)[i]) {
      LiteralConcat("  ", lines[i]);
    }
  }

  lemma BlankLiteral()
    ensures AllLiteral("  ")
  {
  }

  lemma {:induction false} SplitLiteral(s: string)
    requires AllLiteral(s)
    ensures forall i | 0 <= i < |Split(s)| :: AllLiteral(Split(s)[i])
    decreases |s|
  {
    var i := LineEnd(s);
    if i < |s| { SplitLiteral(s[i + 1..]); }
  }

  lemma {:induction false} EmptyLiteral(n: nat)
    ensures forall i | 0 <= i < |Empty(n)| :: AllLiteral(Empty(n)[i])
  {
    if n > 0 { EmptyLiteral(n - 1); }
  }

  // ---------------------------------------------------------------- what is written

  /** A double-quoted scalar that reads back to the text. */
  predicate Quotes(quoted: string, s: string) {
    quoted != "" && quoted[0] == '"' && ReadQuoted(quoted[1..]) == Some(Scalar(s, ""))
  }

  /** The rung of the ladder a value is written on: as it is when it may be plain; as a block
      when it is a candidate that may stand literally; else quoted. */
  ghost predicate OnItsRung(value: string, rendered: string, plain: Resolver) {
    if plain(value) then rendered == value
    else if BlockCandidate(value) && AllPrintable(value) && '\U{0085}' !in value then IsBlock(value, rendered)
    else Quotes(rendered, value)
  }

  predicate KeyWritten(key: string, k: string, plain: Resolver) {
    if plain(key) then k == key else Quotes(k, key)
  }

  /** An entry: the key and the value on their rungs; the key has a line of its own exactly
      when its bytes are more than a key on one line may have. */
  ghost predicate EntryWritten(key: string, value: string, entry: string, plain: Resolver) {
    exists k, v :: KeyWritten(key, k, plain) && OnItsRung(value, v, plain)
      && entry == if |Encode(k)| > 1024 then "? " + k + "\n: " + v + "\n" else k + ": " + v + "\n"
  }

  /** The entries of these keys, in this order and nothing else. */
  ghost predicate BodyWritten(keys: seq<string>, values: map<string, string>, body: string, plain: Resolver)
    requires forall k | k in keys :: k in values
  {
    if keys == [] then body == ""
    else exists entry, rest :: body == entry + rest && EntryWritten(keys[0], values[keys[0]], entry, plain)
           && BodyWritten(keys[1..], values, rest, plain)
  }

  lemma QuotesIt(s: string)
    ensures Quotes(QuoteString(s), s)
  {
    QuoteReads(s, "");
    assert QuoteString(s) + "" == QuoteString(s);
  }

  /** Every value is on its rung of the ladder. */
  lemma ValueOnItsRung(value: string, plain: Resolver)
    requires Sound(plain) && plain("k")
    ensures OnItsRung(value, Join(ValueLines(value, plain)), plain)
  {
    hide BlockCandidate, BlockVerified, IsBlock, Quotes, BlockLines, Join;
    QuotesIt(value);
    BlockShape(value);
    JoinOne(value);
    JoinOne(QuoteString(value));
    if BlockCandidate(value) { VerifiedIffPrintable(value, plain); }
  }

  lemma EntryIsWritten(key: string, value: string, plain: Resolver)
    requires Sound(plain) && plain("k")
    ensures EntryWritten(key, value, YamlBlocks.Text(EntryLines(key, value, plain)), plain)
  {
    hide OnItsRung, ValueLines, QuoteString, Quotes, Join, Sound;
    var k, v := RenderKey(key, plain), ValueLines(value, plain);
    QuotesIt(key);
    ValueOnItsRung(value, plain);
    if |Encode(k)| > MAX_IMPLICIT_KEY { ExplicitText(k, v); } else { PrefixText(k + ": ", v); }
  }

  /** The body is its entries, key by key, each value on its rung. */
  lemma {:induction false} BodyIsWritten(keys: seq<string>, values: map<string, string>, plain: Resolver)
    requires Sound(plain) && plain("k") && forall k | k in keys :: k in values
    ensures BodyWritten(keys, values, YamlBlocks.Text(BodyLines(keys, values, plain)), plain)
  {
    hide EntryLines, EntryWritten, Sound;
    if keys != [] {
      EntryIsWritten(keys[0], values[keys[0]], plain);
      BodyIsWritten(keys[1..], values, plain);
      TextConcat(EntryLines(keys[0], values[keys[0]], plain), BodyLines(keys[1..], values, plain));
    }
  }

  // ---------------------------------------------------------------- the writers

  /** Writes a value on its rung. */
  method RenderValue(value: string, plain: Resolver) returns (rendered: string)
    ensures rendered == Join(ValueLines(value, plain))
    ensures plain(value) ==> rendered == value
    ensures !plain(value) ==> IsBlock(value, rendered) || Quotes(rendered, value)
    ensures Sound(plain) && plain("k") ==> OnItsRung(value, rendered, plain)
  {
    hide OnItsRung, IsBlock, Quotes, Sound;
    if Sound(plain) && plain("k") { ValueOnItsRung(value, plain); }
    QuotesIt(value);
    if plain(value) { return value; }
    if BlockCandidate(value) {
      var block := RenderBlock(value);
      BlockDocument(value, block);
      var parsed := Parse("k: " + block + "\n", plain);
      if parsed == Some(map["k" := value]) { return block; }
    }
    rendered := QuoteString(value);
  }

  lemma BlockDocument(value: string, block: string)
    requires block == Join([Indicator(Trailing(value))] + BlockLines(value))
    ensures "k: " + block + "\n" == YamlBlocks.Text(["k: " + Indicator(Trailing(value))] + BlockLines(value))
  {
    PrefixText("k: ", [Indicator(Trailing(value))] + BlockLines(value));
  }

  lemma PrefixText(prefix: string, lines: seq<string>)
    requires lines != []
    ensures prefix + Join(lines) + "\n" == YamlBlocks.Text([prefix + lines[0]] + lines[1..])
  {
    TextIsJoin(lines);
    Associate3(prefix, Join(lines), "\n");
    Associate3(prefix, lines[0] + "\n", YamlBlocks.Text(lines[1..]));
    Associate3(prefix, lines[0], "\n");
    assert ([prefix + lines[0]] + lines[1..])[1..] == lines[1..];
  }

  method WriteEntry(key: string, value: string, plain: Resolver) returns (text: string)
    ensures text == YamlBlocks.Text(EntryLines(key, value, plain))
  {
    var k := RenderKey(key, plain);
    var rendered := RenderValue(value, plain);
    var v := ValueLines(value, plain);
    if |Encode(k)| > MAX_IMPLICIT_KEY {
      text := "? " + k + "\n: " + rendered + "\n";
      ExplicitText(k, v);
    } else {
      text := k + ": " + rendered + "\n";
      PrefixText(k + ": ", v);
    }
  }

  lemma ExplicitText(k: string, v: seq<string>)
    requires v != []
    ensures "? " + k + "\n: " + Join(v) + "\n" == YamlBlocks.Text(["? " + k, ": " + v[0]] + v[1..])
  {
    hide Join;
    PrefixText(": ", v);
    var below := [": " + v[0]] + v[1..];
    assert (["? " + k, ": " + v[0]] + v[1..])[1..] == below;
    Break("? " + k, Join(v));
  }

  lemma Break(a: string, b: string)
    ensures a + "\n: " + b + "\n" == a + "\n" + (": " + b + "\n")
  {
    assert "\n: " == "\n" + ": ";
  }

  datatype Written = Document(text: string) | Unreadable | Mismatch

  /** Writes the sorted mapping and reads it back: the check fails only on a merge key. */
  method SerializeValues(values: map<string, string>, plain: Resolver) returns (r: Written, ghost keys: seq<string>)
    requires Sound(plain)
    ensures IsListing(keys, values.Keys)
    ensures r == if Mergeless(values, plain) then Document(YamlBlocks.Text(BodyLines(keys, values, plain))) else Unreadable
    ensures r.Document? ==> Parse(r.text, plain) == Some(values)
    ensures r.Document? && plain("k") ==> BodyWritten(keys, values, r.text, plain)
  {
    hide Sound, IsListing, BodyLines, BodyWritten, Parse, Mergeless;
    var sorted := SortedKeys(values);
    keys := sorted;
    ListingCovers(keys, values);
    if plain("k") { BodyIsWritten(keys, values, plain); }
    var body := WriteBody(sorted, values, plain);
    DocumentRoundTrip(keys, values, [], [], plain);
    NoComments(BodyLines(keys, values, plain));
    var parsed := Parse(body, plain);
    r := if parsed.None? then Unreadable else if parsed.value != values then Mismatch else Document(body);
  }

  lemma NoComments(lines: seq<string>)
    ensures [] + lines + [] == lines
  {
  }

  method WriteBody(keys: seq<string>, values: map<string, string>, plain: Resolver) returns (body: string)
    requires forall k | k in keys :: k in values
    ensures body == YamlBlocks.Text(BodyLines(keys, values, plain))
  {
    body := "";
    assert keys[0..] == keys;
    for i := 0 to |keys|
      invariant body + YamlBlocks.Text(BodyLines(keys[i..], values, plain)) == YamlBlocks.Text(BodyLines(keys, values, plain))
    {
      var entry := WriteEntry(keys[i], values[keys[i]], plain);
      assert keys[i..][1..] == keys[i + 1..];
      TextConcat(EntryLines(keys[i], values[keys[i]], plain), BodyLines(keys[i + 1..], values, plain));
      Associate3(body, entry, YamlBlocks.Text(BodyLines(keys[i + 1..], values, plain)));
      body := body + entry;
    }
    assert keys[|keys|..] == [];
  }

  datatype Header = Header(kind: Kind, name: string, namespace: string, resourceVersion: string)

  /** The kind in lower case. */
  function KindWord(kind: Kind): string { if kind == Secret then "secret" else "configmap" }

  lemma KindClean(kind: Kind)
    ensures CleanLine(KindWord(kind))
  {
  }

  /** The comment lines above the mapping. */
  function HeaderLines(header: Header, anyBinary: bool, separator: string): seq<string> {
    [RESOURCE + KindWord(header.kind) + "/" + header.name + NAMESPACE + header.namespace + ")"]
    + (if header.resourceVersion == "" then [] else [VERSION + header.resourceVersion])
    + (if anyBinary then [OMITTED + separator + BELOW] else [])
    + [DELETING]
  }

  /** The comment lines below it, one for each omitted binary key with its size. */
  function FooterLines(binary: seq<(string, string)>): seq<string> {
    if binary == [] then []
    else ["# omitted (binary): " + binary[0].0 + " [" + binary[0].1 + "]"] + FooterLines(binary[1..])
  }

  /** What the comments say: the resource, its version when it has one, the omission when keys
      are omitted, and one line for each omitted key, in order. */
  lemma CommentsSay(header: Header, binary: seq<(string, string)>, separator: string)
    ensures var lines, below := HeaderLines(header, binary != [], separator), FooterLines(binary);
      && lines != [] && lines[0] == "# resource: " + (if header.kind == Secret then "secret" else "configmap") + "/" + header.name
                                   + " (namespace: " + header.namespace + ")"
      && lines[|lines| - 1] == DELETING
      && lines[1..|lines| - 1] ==
           (if header.resourceVersion != "" then ["# resourceVersion: " + header.resourceVersion] else [])
           + (if binary != [] then [OMITTED + separator + "listed below."] else [])
      && |below| == |binary|
      && forall i | 0 <= i < |binary| :: below[i] == "# omitted (binary): " + binary[i].0 + " [" + binary[i].1 + "]"
  {
    FooterAt(binary);
  }

  lemma {:induction false} FooterAt(binary: seq<(string, string)>)
    ensures |FooterLines(binary)| == |binary|
    ensures forall i | 0 <= i < |binary| ::
              FooterLines(binary)[i] == "# omitted (binary): " + binary[i].0 + " [" + binary[i].1 + "]"
  {
    if binary != [] { FooterAt(binary[1..]); }
  }

  predicate CleanHeader(header: Header, binary: seq<(string, string)>, separator: string) {
    && CleanLine(header.name) && CleanLine(header.namespace)
    && CleanLine(header.resourceVersion) && CleanLine(separator)
    && forall i | 0 <= i < |binary| :: CleanLine(binary[i].0) && CleanLine(binary[i].1)
  }

  lemma {:induction false} FooterComments(binary: seq<(string, string)>)
    requires forall i | 0 <= i < |binary| :: CleanLine(binary[i].0) && CleanLine(binary[i].1)
    ensures Comments(FooterLines(binary))
  {
    if binary != [] { FooterComments(binary[1..]); }
  }

  lemma CleanConcat(a: string, b: string)
    requires CleanLine(a) && CleanLine(b)
    ensures CleanLine(a + b)
  {
  }

  const RESOURCE := "# resource: "
  const NAMESPACE := " (namespace: "
  const VERSION := "# resourceVersion: "
  const BELOW := "listed below."

  // The two sentences are put together from phrases, each short enough to be shown clean
  // character by character.
  const OMITTED := "# Binary keys are omitted " + "(use x/i export/import)"
  const DELETING := "# Deleting a mapping " + ("deletes the key on save; " + "adding one adds a key.")

  lemma OmittedClean()
    ensures CleanLine(OMITTED)
  {
    CleanConcat("# Binary keys are omitted ", "(use x/i export/import)");
  }

  lemma DeletingClean()
    ensures CleanLine(DELETING) && DELETING[0] == '#'
  {
    CleanConcat("deletes the key on save; ", "adding one adds a key.");
    CleanConcat("# Deleting a mapping ", "deletes the key on save; " + "adding one adds a key.");
  }

  lemma ResourceLine(kind: string, name: string, namespace: string)
    requires CleanLine(kind) && CleanLine(name) && CleanLine(namespace)
    ensures CleanLine(RESOURCE + kind + "/" + name + NAMESPACE + namespace + ")")
  {
    CleanConcat(RESOURCE, kind);
    CleanConcat(RESOURCE + kind, "/");
    CleanConcat(RESOURCE + kind + "/", name);
    CleanConcat(RESOURCE + kind + "/" + name, NAMESPACE);
    CleanConcat(RESOURCE + kind + "/" + name + NAMESPACE, namespace);
    CleanConcat(RESOURCE + kind + "/" + name + NAMESPACE + namespace, ")");
  }

  lemma HeaderComments(header: Header, binary: seq<(string, string)>, separator: string)
    requires CleanHeader(header, binary, separator)
    ensures Comments(HeaderLines(header, binary != [], separator))
  {
    OmittedClean();
    DeletingClean();
    KindClean(header.kind);
    ResourceLine(KindWord(header.kind), header.name, header.namespace);
    CleanConcat(VERSION, header.resourceVersion);
    CleanConcat(OMITTED, separator);
    CleanConcat(OMITTED + separator, BELOW);
    hide CleanLine;
  }

  /** Writes the whole document. Its comments do not change what it parses to. */
  method Serialize(header: Header, values: map<string, string>, binary: seq<(string, string)>, separator: string, plain: Resolver)
    returns (r: Written, ghost keys: seq<string>)
    requires Sound(plain) && CleanHeader(header, binary, separator)
    ensures IsListing(keys, values.Keys)
    ensures r ==
            if Mergeless(values, plain) then
              Document(YamlBlocks.Text(HeaderLines(header, binary != [], separator)
                                       + BodyLines(keys, values, plain) + FooterLines(binary)))
            else Unreadable
    ensures r.Document? ==> Parse(r.text, plain) == Some(values)
  {
    hide Sound, CleanLine, Comments, HeaderLines, FooterLines, IsListing, Parse, Mergeless;
    HeaderComments(header, binary, separator);
    FooterComments(binary);
    r, keys := SerializeValues(values, plain);
    ListingCovers(keys, values);
    if !r.Document? { return r, keys; }
    var above, below := HeaderLines(header, binary != [], separator), FooterLines(binary);
    var document := WriteLines("", above);
    document := document + r.text;
    document := WriteLines(document, below);
    DocumentText(above, BodyLines(keys, values, plain), below);
    DocumentRoundTrip(keys, values, above, below, plain);
    r := Document(document);
  }

  lemma DocumentText(above: seq<string>, lines: seq<string>, below: seq<string>)
    ensures "" + YamlBlocks.Text(above) + YamlBlocks.Text(lines) + YamlBlocks.Text(below) == YamlBlocks.Text(above + lines + below)
  {
    TextConcat(above, lines);
    TextConcat(above + lines, below);
    assert "" + YamlBlocks.Text(above) == YamlBlocks.Text(above);
  }

  method WriteLines(start: string, lines: seq<string>) returns (text: string)
    ensures text == start + YamlBlocks.Text(lines)
  {
    text := start;
    for i := 0 to |lines|
      invariant text == start + YamlBlocks.Text(lines[..i])
    {
      assert lines[..i + 1] == lines[..i] + [lines[i]];
      Appended(lines[..i], lines[i]);
      text := text + lines[i] + "\n";
    }
    assert lines[..|lines|] == lines;
  }

  lemma Appended(lines: seq<string>, line: string)
    ensures YamlBlocks.Text(lines + [line]) == YamlBlocks.Text(lines) + line + "\n"
  {
    TextConcat(lines, [line]);
    assert YamlBlocks.Text([line]) == line + "\n" + YamlBlocks.Text([]);
  }
}
