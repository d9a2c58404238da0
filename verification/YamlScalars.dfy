/** The scalar styles of the editable document and how YAML reads them back. */
module YamlScalars {
  import opened Values

  // ---------------------------------------------------------------- characters

  /** c-printable: section 5.1 of YAML 1.2.2. */
  predicate Printable(c: char) {
    var n := c as int;
    n == 0x09 || n == 0x0A || n == 0x0D || 0x20 <= n <= 0x7E || n == 0x85
    || 0xA0 <= n <= 0xFFFD || n >= 0x10000
  }

  predicate AllPrintable(s: string) { forall c | c in s :: Printable(c) }

  /** What may stand as it is on a line: not the further line breaks of YAML 1.1 either, which
      the library takes for the end of a line. */
  predicate Literal(c: char) {
    Printable(c) && c as int != 0x85 && c as int != 0x2028 && c as int != 0x2029
  }

  predicate AllLiteral(s: string) { forall c | c in s :: Literal(c) }

  lemma LiteralConcat(s: string, t: string)
    requires AllLiteral(s) && AllLiteral(t)
    ensures AllLiteral(s + t)
  {
  }

  // ---------------------------------------------------------------- writing double quotes

  const HEX := "0123456789abcdef"

  function HexDigit(d: nat): char
    requires d < 16
  {
    HEX[d]
  }

  function Hex4(n: nat): string
    requires n < 0x10000
  {
    [HexDigit(n / 0x1000), HexDigit(n / 0x100 % 16), HexDigit(n / 0x10 % 16), HexDigit(n % 16)]
  }

  /** What the JSON encoder writes for one character, HTML escaping off. */
  function JsonChar(c: char): string {
    var n := c as int;
    if c == '"' then "\\\""
    else if c == '\\' then "\\\\"
    else if n == 0x08 then "\\b"
    else if n == 0x0C then "\\f"
    else if c == '\n' then "\\n"
    else if c == '\r' then "\\r"
    else if c == '\t' then "\\t"
    else if n < 0x20 || n == 0x2028 || n == 0x2029 then "\\u" + Hex4(n)
    else [c]
  }

  function JsonBody(s: string): string {
    if s == "" then "" else JsonChar(s[0]) + JsonBody(s[1..])
  }

  /** The characters the encoder leaves literal and YAML does not accept. */
  predicate YamlRejectsLiteral(c: char) {
    var n := c as int;
    n == 0x7F || 0x80 <= n <= 0x9F || n == 0xFFFE || n == 0xFFFF
  }

  function EscapeChar(c: char): string {
    if YamlRejectsLiteral(c) then "\\u" + Hex4(c as int) else [c]
  }

  function Escaped(s: string): string {
    if s == "" then "" else EscapeChar(s[0]) + Escaped(s[1..])
  }

  function QuoteString(value: string): string { Escaped("\"" + JsonBody(value) + "\"") }

  /** The second escaping pass. */
  method EscapeYamlNonPrintable(quoted: string) returns (escaped: string)
    ensures escaped == Escaped(quoted)
  {
    hide Escaped, EscapeChar, YamlRejectsLiteral;
    if forall c | c in quoted :: !YamlRejectsLiteral(c) {
      NothingToEscape(quoted);
      return quoted;
    }
    escaped := "";
    assert quoted[..0] == "";
    NothingToEscape("");
    for i := 0 to |quoted|
      invariant escaped == Escaped(quoted[..i])
    {
      assert quoted[..i + 1] == quoted[..i] + [quoted[i]];
      EscapedConcat(quoted[..i], [quoted[i]]);
      EscapedOne(quoted[i]);
      escaped := escaped + EscapeChar(quoted[i]);
    }
    assert quoted[..|quoted|] == quoted;
  }

  lemma EscapedOne(c: char)
    ensures Escaped([c]) == EscapeChar(c)
  {
    hide EscapeChar;
    assert Escaped([c]) == EscapeChar(c) + "";
  }

  lemma {:induction false} NothingToEscape(s: string)
    requires forall c | c in s :: !YamlRejectsLiteral(c)
    ensures Escaped(s) == s
  {
    if s != "" {
      NothingToEscape(s[1..]);
      assert s == [s[0]] + s[1..];
    }
  }

  lemma {:induction false} EscapedConcat(s: string, t: string)
    ensures Escaped(s + t) == Escaped(s) + Escaped(t)
  {
    if s == "" {
      assert s + t == t;
    } else {
      assert (s + t)[1..] == s[1..] + t;
      EscapedConcat(s[1..], t);
    }
  }

  // ---------------------------------------------------------------- reading double quotes

  function HexValue(c: char): Option<nat> {
    if '0' <= c <= '9' then Some(c as int - '0' as int)
    else if 'a' <= c <= 'f' then Some(c as int - 'a' as int + 10)
    else if 'A' <= c <= 'F' then Some(c as int - 'A' as int + 10)
    else None
  }

  function HexNumber(s: string): Option<nat> {
    if s == "" then Some(0)
    else
      var high := HexNumber(s[..|s| - 1]);
      var low := HexValue(s[|s| - 1]);
      if high.Some? && low.Some? then Some(high.value * 16 + low.value) else None
  }

  /** A character number written in `width` hexadecimal digits. */
  function HexChar(s: string, width: nat): Option<char> {
    if |s| < width then None
    else
      var n := HexNumber(s[..width]);
      if n.Some? && (n.value < 0xD800 || 0xE000 <= n.value < 0x110000) then Some(n.value as char) else None
  }

  /** One character read, and how much of the text it took. */
  datatype ReadChar = ReadChar(c: char, width: nat)

  function SimpleEscape(c: char): Option<char> {
    match c
    case '0' => Some(0 as char)
    case 'a' => Some(7 as char)
    case 'b' => Some(8 as char)
    case 't' => Some('\t')
    case '\t' => Some('\t')
    case 'n' => Some('\n')
    case 'v' => Some(11 as char)
    case 'f' => Some(12 as char)
    case 'r' => Some('\r')
    case 'e' => Some(27 as char)
    case ' ' => Some(' ')
    case '"' => Some('"')
    case '/' => Some('/')
    case '\\' => Some('\\')
    case 'N' => Some(0x85 as char)
    case '_' => Some(0xA0 as char)
    case 'L' => Some(0x2028 as char)
    case 'P' => Some(0x2029 as char)
    case _ => None
  }

  /** One character of a double-quoted scalar on one line: section 5.7 of YAML 1.2.2. */
  function ReadOne(s: string): (r: Option<ReadChar>)
    requires s != ""
    ensures r.Some? ==> 0 < r.value.width <= |s|
  {
    if s[0] != '\\' then Some(ReadChar(s[0], 1))
    else if |s| == 1 then None
    else if s[1] == 'x' || s[1] == 'u' || s[1] == 'U' then
      var width := if s[1] == 'x' then 2 else if s[1] == 'u' then 4 else 8;
      var c := HexChar(s[2..], width);
      if c.Some? then Some(ReadChar(c.value, 2 + width)) else None
    else
      var c := SimpleEscape(s[1]);
      if c.Some? then Some(ReadChar(c.value, 2)) else None
  }

  datatype Scalar = Scalar(value: string, rest: string)

  /** The scalar whose opening quote has been read, and the text after its closing quote:
      section 7.3.1 of YAML 1.2.2, on one line. */
  function ReadQuoted(s: string): Option<Scalar>
    decreases |s|
  {
    if s == "" then None
    else if s[0] == '"' then Some(Scalar("", s[1..]))
    else
      var one := ReadOne(s);
      if one.None? then None
      else
        var more := ReadQuoted(s[one.value.width..]);
        if more.None? then None else Some(Scalar([one.value.c] + more.value.value, more.value.rest))
  }

  lemma HexDigitsRead(d: nat)
    requires d < 16
    ensures HexValue(HexDigit(d)) == Some(d)
  {
  }

  lemma OneDigitMore(s: string, v: nat, d: nat)
    requires d < 16 && HexNumber(s) == Some(v)
    ensures HexNumber(s + [HexDigit(d)]) == Some(v * 16 + d)
  {
    hide HexDigit, HexValue;
    HexDigitsRead(d);
    assert (s + [HexDigit(d)])[..|s|] == s;
  }

  lemma NoDigits()
    ensures HexNumber("") == Some(0)
  {
  }

  lemma Nibbles(n: nat)
    ensures n / 0x1000 * 16 + n / 0x100 % 16 == n / 0x100
    ensures n / 0x100 * 16 + n / 0x10 % 16 == n / 0x10
    ensures n / 0x10 * 16 + n % 16 == n
  {
    assert n / 0x100 / 16 == n / 0x1000 && n / 0x10 / 16 == n / 0x100;
  }

  lemma FourDigitsRead(a: nat, b: nat, c: nat, d: nat)
    requires a < 16 && b < 16 && c < 16 && d < 16
    ensures HexNumber([HexDigit(a), HexDigit(b), HexDigit(c), HexDigit(d)]) == Some(((a * 16 + b) * 16 + c) * 16 + d)
  {
    hide HexDigit, HexNumber;
    NoDigits();
    OneDigitMore("", 0, a);
    assert "" + [HexDigit(a)] == [HexDigit(a)];
    OneDigitMore([HexDigit(a)], a, b);
    assert [HexDigit(a)] + [HexDigit(b)] == [HexDigit(a), HexDigit(b)];
    OneDigitMore([HexDigit(a), HexDigit(b)], a * 16 + b, c);
    assert [HexDigit(a), HexDigit(b)] + [HexDigit(c)] == [HexDigit(a), HexDigit(b), HexDigit(c)];
    OneDigitMore([HexDigit(a), HexDigit(b), HexDigit(c)], (a * 16 + b) * 16 + c, d);
    assert [HexDigit(a), HexDigit(b), HexDigit(c)] + [HexDigit(d)] == [HexDigit(a), HexDigit(b), HexDigit(c), HexDigit(d)];
  }

  lemma Hex4Number(n: nat)
    requires n < 0x10000
    ensures HexNumber(Hex4(n)) == Some(n) && |Hex4(n)| == 4
  {
    hide HexDigit, HexNumber;
    FourDigitsRead(n / 0x1000, n / 0x100 % 16, n / 0x10 % 16, n % 16);
    Nibbles(n);
  }

  lemma Hex4Reads(n: nat, t: string)
    requires n < 0x10000 && (n < 0xD800 || 0xE000 <= n)
    ensures HexChar(Hex4(n) + t, 4) == Some(n as char)
  {
    hide HexNumber, Hex4;
    Hex4Number(n);
    assert (Hex4(n) + t)[..4] == Hex4(n);
  }

  // The three forms a character takes after both passes: itself, a short escape, a number.

  predicate Itself(c: char, e: string) {
    e == [c] && c != '"' && c != '\\' && Literal(c) && c != '\n'
  }

  predicate ShortEscape(c: char, e: string) {
    && |e| == 2 && e[0] == '\\' && e[1] != 'x' && e[1] != 'u' && e[1] != 'U'
    && SimpleEscape(e[1]) == Some(c) && Literal(e[1]) && e[1] != '\n'
  }

  predicate Numbered(c: char, e: string) {
    c as int < 0x10000 && e == "\\u" + Hex4(c as int)
  }

  /** The second pass leaves every escape the first one wrote alone. */
  lemma CharForms(c: char)
    ensures var e := Escaped(JsonChar(c)); Itself(c, e) || ShortEscape(c, e) || Numbered(c, e)
  {
    hide Escaped, Hex4;
    var j := JsonChar(c);
    if j == [c] {
      EscapedOne(c);
    } else if |j| == 2 {
      assert j == [j[0], j[1]];
      NothingToEscape(j);
    } else {
      HexAscii(c as int);
      Hex4Length(c as int);
      NothingToEscape(j);
    }
  }

  lemma HexDigitAscii(d: nat)
    requires d < 16
    ensures 0x30 <= HexDigit(d) as int <= 0x66
  {
  }

  lemma HexAscii(n: nat)
    requires n < 0x10000
    ensures forall d | d in "\\u" + Hex4(n) :: 0x30 <= d as int <= 0x75
  {
    HexDigitAscii(n / 0x1000);
    HexDigitAscii(n / 0x100 % 16);
    HexDigitAscii(n / 0x10 % 16);
    HexDigitAscii(n % 16);
    var h := "\\u" + Hex4(n);
    assert h == ['\\', 'u', HexDigit(n / 0x1000), HexDigit(n / 0x100 % 16), HexDigit(n / 0x10 % 16), HexDigit(n % 16)];
  }

  /** What one character turns into after both passes reads back as that character. */
  lemma CharReads(c: char, t: string)
    ensures var e := Escaped(JsonChar(c));
      e != "" && e[0] != '"' && ReadOne(e + t) == Some(ReadChar(c, |e|))
  {
    hide Escaped, JsonChar, SimpleEscape, Literal, Hex4;
    var e := Escaped(JsonChar(c));
    CharForms(c);
    if Numbered(c, e) {
      Hex4Reads(c as int, t);
      assert |Hex4(c as int)| == 4 by { Hex4Length(c as int); }
      assert (e + t)[2..] == Hex4(c as int) + t;
    } else {
      assert (e + t)[0] == e[0];
    }
  }

  lemma Hex4Length(n: nat)
    requires n < 0x10000
    ensures |Hex4(n)| == 4
  {
  }

  lemma OneMoreRead(e: string, more: string, c: char, value: string, rest: string)
    requires e != "" && e[0] != '"' && ReadOne(e + more) == Some(ReadChar(c, |e|))
    requires ReadQuoted(more) == Some(Scalar(value, rest))
    ensures ReadQuoted(e + more) == Some(Scalar([c] + value, rest))
  {
    hide ReadOne;
    assert (e + more)[|e|..] == more;
  }

  lemma BodyEscapes(value: string)
    requires value != ""
    ensures Escaped(JsonBody(value)) == Escaped(JsonChar(value[0])) + Escaped(JsonBody(value[1..]))
  {
    hide Escaped;
    EscapedConcat(JsonChar(value[0]), JsonBody(value[1..]));
  }

  lemma Regroup(e: string, more: string, rest: string)
    ensures (e + more) + "\"" + rest == e + (more + "\"" + rest)
  {
  }

  lemma NothingReads(rest: string)
    ensures ReadQuoted(Escaped(JsonBody("")) + "\"" + rest) == Some(Scalar("", rest))
  {
    assert Escaped(JsonBody("")) + "\"" + rest == "\"" + rest;
  }

  lemma {:induction false} BodyReads(value: string, rest: string)
    ensures ReadQuoted(Escaped(JsonBody(value)) + "\"" + rest) == Some(Scalar(value, rest))
  {
    hide Escaped, JsonChar, ReadOne, ReadQuoted, JsonBody;
    if value == "" {
      NothingReads(rest);
    } else {
      var e, more := Escaped(JsonChar(value[0])), Escaped(JsonBody(value[1..]));
      var tail := more + "\"" + rest;
      BodyEscapes(value);
      CharReads(value[0], tail);
      BodyReads(value[1..], rest);
      OneMoreRead(e, tail, value[0], value[1..], rest);
      Regroup(e, more, rest);
      assert value == [value[0]] + value[1..];
    }
  }

  /** Quoting is total and lossless: what it writes for any text reads back as that text. */
  lemma QuoteReads(value: string, rest: string)
    ensures var q := QuoteString(value);
      q != "" && q[0] == '"' && ReadQuoted((q + rest)[1..]) == Some(Scalar(value, rest))
  {
    hide Escaped, JsonBody, QuoteString, ReadQuoted;
    QuoteShape(value);
    BodyReads(value, rest);
    assert (QuoteString(value) + rest)[1..] == Escaped(JsonBody(value)) + "\"" + rest;
  }

  lemma QuoteShape(value: string)
    ensures QuoteString(value) == "\"" + Escaped(JsonBody(value)) + "\""
  {
    EscapedConcat("\"" + JsonBody(value), "\"");
    EscapedConcat("\"", JsonBody(value));
    assert Escaped("\"") == "\"" by { NothingToEscape("\""); }
  }

  /** Everything quoting writes may stand in a YAML document, on one line. */
  lemma QuoteLiteral(value: string)
    ensures AllLiteral(QuoteString(value)) && '\n' !in QuoteString(value)
  {
    QuoteShape(value);
    BodyLiteral(value);
  }

  lemma {:induction false} BodyLiteral(value: string)
    ensures AllLiteral(Escaped(JsonBody(value))) && '\n' !in Escaped(JsonBody(value))
  {
    if value != "" {
      EscapedConcat(JsonChar(value[0]), JsonBody(value[1..]));
      CharLiteral(value[0]);
      BodyLiteral(value[1..]);
    }
  }

  lemma CharLiteral(c: char)
    ensures AllLiteral(Escaped(JsonChar(c))) && '\n' !in Escaped(JsonChar(c))
  {
    hide Escaped, JsonChar, SimpleEscape, Hex4;
    var e := Escaped(JsonChar(c));
    CharForms(c);
    if Numbered(c, e) {
      HexAscii(c as int);
    } else if ShortEscape(c, e) {
      assert e == [e[0], e[1]];
    }
  }
}
