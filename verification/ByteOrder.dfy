/** Strings as the bytes of their UTF-8 encoding: the orders of Natsort compare bytes as they
    compare characters. */
module ByteOrder {
  import opened Values
  import opened Natsort

  /** The bytes of one character, each as a character of its own. */
  function RawChar(c: char): (r: string)
    ensures r != ""
  {
    var e := EncodeChar(c);
    seq(|e|, i requires 0 <= i < |e| => e[i] as char)
  }

  function Raw(s: string): string {
    if s == "" then "" else RawChar(s[0]) + Raw(s[1..])
  }

  lemma {:induction false} RawIsEncoding(s: string)
    ensures |Raw(s)| == |Encode(s)| && forall i | 0 <= i < |Raw(s)| :: Raw(s)[i] as int == Encode(s)[i]
  {
    if s != "" {
      hide EncodeChar;
      RawIsEncoding(s[1..]);
    }
  }

  // ---------------------------------------------------------------- one character

  lemma FirstOfThree(c: char, d: char) returns (k: nat)
    requires c < d && 0x800 <= c as int && d as int < 0x10000
    ensures k < 3 && EncodeChar(c)[..k] == EncodeChar(d)[..k] && EncodeChar(c)[k] < EncodeChar(d)[k]
  {
    var n, m := c as int, d as int;
    Sextets(n);
    Sextets(m);
    k := if n / 0x1000 < m / 0x1000 then 0 else if n / 0x40 < m / 0x40 then 1 else 2;
  }

  lemma FirstOfFour(c: char, d: char) returns (k: nat)
    requires c < d && 0x10000 <= c as int
    ensures k < 4 && EncodeChar(c)[..k] == EncodeChar(d)[..k] && EncodeChar(c)[k] < EncodeChar(d)[k]
  {
    var n, m := c as int, d as int;
    Sextets(n);
    Sextets(m);
    k := if n / 0x40000 < m / 0x40000 then 0 else if n / 0x1000 < m / 0x1000 then 1 else if n / 0x40 < m / 0x40 then 2 else 3;
  }

  lemma LengthsDiffer(c: char, d: char)
    requires c < d && |EncodeChar(c)| != |EncodeChar(d)|
    ensures EncodeChar(c)[0] < EncodeChar(d)[0]
  {
  }

  /** Of two characters the smaller has the smaller byte where their encodings first differ. */
  lemma FirstDifference(c: char, d: char) returns (k: nat)
    requires c < d
    ensures k < |EncodeChar(c)| && k < |EncodeChar(d)|
    ensures EncodeChar(c)[..k] == EncodeChar(d)[..k] && EncodeChar(c)[k] < EncodeChar(d)[k]
  {
    if |EncodeChar(c)| != |EncodeChar(d)| {
      LengthsDiffer(c, d);
      k := 0;
    } else if |EncodeChar(c)| == 3 {
      k := FirstOfThree(c, d);
    } else if |EncodeChar(c)| == 4 {
      k := FirstOfFour(c, d);
    } else {
      k := if |EncodeChar(c)| == 2 && c as int / 0x40 == d as int / 0x40 then 1 else 0;
    }
  }

  lemma RawCharDigits(c: char)
    ensures IsDigit(c) ==> RawChar(c) == [c]
    ensures !IsDigit(c) ==> forall b | b in RawChar(c) :: !IsDigit(b)
    ensures RawChar(c)[0] < '0' <==> c < '0'
  {
  }

  // ---------------------------------------------------------------- tokens, byte by byte

  function Symbols(s: string): seq<Token> {
    if s == "" then [] else [Symbol(s[0])] + Symbols(s[1..])
  }

  function ExpandOne(token: Token): seq<Token> {
    match token
    case Number(_) => [token]
    case Symbol(c) => Symbols(RawChar(c))
  }

  /** Every symbol replaced by the symbols of its bytes. */
  function Expand(tokens: seq<Token>): seq<Token> {
    if tokens == [] then [] else ExpandOne(tokens[0]) + Expand(tokens[1..])
  }

  lemma {:induction false} SymbolsAt(s: string)
    ensures |Symbols(s)| == |s| && forall i | 0 <= i < |s| :: Symbols(s)[i] == Symbol(s[i])
  {
    if s != "" { SymbolsAt(s[1..]); }
  }

  lemma {:induction false} SymbolsConcat(s: string, t: string)
    ensures Symbols(s + t) == Symbols(s) + Symbols(t)
  {
    if s == "" {
      assert s + t == t;
    } else {
      assert (s + t)[1..] == s[1..] + t;
      SymbolsConcat(s[1..], t);
    }
  }

  lemma {:induction false} SymbolsOrder(a: string, b: string)
    ensures Lexicographic(Symbols(a), Symbols(b)) == CompareChars(a, b)
  {
    if a != "" && b != "" {
      assert Symbols(a)[1..] == Symbols(a[1..]) && Symbols(b)[1..] == Symbols(b[1..]);
      SymbolsOrder(a[1..], b[1..]);
    }
  }

  lemma {:induction false} ExpandSymbols(s: string)
    ensures Expand(Symbols(s)) == Symbols(Raw(s))
  {
    if s != "" {
      hide RawChar;
      assert Symbols(s)[1..] == Symbols(s[1..]);
      SymbolsConcat(RawChar(s[0]), Raw(s[1..]));
      ExpandSymbols(s[1..]);
    }
  }

  lemma {:induction false} SamePrefix(p: seq<Token>, x: seq<Token>, y: seq<Token>)
    ensures Lexicographic(p + x, p + y) == Lexicographic(x, y)
  {
    if p == [] {
      assert p + x == x && p + y == y;
    } else {
      assert (p + x)[1..] == p[1..] + x && (p + y)[1..] == p[1..] + y;
      SamePrefix(p[1..], x, y);
    }
  }

  lemma HeadsDecide(s: seq<Token>, t: seq<Token>)
    requires s != [] && t != [] && CompareTokens(s[0], t[0]) != 0
    ensures Lexicographic(s, t) == CompareTokens(s[0], t[0])
  {
  }

  lemma RawCharBytes(c: char)
    ensures |RawChar(c)| == |EncodeChar(c)|
    ensures forall i | 0 <= i < |RawChar(c)| :: RawChar(c)[i] as int == EncodeChar(c)[i]
  {
    hide EncodeChar;
  }

  /** The position at which the bytes of two characters first differ decides as they do. */
  lemma RawDifference(c: char, d: char) returns (k: nat)
    requires c != d
    ensures k < |RawChar(c)| && k < |RawChar(d)| && RawChar(c)[..k] == RawChar(d)[..k]
    ensures if c < d then RawChar(c)[k] < RawChar(d)[k] else RawChar(d)[k] < RawChar(c)[k]
  {
    hide RawChar, EncodeChar;
    if c < d { k := FirstDifference(c, d); } else { k := FirstDifference(d, c); }
    RawCharBytes(c);
    RawCharBytes(d);
    forall i | 0 <= i < k ensures RawChar(c)[i] == RawChar(d)[i] {
      assert EncodeChar(c)[..k][i] == EncodeChar(d)[..k][i];
    }
  }

  /** Different symbols decide the comparison byte by byte as they do whole. */
  lemma SymbolsDecide(c: char, d: char, x: seq<Token>, y: seq<Token>)
    requires c != d
    ensures Lexicographic(Symbols(RawChar(c)) + x, Symbols(RawChar(d)) + y) == CompareTokens(Symbol(c), Symbol(d))
  {
    hide RawChar, Symbols, Lexicographic;
    var k := RawDifference(c, d);
    var s, t := Symbols(RawChar(c)) + x, Symbols(RawChar(d)) + y;
    SymbolsAt(RawChar(c));
    SymbolsAt(RawChar(d));
    forall i | 0 <= i < k ensures s[i] == t[i] {
      assert RawChar(c)[..k][i] == RawChar(d)[..k][i];
    }
    assert s == s[..k] + s[k..] && t == s[..k] + t[k..];
    SamePrefix(s[..k], s[k..], t[k..]);
    HeadsDecide(s[k..], t[k..]);
  }

  lemma {:induction false} ExpandKeepsOrder(s: seq<Token>, t: seq<Token>)
    ensures Lexicographic(Expand(s), Expand(t)) == Lexicographic(s, t)
  {
    if s != [] { ExpandStarts(s); }
    if t != [] { ExpandStarts(t); }
    if s != [] && t != [] {
      if s[0] == t[0] {
        ExpandKeepsOrder(s[1..], t[1..]);
        SamePrefix(ExpandOne(s[0]), Expand(s[1..]), Expand(t[1..]));
      } else if s[0].Symbol? && t[0].Symbol? {
        SymbolsDecide(s[0].c, t[0].c, Expand(s[1..]), Expand(t[1..]));
      }
    }
  }

  lemma ExpandStarts(s: seq<Token>)
    requires s != []
    ensures Expand(s) == ExpandOne(s[0]) + Expand(s[1..]) && ExpandOne(s[0]) != []
    ensures s[0].Symbol? ==> ExpandOne(s[0])[0].Symbol? && (ExpandOne(s[0])[0].c < '0' <==> s[0].c < '0')
  {
    hide RawChar, Symbols;
    if s[0].Symbol? {
      RawCharDigits(s[0].c);
      SymbolsAt(RawChar(s[0].c));
    }
  }

  // ---------------------------------------------------------------- tokens of the bytes

  lemma {:induction false} RunEndAfter(p: string, s: string, i: nat)
    requires i <= |s|
    ensures RunEnd(p + s, |p| + i) == |p| + RunEnd(s, i)
    decreases |s| - i
  {
    if i < |s| && IsDigit(s[i]) { RunEndAfter(p, s, i + 1); }
  }

  lemma {:induction false} TokensAfter(p: string, s: string, i: nat)
    requires i <= |s|
    ensures TokensFrom(p + s, |p| + i) == TokensFrom(s, i)
    decreases |s| - i
  {
    hide TokensFrom, RunEnd, Value;
    if i == |s| {
      EmptyOnlyAtEnd(s, i);
      EmptyOnlyAtEnd(p + s, |p| + i);
    } else if IsDigit(s[i]) {
      RunEndAfter(p, s, i);
      NumberAt(s, i);
      NumberAt(p + s, |p| + i);
      var e := RunEnd(s, i);
      assert (p + s)[|p| + i..|p| + e] == s[i..e];
      TokensAfter(p, s, e);
    } else {
      FirstToken(s, i);
      FirstToken(p + s, |p| + i);
      TokensAfter(p, s, i + 1);
    }
  }

  lemma {:induction false} RunEndOf(run: string, rest: string, i: nat)
    requires AllDigits(run) && i <= |run| && (rest == "" || !IsDigit(rest[0]))
    ensures RunEnd(run + rest, i) == |run|
    decreases |run| - i
  {
    if i < |run| {
      assert (run + rest)[i] == run[i];
      RunEndOf(run, rest, i + 1);
    }
  }

  lemma TokensOfRun(run: string, rest: string)
    requires run != "" && AllDigits(run) && (rest == "" || !IsDigit(rest[0]))
    ensures TokensFrom(run + rest, 0) == [Number(Value(run))] + TokensFrom(rest, 0)
  {
    hide Value, RunEnd, TokensFrom;
    RunEndOf(run, rest, 0);
    NumberAt(run + rest, 0);
    assert (run + rest)[0..|run|] == run;
    TokensAfter(run, rest, 0);
  }

  lemma {:induction false} TokensOfSymbols(s: string, rest: string)
    requires forall c | c in s :: !IsDigit(c)
    ensures TokensFrom(s + rest, 0) == Symbols(s) + TokensFrom(rest, 0)
  {
    if s == "" {
      assert s + rest == rest;
    } else {
      assert s + rest == [s[0]] + (s[1..] + rest);
      TokensAfter([s[0]], s[1..] + rest, 0);
      TokensOfSymbols(s[1..], rest);
    }
  }

  lemma {:induction false} RawOfDigits(run: string, rest: string)
    requires AllDigits(run)
    ensures Raw(run + rest) == run + Raw(rest)
  {
    hide RawChar;
    if run == "" {
      assert run + rest == rest;
    } else {
      RawCharDigits(run[0]);
      assert (run + rest)[1..] == run[1..] + rest;
      RawOfDigits(run[1..], rest);
    }
  }

  lemma RawStarts(s: string)
    requires s == "" || !IsDigit(s[0])
    ensures Raw(s) == "" || !IsDigit(Raw(s)[0])
  {
    if s != "" {
      RawCharDigits(s[0]);
      assert Raw(s)[0] in RawChar(s[0]);
    }
  }

  /** The tokens of the bytes are the tokens of the characters, symbols byte by byte. */
  lemma {:induction false} TokensOfRaw(s: string)
    ensures TokensFrom(Raw(s), 0) == Expand(TokensFrom(s, 0))
    decreases |s|
  {
    if s != "" {
      if IsDigit(s[0]) {
        var e := RunEnd(s, 0);
        var run, rest := s[..e], s[e..];
        assert s == run + rest && s[0..e] == run;
        TokensOfRun(run, rest);
        RawOfDigits(run, rest);
        RawStarts(rest);
        TokensOfRun(run, Raw(rest));
        TokensOfRaw(rest);
        ExpandStarts([Number(Value(run))] + TokensFrom(rest, 0));
        assert ([Number(Value(run))] + TokensFrom(rest, 0))[1..] == TokensFrom(rest, 0);
      } else {
        assert s == [s[0]] + s[1..];
        TokensOfSymbols([s[0]], s[1..]);
        RawCharDigits(s[0]);
        TokensOfSymbols(RawChar(s[0]), Raw(s[1..]));
        TokensOfRaw(s[1..]);
        assert ([Symbol(s[0])] + TokensFrom(s[1..], 0))[1..] == TokensFrom(s[1..], 0);
      }
    }
  }

  /** The byte order of two encodings is the order of the texts, and so is their natural
      order. */
  lemma BytesKeepOrder(a: string, b: string)
    ensures CompareChars(Raw(a), Raw(b)) == CompareChars(a, b)
    ensures Order(Raw(a), Raw(b)) == Order(a, b)
  {
    SymbolsOrder(a, b);
    SymbolsOrder(Raw(a), Raw(b));
    ExpandSymbols(a);
    ExpandSymbols(b);
    ExpandKeepsOrder(Symbols(a), Symbols(b));
    TokensOfRaw(a);
    TokensOfRaw(b);
    ExpandKeepsOrder(TokensFrom(a, 0), TokensFrom(b, 0));
  }
}
