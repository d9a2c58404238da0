/** Natural string order: maximal digit runs compare by numeric value. */
module Natsort {
  import opened Sorting

  predicate IsDigit(c: char) { '0' <= c <= '9' }

  predicate AllDigits(s: string) { forall c | c in s :: IsDigit(c) }

  function Sign(x: int): int { if x < 0 then -1 else if x > 0 then 1 else 0 }

  // ---------------------------------------------------------------- specification

  /** A string read as a sequence of tokens: a maximal run of digits, or one other character. */
  datatype Token = Number(value: nat) | Symbol(c: char)

  /** The first position at or after `i` that holds no digit. */
  function RunEnd(s: string, i: nat): (e: nat)
    requires i <= |s|
    ensures i <= e <= |s|
    ensures AllDigits(s[i..e])
    ensures e < |s| ==> !IsDigit(s[e])
    decreases |s| - i
  {
    if i < |s| && IsDigit(s[i]) then
      var e := RunEnd(s, i + 1);
      assert s[i..e] == [s[i]] + s[i + 1..e];
      e
    else i
  }

  function Pow10(n: nat): nat { if n == 0 then 1 else 10 * Pow10(n - 1) }

  function Digit(c: char): nat
    requires IsDigit(c)
  {
    c as int - '0' as int
  }

  /** The number a digit run denotes in decimal notation. */
  function Value(run: string): nat
    requires AllDigits(run)
  {
    if run == "" then 0 else Digit(run[0]) * Pow10(|run| - 1) + Value(run[1..])
  }

  function TokensFrom(s: string, i: nat): seq<Token>
    requires i <= |s|
    decreases |s| - i
  {
    if i == |s| then []
    else if IsDigit(s[i]) then [Number(Value(s[i..RunEnd(s, i)]))] + TokensFrom(s, RunEnd(s, i))
    else [Symbol(s[i])] + TokensFrom(s, i + 1)
  }

  lemma NumberAt(s: string, i: nat)
    requires i < |s| && IsDigit(s[i])
    ensures i < RunEnd(s, i)
    ensures TokensFrom(s, i) == [Number(Value(s[i..RunEnd(s, i)]))] + TokensFrom(s, RunEnd(s, i))
  {
    hide Value;
  }

  /** Numbers compare by value and sort where the digits sit among the characters. */
  function CompareTokens(s: Token, t: Token): int {
    match (s, t)
    case (Number(x), Number(y)) => Sign(x - y)
    case (Number(_), Symbol(d)) => if d < '0' then 1 else -1
    case (Symbol(c), Number(_)) => if c < '0' then -1 else 1
    case (Symbol(c), Symbol(d)) => Sign(c as int - d as int)
  }

  function Lexicographic(s: seq<Token>, t: seq<Token>): int {
    if s == [] then (if t == [] then 0 else -1)
    else if t == [] then 1
    else if CompareTokens(s[0], t[0]) != 0 then CompareTokens(s[0], t[0])
    else Lexicographic(s[1..], t[1..])
  }

  /** Plain character order, the tie-break. */
  function CompareChars(a: string, b: string): int {
    if a == "" then (if b == "" then 0 else -1)
    else if b == "" then 1
    else if a[0] != b[0] then Sign(a[0] as int - b[0] as int)
    else CompareChars(a[1..], b[1..])
  }

  /** The natural order: token by token, and by spelling when every token is equal. */
  function Order(a: string, b: string): int {
    var c := Lexicographic(TokensFrom(a, 0), TokensFrom(b, 0));
    if c != 0 then c else CompareChars(a, b)
  }

  predicate Less(a: string, b: string) { Order(a, b) < 0 }

  // ---------------------------------------------------------------- the algorithm

  method DigitRunEnd(s: string, start: nat) returns (i: nat)
    requires start <= |s|
    ensures i == RunEnd(s, start)
  {
    i := start;
    while i < |s| && IsDigit(s[i])
      invariant start <= i <= |s|
      invariant RunEnd(s, i) == RunEnd(s, start)
    {
      i := i + 1;
    }
  }

  function TrimZeros(s: string): string {
    if s != "" && s[0] == '0' then TrimZeros(s[1..]) else s
  }

  function CompareDigitRuns(a: string, b: string): int {
    var x, y := TrimZeros(a), TrimZeros(b);
    if |x| != |y| then (if |x| < |y| then -1 else 1) else CompareChars(x, y)
  }

  method Compare(a: string, b: string) returns (c: int)
    ensures c == Order(a, b)
  {
    hide TokensFrom, CompareDigitRuns, Value, RunEnd;
    var ai, bi := 0, 0;
    while ai < |a| && bi < |b|
      invariant ai <= |a| && bi <= |b|
      invariant Lexicographic(TokensFrom(a, 0), TokensFrom(b, 0)) == Lexicographic(TokensFrom(a, ai), TokensFrom(b, bi))
      decreases |a| - ai
    {
      var ca, cb := a[ai], b[bi];
      if IsDigit(ca) && IsDigit(cb) {
        var aEnd := DigitRunEnd(a, ai);
        var bEnd := DigitRunEnd(b, bi);
        c := CompareDigitRuns(a[ai..aEnd], b[bi..bEnd]);
        RunsCompareByValue(a[ai..aEnd], b[bi..bEnd]);
        NumberAt(a, ai);
        NumberAt(b, bi);
        if c != 0 { return; }
        ai, bi := aEnd, bEnd;
        continue;
      }
      FirstToken(a, ai);
      FirstToken(b, bi);
      if ca != cb {
        return if ca < cb then -1 else 1;
      }
      ai, bi := ai + 1, bi + 1;
    }
    EmptyOnlyAtEnd(a, ai);
    EmptyOnlyAtEnd(b, bi);
    if ai < |a| { return 1; }
    if bi < |b| { return -1; }
    c := CompareChars(a, b);
  }

  /** The first token starts with the character there. */
  lemma FirstToken(s: string, i: nat)
    requires i < |s|
    ensures TokensFrom(s, i) != []
    ensures IsDigit(s[i]) ==> TokensFrom(s, i)[0].Number?
    ensures !IsDigit(s[i]) ==> TokensFrom(s, i) == [Symbol(s[i])] + TokensFrom(s, i + 1)
  {
    hide Value, RunEnd;
  }

  lemma EmptyOnlyAtEnd(s: string, i: nat)
    requires i <= |s|
    ensures TokensFrom(s, i) == [] <==> i == |s|
  {
    hide Value, RunEnd;
  }

  // ---------------------------------------------------------------- digit runs

  lemma {:induction false} ValueBound(run: string)
    requires AllDigits(run)
    ensures Value(run) < Pow10(|run|)
    ensures run != "" && run[0] != '0' ==> Pow10(|run| - 1) <= Value(run)
  {
    if run != "" {
      ValueBound(run[1..]);
      LeadingDigitBounds(Digit(run[0]), Pow10(|run| - 1), Value(run[1..]));
    }
  }

  lemma LeadingDigitBounds(d: nat, p: nat, v: nat)
    requires d <= 9 && v < p
    ensures d * p + v < 10 * p
    ensures d > 0 ==> p <= d * p + v
  {
    assert d * p <= 9 * p;
    if d > 0 { assert 1 * p <= d * p; }
  }

  lemma LeadingDigitDecides(x: nat, y: nat, p: nat, v: nat, w: nat)
    requires x < y && v < p
    ensures x * p + v < y * p + w
  {
    assert (x + 1) * p <= y * p;
  }

  lemma {:induction false} Pow10Monotone(m: nat, n: nat)
    requires m <= n
    ensures Pow10(m) <= Pow10(n)
  {
    if m < n { Pow10Monotone(m, n - 1); }
  }

  lemma {:induction false} TrimKeepsValue(s: string)
    requires AllDigits(s)
    ensures AllDigits(TrimZeros(s)) && Value(TrimZeros(s)) == Value(s)
    ensures TrimZeros(s) != "" ==> TrimZeros(s)[0] != '0'
  {
    if s != "" && s[0] == '0' {
      TrimKeepsValue(s[1..]);
      assert 0 * Pow10(|s| - 1) == 0;
    }
  }

  lemma {:induction false} SameLengthByValue(a: string, b: string)
    requires AllDigits(a) && AllDigits(b) && |a| == |b|
    ensures CompareChars(a, b) == Sign(Value(a) - Value(b))
  {
    if a != "" {
      SameLengthByValue(a[1..], b[1..]);
      ValueBound(a[1..]);
      ValueBound(b[1..]);
      var p, x, y := Pow10(|a| - 1), Digit(a[0]), Digit(b[0]);
      if x < y {
        LeadingDigitDecides(x, y, p, Value(a[1..]), Value(b[1..]));
      } else if y < x {
        LeadingDigitDecides(y, x, p, Value(b[1..]), Value(a[1..]));
      }
    }
  }

  /** Comparing two runs by trimmed length and then spelling is comparing the numbers. */
  lemma RunsCompareByValue(a: string, b: string)
    requires AllDigits(a) && AllDigits(b)
    ensures CompareDigitRuns(a, b) == Sign(Value(a) - Value(b))
  {
    TrimKeepsValue(a);
    TrimKeepsValue(b);
    var x, y := TrimZeros(a), TrimZeros(b);
    ValueBound(x);
    ValueBound(y);
    if |x| == |y| {
      SameLengthByValue(x, y);
    } else if |x| < |y| {
      Pow10Monotone(|x|, |y| - 1);
    } else {
      Pow10Monotone(|y|, |x| - 1);
    }
  }

  // ---------------------------------------------------------------- a strict total order

  lemma {:induction false} LexicographicAntisymmetric(s: seq<Token>, t: seq<Token>)
    ensures Lexicographic(s, t) == -Lexicographic(t, s)
    ensures Lexicographic(s, t) == 0 ==> |s| == |t|
  {
    if s != [] && t != [] { LexicographicAntisymmetric(s[1..], t[1..]); }
  }

  lemma {:induction false} LexicographicTransitive(s: seq<Token>, t: seq<Token>, u: seq<Token>)
    requires Lexicographic(s, t) <= 0 && Lexicographic(t, u) <= 0
    ensures Lexicographic(s, u) <= 0
    ensures Lexicographic(s, t) < 0 || Lexicographic(t, u) < 0 ==> Lexicographic(s, u) < 0
  {
    if s != [] && t != [] && u != [] && CompareTokens(s[0], t[0]) == 0 && CompareTokens(t[0], u[0]) == 0 {
      LexicographicTransitive(s[1..], t[1..], u[1..]);
    }
  }

  lemma {:induction false} CharsAntisymmetric(a: string, b: string)
    ensures CompareChars(a, b) == -CompareChars(b, a)
    ensures CompareChars(a, b) == 0 <==> a == b
  {
    if a != "" && b != "" {
      CharsAntisymmetric(a[1..], b[1..]);
      assert a == [a[0]] + a[1..] && b == [b[0]] + b[1..];
    }
  }

  lemma {:induction false} CharsTransitive(a: string, b: string, c: string)
    requires CompareChars(a, b) < 0 && CompareChars(b, c) < 0
    ensures CompareChars(a, c) < 0
  {
    if a != "" && b != "" && c != "" && a[0] == b[0] && b[0] == c[0] {
      CharsTransitive(a[1..], b[1..], c[1..]);
    }
  }

  /** Antisymmetric, and 0 only for identical strings. */
  lemma OrderAntisymmetric(a: string, b: string)
    ensures Order(a, b) == -Order(b, a)
    ensures Order(a, b) == 0 <==> a == b
  {
    LexicographicAntisymmetric(TokensFrom(a, 0), TokensFrom(b, 0));
    CharsAntisymmetric(a, b);
    if a == b { LexicographicAntisymmetric(TokensFrom(a, 0), TokensFrom(a, 0)); }
  }

  lemma OrderTransitive(a: string, b: string, c: string)
    requires Order(a, b) < 0 && Order(b, c) < 0
    ensures Order(a, c) < 0
  {
    var s, t, u := TokensFrom(a, 0), TokensFrom(b, 0), TokensFrom(c, 0);
    LexicographicTransitive(s, t, u);
    if Lexicographic(s, t) == 0 && Lexicographic(t, u) == 0 {
      LexicographicAntisymmetric(s, t);
      LexicographicAntisymmetric(t, u);
      LexicographicTransitive(u, t, s);
      LexicographicAntisymmetric(s, u);
      CharsTransitive(a, b, c);
    }
  }

  /** The natural order is a strict total order, so sorting by it is canonical. */
  lemma LessIsStrictTotal()
    ensures StrictTotal(Less)
  {
    forall x, y ensures Less(x, y) ==> !Less(y, x) { OrderAntisymmetric(x, y); }
    forall x, y ensures x == y || Less(x, y) || Less(y, x) { OrderAntisymmetric(x, y); }
    forall x, y, z | Less(x, z) ensures Less(x, y) || Less(y, z) {
      OrderAntisymmetric(x, y);
      OrderAntisymmetric(y, z);
      if !Less(x, y) && !Less(y, z) && x != y && y != z {
        OrderTransitive(z, y, x);
        OrderAntisymmetric(x, z);
      }
    }
  }

  /** The plain order of strings. */
  predicate CharsLess(a: string, b: string) { CompareChars(a, b) < 0 }

  lemma CharsSplit(a: string, b: string, c: string)
    requires CompareChars(a, c) < 0
    ensures CompareChars(a, b) < 0 || CompareChars(b, c) < 0
  {
    CharsAntisymmetric(a, b);
    CharsAntisymmetric(b, c);
    if CompareChars(b, a) < 0 && CompareChars(c, b) < 0 {
      CharsTransitive(c, b, a);
      CharsAntisymmetric(a, c);
    }
  }

  lemma CharsLessIsStrictTotal()
    ensures StrictTotal(CharsLess)
  {
    forall x, y ensures CharsLess(x, y) ==> !CharsLess(y, x)
      ensures x == y || CharsLess(x, y) || CharsLess(y, x)
    {
      CharsAntisymmetric(x, y);
    }
    forall x, y, z | CharsLess(x, z) ensures CharsLess(x, y) || CharsLess(y, z) { CharsSplit(x, y, z); }
  }

  // ---------------------------------------------------------------- which comes first

  /** The first difference of the two lists: one of them ends there, or the element of `s` is
      the lesser there. */
  ghost predicate Differ<T(!new)>(less: (T, T) -> bool, s: seq<T>, t: seq<T>, k: nat) {
    && k <= |s| && k < |t| && s[..k] == t[..k]
    && (k == |s| || less(s[k], t[k]))
  }

  ghost predicate Precedes<T(!new)>(less: (T, T) -> bool, s: seq<T>, t: seq<T>) { exists k: nat :: Differ(less, s, t, k) }

  predicate CharLess(c: char, d: char) { c < d }

  /** A number is before a greater one; a digit is before the characters after '9' and after
      those before '0'. */
  predicate TokenLess(s: Token, t: Token) {
    match (s, t)
    case (Number(x), Number(y)) => x < y
    case (Number(_), Symbol(d)) => '9' < d || IsDigit(d)
    case (Symbol(c), Number(_)) => c < '0'
    case (Symbol(c), Symbol(d)) => c < d
  }

  lemma PrecedesLater<T(!new)>(less: (T, T) -> bool, s: seq<T>, t: seq<T>)
    requires s != [] && t != [] && s[0] == t[0] && !less(s[0], t[0])
    ensures Precedes(less, s, t) <==> Precedes(less, s[1..], t[1..])
  {
    if k: nat :| Differ(less, s, t, k) {
      assert s[..k][0] == s[0];
      assert s[1..][..k - 1] == s[..k][1..] && t[1..][..k - 1] == t[..k][1..];
      assert Differ(less, s[1..], t[1..], k - 1);
    }
    if k: nat :| Differ(less, s[1..], t[1..], k) {
      assert s[..k + 1] == [s[0]] + s[1..][..k] && t[..k + 1] == [t[0]] + t[1..][..k];
      assert Differ(less, s, t, k + 1);
    }
  }

  lemma PrecedesNow<T(!new)>(less: (T, T) -> bool, s: seq<T>, t: seq<T>)
    requires s == [] || t == [] || s[0] != t[0]
    ensures Precedes(less, s, t) <==> t != [] && (s == [] || less(s[0], t[0]))
  {
    forall k: nat | 0 < k <= |s| && k <= |t| ensures s[..k] != t[..k] {
      assert s[..k][0] == s[0] && t[..k][0] == t[0];
    }
    if t != [] && (s == [] || less(s[0], t[0])) { assert Differ(less, s, t, 0); }
  }

  lemma {:induction false} CharsPrecede(a: string, b: string)
    ensures CompareChars(a, b) < 0 <==> Precedes(CharLess, a, b)
  {
    hide Precedes;
    if a == "" || b == "" || a[0] != b[0] {
      PrecedesNow(CharLess, a, b);
    } else {
      PrecedesLater(CharLess, a, b);
      CharsPrecede(a[1..], b[1..]);
    }
  }

  lemma {:induction false} TokensPrecede(s: seq<Token>, t: seq<Token>)
    requires forall x | x in s + t && x.Symbol? :: !IsDigit(x.c)
    ensures Lexicographic(s, t) < 0 <==> Precedes(TokenLess, s, t)
    ensures Lexicographic(s, t) == 0 <==> s == t
  {
    hide Precedes;
    if s == [] || t == [] || s[0] != t[0] {
      if s != [] && t != [] { assert s[0] in s + t && t[0] in s + t; }
      PrecedesNow(TokenLess, s, t);
    } else {
      forall x | x in s[1..] + t[1..] ensures x in s + t {}
      PrecedesLater(TokenLess, s, t);
      TokensPrecede(s[1..], t[1..]);
      assert s == [s[0]] + s[1..] && t == [t[0]] + t[1..];
    }
  }

  lemma {:induction false} SymbolsAreNoDigits(s: string, i: nat)
    requires i <= |s|
    ensures forall x | x in TokensFrom(s, i) && x.Symbol? :: !IsDigit(x.c)
    decreases |s| - i
  {
    hide Value, RunEnd;
    if i < |s| {
      if IsDigit(s[i]) {
        NumberAt(s, i);
        SymbolsAreNoDigits(s, RunEnd(s, i));
      } else {
        SymbolsAreNoDigits(s, i + 1);
      }
    }
  }

  /** A string comes before another exactly when its tokens do, at their first difference; and
      when the tokens are the same, when its characters do. */
  lemma OrderMeans(a: string, b: string)
    ensures var s, t := TokensFrom(a, 0), TokensFrom(b, 0);
      Order(a, b) < 0 <==> if s == t then Precedes(CharLess, a, b) else Precedes(TokenLess, s, t)
  {
    hide Precedes, Lexicographic, CompareChars;
    SymbolsAreNoDigits(a, 0);
    SymbolsAreNoDigits(b, 0);
    TokensPrecede(TokensFrom(a, 0), TokensFrom(b, 0));
    CharsPrecede(a, b);
  }
}
