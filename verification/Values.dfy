/** Values as bytes, their UTF-8 reading, and the test for binary values. */
module Values {

  datatype Option<+T> = None | Some(value: T)

  type byte = b: int | 0 <= b < 256
  type bytes = seq<byte>

  // ---------------------------------------------------------------- UTF-8

  function EncodeChar(c: char): bytes {
    var n := c as int;
    if n < 0x80 then [n]
    else if n < 0x800 then [0xC0 + n / 0x40, 0x80 + n % 0x40]
    else if n < 0x10000 then [0xE0 + n / 0x1000, 0x80 + n / 0x40 % 0x40, 0x80 + n % 0x40]
    else [0xF0 + n / 0x40000, 0x80 + n / 0x1000 % 0x40, 0x80 + n / 0x40 % 0x40, 0x80 + n % 0x40]
  }

  function Encode(s: string): bytes {
    if s == "" then [] else EncodeChar(s[0]) + Encode(s[1..])
  }

  predicate Continuation(b: byte) { 0x80 <= b < 0xC0 }

  datatype Rune = Rune(c: char, width: nat)

  /** The first character of `data` and the bytes it takes; nothing for a malformed,
      overlong, surrogate or out-of-range sequence. */
  function DecodeRune(data: bytes): (r: Option<Rune>)
    requires data != []
    ensures r.Some? ==> 0 < r.value.width <= |data|
  {
    var b: int := data[0];
    if b < 0x80 then Some(Rune(b as char, 1))
    else if 0xC2 <= b < 0xE0 && |data| >= 2 && Continuation(data[1]) then
      Some(Rune(((b - 0xC0) * 0x40 + Payload(data[1])) as char, 2))
    else if 0xE0 <= b < 0xF0 && |data| >= 3 && Continuation(data[1]) && Continuation(data[2])
            && (b == 0xE0 ==> data[1] >= 0xA0) && (b == 0xED ==> data[1] < 0xA0) then
      Some(Rune(((b - 0xE0) * 0x1000 + Payload(data[1]) * 0x40 + Payload(data[2])) as char, 3))
    else if 0xF0 <= b < 0xF5 && |data| >= 4 && Continuation(data[1]) && Continuation(data[2]) && Continuation(data[3])
            && (b == 0xF0 ==> data[1] >= 0x90) && (b == 0xF4 ==> data[1] < 0x90) then
      Some(Rune(((b - 0xF0) * 0x40000 + Payload(data[1]) * 0x1000 + Payload(data[2]) * 0x40 + Payload(data[3])) as char, 4))
    else None
  }

  /** The six bits a continuation byte carries. */
  function Payload(b: byte): int { b - 0x80 }

  lemma Sextets(n: nat)
    ensures n == n / 0x40 * 0x40 + n % 0x40
    ensures n / 0x40 == n / 0x1000 * 0x40 + n / 0x40 % 0x40
    ensures n / 0x1000 == n / 0x40000 * 0x40 + n / 0x1000 % 0x40
  {
    assert n / 0x40 / 0x40 == n / 0x1000;
    assert n / 0x1000 / 0x40 == n / 0x40000;
  }

  lemma SextetsUnique(q: nat, r: nat)
    requires r < 0x40
    ensures (q * 0x40 + r) / 0x40 == q && (q * 0x40 + r) % 0x40 == r
  {
  }

  lemma DecodeEncodedChar(c: char, rest: bytes)
    ensures DecodeRune(EncodeChar(c) + rest) == Some(Rune(c, |EncodeChar(c)|))
  {
    var n, data := c as int, EncodeChar(c) + rest;
    Sextets(n);
    var e := EncodeChar(c);
    assert data[0] == e[0];
    if n < 0x80 {
    } else if n < 0x800 {
      assert data[1] == e[1];
    } else if n < 0x10000 {
      assert data[1] == e[1] && data[2] == e[2];
    } else {
      assert data[1] == e[1] && data[2] == e[2] && data[3] == e[3];
    }
  }

  lemma EncodeDecodedThree(data: bytes)
    requires data != [] && DecodeRune(data).Some? && DecodeRune(data).value.width == 3
    ensures EncodeChar(DecodeRune(data).value.c) == data[..3]
  {
    var n := DecodeRune(data).value.c as int;
    var q := (data[0] - 0xE0) * 0x40 + Payload(data[1]);
    SextetsUnique(q, Payload(data[2]));
    SextetsUnique(data[0] - 0xE0, Payload(data[1]));
    assert n / 0x1000 == q / 0x40;
  }

  lemma EncodeDecodedFour(data: bytes)
    requires data != [] && DecodeRune(data).Some? && DecodeRune(data).value.width == 4
    ensures EncodeChar(DecodeRune(data).value.c) == data[..4]
  {
    var n := DecodeRune(data).value.c as int;
    var q := (data[0] - 0xF0) * 0x40 + Payload(data[1]);
    var p := q * 0x40 + Payload(data[2]);
    SextetsUnique(p, Payload(data[3]));
    SextetsUnique(q, Payload(data[2]));
    SextetsUnique(data[0] - 0xF0, Payload(data[1]));
    assert n / 0x1000 == p / 0x40 && n / 0x40000 == q / 0x40;
  }

  lemma EncodeDecodedChar(data: bytes)
    requires data != [] && DecodeRune(data).Some?
    ensures EncodeChar(DecodeRune(data).value.c) == data[..DecodeRune(data).value.width]
  {
    var width := DecodeRune(data).value.width;
    if width == 2 {
      SextetsUnique(data[0] - 0xC0, Payload(data[1]));
    } else if width == 3 {
      EncodeDecodedThree(data);
    } else if width == 4 {
      EncodeDecodedFour(data);
    }
  }

  // ---------------------------------------------------------------- binary values

  /** Control characters other than line feed, tab and carriage return, and DEL. */
  predicate DisallowedControl(c: char) {
    (c as int < 0x20 && c != '\n' && c != '\t' && c != '\r') || c as int == 0x7F
  }

  predicate Allowed(c: char) { c == '\t' || c == '\n' || c == '\r' || (c as int >= 0x20 && c as int != 0x7F) }

  predicate NoDisallowedControl(s: string) { forall c | c in s :: Allowed(c) }

  lemma AllowedIff(c: char)
    ensures Allowed(c) <==> !DisallowedControl(c)
  {
  }

  predicate IsBinaryValue(data: bytes) {
    if data == [] then false
    else match DecodeRune(data)
      case None => true
      case Some(r) => DisallowedControl(r.c) || IsBinaryValue(data[r.width..])
  }

  /** The text a value that is not binary spells. */
  function Text(data: bytes): (s: string)
    requires !IsBinaryValue(data)
    ensures Encode(s) == data && NoDisallowedControl(s)
  {
    if data == [] then ""
    else
      var r := DecodeRune(data).value;
      EncodeDecodedChar(data);
      assert data == data[..r.width] + data[r.width..];
      var t := Text(data[r.width..]);
      assert ([r.c] + t)[1..] == t;
      [r.c] + t
  }

  lemma TextOneMore(c: char, head: bytes, rest: bytes)
    requires head != [] && DecodeRune(head + rest) == Some(Rune(c, |head|))
    requires !DisallowedControl(c) && !IsBinaryValue(rest)
    ensures !IsBinaryValue(head + rest) && Text(head + rest) == [c] + Text(rest)
  {
    hide DecodeRune, DisallowedControl;
    assert (head + rest)[|head|..] == rest;
  }

  /** A value is text exactly when it encodes a string without disallowed controls, and
      that string is the only one it encodes. */
  lemma {:induction false} EncodedTextIsNotBinary(s: string)
    requires NoDisallowedControl(s)
    ensures !IsBinaryValue(Encode(s)) && Text(Encode(s)) == s
  {
    if s != "" {
      hide DecodeRune, EncodeChar, IsBinaryValue, Text, DisallowedControl, Allowed;
      AllowedIff(s[0]);
      DecodeEncodedChar(s[0], Encode(s[1..]));
      EncodedTextIsNotBinary(s[1..]);
      TextOneMore(s[0], EncodeChar(s[0]), Encode(s[1..]));
      assert s == [s[0]] + s[1..];
    }
  }

  lemma TextIffEncoding(data: bytes)
    ensures !IsBinaryValue(data) <==> exists s :: NoDisallowedControl(s) && Encode(s) == data
  {
    if !IsBinaryValue(data) {
      assert Encode(Text(data)) == data;
    }
    forall s | NoDisallowedControl(s) && Encode(s) == data ensures !IsBinaryValue(data) {
      EncodedTextIsNotBinary(s);
    }
  }
}
