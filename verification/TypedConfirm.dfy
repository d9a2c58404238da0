/** The typed commit gate: nothing is dispatched before the user has typed the word. */
module TypedConfirm {

  const CONFIRM_WORD := "YES"

  /** A key by what it does to a line of input: the keys that move the cursor carry where to,
      the keys that delete other than backspace carry the range they delete. */
  datatype KeyPress =
    | Char(c: char) | Enter | Esc | Backspace | Move(to: nat) | Erase(from: nat, upTo: nat) | OtherKey

  /** The Unicode white space characters. */
  predicate IsSpace(c: char) {
    var n := c as int;
    || 0x09 <= n <= 0x0D || 0x2000 <= n <= 0x200A
    || n in {0x20, 0x85, 0xA0, 0x1680, 0x2028, 0x2029, 0x202F, 0x205F, 0x3000}
  }

  function TrimLeft(s: string): string {
    if s != "" && IsSpace(s[0]) then TrimLeft(s[1..]) else s
  }

  function TrimRight(s: string): string {
    if s != "" && IsSpace(s[|s| - 1]) then TrimRight(s[..|s| - 1]) else s
  }

  function TrimSpace(s: string): string { TrimRight(TrimLeft(s)) }

  /** A line of input and its cursor. */
  datatype Line = Line(text: string, cursor: nat)

  function Least(a: nat, b: nat): nat { if a < b then a else b }

  function Cut(text: string, from: nat, upTo: nat): Line
    requires from <= upTo <= |text|
  {
    Line(text[..from] + text[upTo..], from)
  }

  /** One key at the cursor. */
  function Edited(line: Line, key: KeyPress): (r: Line)
    requires line.cursor <= |line.text|
    ensures r.cursor <= |r.text|
  {
    match key
    case Char(c) => Line(line.text[..line.cursor] + [c] + line.text[line.cursor..], line.cursor + 1)
    case Backspace => if line.cursor == 0 then line else Cut(line.text, line.cursor - 1, line.cursor)
    case Move(to) => Line(line.text, Least(to, |line.text|))
    case Erase(from, upTo) =>
      var last := Least(upTo, |line.text|);
      Cut(line.text, Least(from, last), last)
    case _ => line
  }

  /** What a run of key presses makes of an input that starts empty. */
  function LineOfKeys(keys: seq<KeyPress>): (r: Line)
    ensures r.cursor <= |r.text|
  {
    if keys == [] then Line("", 0) else Edited(LineOfKeys(keys[..|keys| - 1]), keys[|keys| - 1])
  }

  function TextOfKeys(keys: seq<KeyPress>): string { LineOfKeys(keys).text }

  class ConfirmGate {
    var input: Line
    /** Every key the gate consumed since it was last armed. */
    ghost var keys: seq<KeyPress>

    ghost predicate Valid()
      reads this
    {
      input == LineOfKeys(keys)
    }

    constructor ()
      ensures Valid() && keys == []
    {
      input, keys := Line("", 0), [];
    }

    method Arm()
      modifies this
      ensures Valid() && keys == []
    {
      input, keys := Line("", 0), [];
    }

    /** Confirms only on enter, with the word typed since the gate was armed. */
    method HandleKey(key: KeyPress) returns (confirmed: bool)
      requires Valid()
      modifies this
      ensures Valid() && keys == old(keys) + [key]
      ensures confirmed <==> key == Enter && TrimSpace(TextOfKeys(old(keys))) == CONFIRM_WORD
    {
      keys := keys + [key];
      assert keys[..|keys| - 1] == old(keys);
      if key == Enter {
        return TrimSpace(input.text) == CONFIRM_WORD;
      }
      input := Edited(input, key);
      confirmed := false;
    }
  }

  lemma {:induction false} TextWasTyped(keys: seq<KeyPress>)
    ensures |TextOfKeys(keys)| <= |keys|
    ensures forall c | c in TextOfKeys(keys) :: Char(c) in keys
  {
    if keys != [] {
      var before, key := keys[..|keys| - 1], keys[|keys| - 1];
      TextWasTyped(before);
      EditedHas(LineOfKeys(before), key);
      assert keys == before + [key];
    }
  }

  lemma EditedHas(line: Line, key: KeyPress)
    requires line.cursor <= |line.text|
    ensures |Edited(line, key).text| <= |line.text| + 1
    ensures forall c | c in Edited(line, key).text :: c in line.text || key == Char(c)
  {
  }

  /** Typing a text and nothing else leaves that text. */
  lemma {:induction false} TypedText(s: string)
    ensures LineOfKeys(seq(|s|, i requires 0 <= i < |s| => Char(s[i]))) == Line(s, |s|)
  {
    var keys := seq(|s|, i requires 0 <= i < |s| => Char(s[i]));
    if s != "" {
      var init := s[..|s| - 1];
      TypedText(init);
      assert keys[..|keys| - 1] == seq(|init|, i requires 0 <= i < |init| => Char(init[i]));
      assert init[..|init|] + [s[|s| - 1]] + init[|init|..] == s;
    }
  }

  lemma {:induction false} TrimKeepsOnly(s: string)
    ensures |TrimLeft(s)| <= |s| && forall c | c in TrimLeft(s) :: c in s
    ensures |TrimRight(s)| <= |s| && forall c | c in TrimRight(s) :: c in s
    decreases |s|
  {
    if s != "" {
      TrimKeepsOnly(s[1..]);
      TrimKeepsOnly(s[..|s| - 1]);
    }
  }

  /** Confirming takes typing the letters: whatever else was pressed since the gate was
      armed, each of them was, and at least three keys were. */
  lemma ConfirmingTakesTyping(keys: seq<KeyPress>)
    requires TrimSpace(TextOfKeys(keys)) == CONFIRM_WORD
    ensures |keys| >= 3 && Char('Y') in keys && Char('E') in keys && Char('S') in keys
  {
    var typed := TextOfKeys(keys);
    TextWasTyped(keys);
    TrimKeepsOnly(typed);
    TrimKeepsOnly(TrimLeft(typed));
    var word := TrimSpace(typed);
    assert word[0] in word && word[1] in word && word[2] in word;
  }

  /** What a key does at the cursor, between the text on its left and on its right. */
  lemma KeyAt(left: string, right: string, key: KeyPress)
    ensures var line, r := Line(left + right, |left|), Edited(Line(left + right, |left|), key);
      match key
      case Char(c) => r == Line(left + [c] + right, |left| + 1)
      case Backspace => if left == "" then r == line else r == Line(left[..|left| - 1] + right, |left| - 1)
      case Move(to) => r.text == line.text && r.cursor == if to <= |line.text| then to else |line.text|
      case Erase(_, _) => true
      case _ => r == line
  {
    assert (left + right)[..|left|] == left && (left + right)[|left|..] == right;
    if left != "" { assert (left + right)[..|left| - 1] == left[..|left| - 1]; }
  }

  /** Erasing takes out what lies between its ends and leaves the cursor there. */
  lemma Erased(line: Line, a: string, b: string, c: string)
    requires line.cursor <= |line.text| && line.text == a + b + c
    ensures Edited(line, Erase(|a|, |a + b|)) == Line(a + c, |a|)
  {
    assert line.text[..|a|] == a && line.text[|a + b|..] == c;
  }

  predicate Spaces(s: string) { forall c | c in s :: IsSpace(c) }

  /** Trimming takes white space from both ends and leaves none there. */
  lemma TrimSpaceCuts(s: string) returns (left: string, right: string)
    ensures Spaces(left) && Spaces(right) && s == left + TrimSpace(s) + right
    ensures var t := TrimSpace(s); t != "" ==> !IsSpace(t[0]) && !IsSpace(t[|t| - 1])
  {
    hide TrimLeft, TrimRight, IsSpace;
    left := LeftCut(s);
    right := RightCut(TrimLeft(s));
    if TrimSpace(s) != "" { assert TrimLeft(s)[0] == TrimSpace(s)[0]; }
  }

  lemma {:induction false} LeftCut(s: string) returns (left: string)
    ensures Spaces(left) && s == left + TrimLeft(s)
    ensures TrimLeft(s) != "" ==> !IsSpace(TrimLeft(s)[0])
  {
    hide IsSpace;
    left := "";
    if s != "" && IsSpace(s[0]) {
      var more := LeftCut(s[1..]);
      left := [s[0]] + more;
    }
  }

  lemma {:induction false} RightCut(s: string) returns (right: string)
    ensures Spaces(right) && s == TrimRight(s) + right
    ensures TrimRight(s) != "" ==> !IsSpace(TrimRight(s)[|TrimRight(s)| - 1])
  {
    hide IsSpace;
    right := "";
    if s != "" && IsSpace(s[|s| - 1]) {
      var more := RightCut(s[..|s| - 1]);
      right := more + [s[|s| - 1]];
    }
  }
}
