/** The edit distance behind "did you mean": the two-row loop computes the least number of
    byte insertions, deletions and substitutions, and that number is a metric. */
module Levenshtein {
  import opened Values

  function Min(x: nat, y: nat): nat { if x <= y then x else y }

  /** The recurrence on the last bytes. */
  function Distance(a: bytes, b: bytes): nat
    decreases |a| + |b|
  {
    if a == [] then |b|
    else if b == [] then |a|
    else
      var x, y := a[..|a| - 1], b[..|b| - 1];
      Min(Min(Distance(a, y) + 1, Distance(x, b) + 1), Distance(x, y) + Cost1(a[|a| - 1], b[|b| - 1]))
  }

  function Cost1(x: byte, y: byte): nat { if x == y then 0 else 1 }

  // ---------------------------------------------------------------- the loop

  /** `row` holds the distances of `a` to every prefix of `b` up to the `n`-th. */
  ghost predicate IsRow(row: seq<int>, a: bytes, b: bytes, n: nat) {
    |row| == |b| + 1 && forall j: nat | j < n && j <= |b| :: row[j] == Distance(a, b[..j])
  }

  lemma NextCell(a: bytes, b: bytes, i: nat, j: nat)
    requires 0 < i <= |a| && 0 < j <= |b|
    ensures Distance(a[..i], b[..j]) ==
            Min(Min(Distance(a[..i], b[..j - 1]) + 1, Distance(a[..i - 1], b[..j]) + 1),
                Distance(a[..i - 1], b[..j - 1]) + Cost1(a[i - 1], b[j - 1]))
  {
    hide Cost1, Min;
    assert a[..i][..i - 1] == a[..i - 1] && b[..j][..j - 1] == b[..j - 1];
  }

  method Levenshtein(a: bytes, b: bytes) returns (distance: int)
    ensures distance == Distance(a, b)
  {
    hide Distance;
    var previous := new int[|b| + 1];
    for j := 0 to |b| + 1
      invariant forall k | 0 <= k < j :: previous[k] == k
    {
      previous[j] := j;
    }
    EmptyRow(previous[..], b);
    assert a[..0] == [];
    for i := 1 to |a| + 1
      invariant fresh(previous) && previous.Length == |b| + 1
      invariant IsRow(previous[..], a[..i - 1], b, |b| + 1)
    {
      var current := new int[|b| + 1];
      current[0] := i;
      FirstCell(a[..i]);
      assert b[..0] == [];
      for j := 1 to |b| + 1
        invariant IsRow(current[..], a[..i], b, j)
        invariant IsRow(previous[..], a[..i - 1], b, |b| + 1)
      {
        var cost := if a[i - 1] != b[j - 1] then 1 else 0;
        NextCell(a, b, i, j);
        assert previous[..][j] == previous[j] && previous[..][j - 1] == previous[j - 1] && current[..][j - 1] == current[j - 1];
        ghost var done := current[..];
        current[j] := Min3(current[j - 1] + 1, previous[j] + 1, previous[j - 1] + cost);
        assert current[..] == done[j := current[j]];
      }
      previous := current;
    }
    assert a[..|a|] == a && b[..|b|] == b;
    distance := previous[|b|];
    assert previous[..][|b|] == distance;
  }

  function Min3(x: int, y: int, z: int): int {
    if x <= y && x <= z then x else if y <= z then y else z
  }

  lemma EmptyRow(row: seq<int>, b: bytes)
    requires |row| == |b| + 1 && forall k | 0 <= k < |row| :: row[k] == k
    ensures IsRow(row, [], b, |b| + 1)
  {
  }

  lemma FirstCell(a: bytes)
    ensures Distance(a, []) == |a|
  {
  }

  // ---------------------------------------------------------------- alignments

  /** One column of an alignment of two strings. */
  datatype Column = Insert(y: byte) | Delete(x: byte) | Replace(x: byte, y: byte)

  function Source(s: seq<Column>): bytes {
    if s == [] then []
    else
      var last := s[|s| - 1];
      Source(s[..|s| - 1]) + (if last.Insert? then [] else [last.x])
  }

  function Target(s: seq<Column>): bytes {
    if s == [] then []
    else
      var last := s[|s| - 1];
      Target(s[..|s| - 1]) + (if last.Delete? then [] else [last.y])
  }

  function Weight(c: Column): nat { if c.Replace? then Cost1(c.x, c.y) else 1 }

  function Cost(s: seq<Column>): nat {
    if s == [] then 0 else Cost(s[..|s| - 1]) + Weight(s[|s| - 1])
  }

  lemma Appended(s: seq<Column>, c: Column)
    ensures Source(s + [c]) == if c.Insert? then Source(s) else Source(s) + [c.x]
    ensures Target(s + [c]) == if c.Delete? then Target(s) else Target(s) + [c.y]
    ensures Cost(s + [c]) == Cost(s) + Weight(c)
  {
    assert (s + [c])[..|s|] == s;
  }

  lemma LastByte(s: bytes, x: byte)
    ensures (s + [x])[..|s + [x]| - 1] == s && (s + [x])[|s + [x]| - 1] == x
  {
  }

  lemma StepDistance(a: bytes, b: bytes, x: byte, y: byte)
    ensures Distance(a + [x], b) <= Distance(a, b) + 1
    ensures Distance(a, b + [y]) <= Distance(a, b) + 1
    ensures Distance(a + [x], b + [y]) <= Distance(a, b) + Cost1(x, y)
  {
    LastByte(a, x);
    LastByte(b, y);
  }

  /** No alignment costs less than the distance. */
  lemma {:induction false} NoneCheaper(s: seq<Column>)
    ensures Distance(Source(s), Target(s)) <= Cost(s)
  {
    hide Distance;
    if s == [] {
      FirstCell([]);
    } else {
      var init, last := s[..|s| - 1], s[|s| - 1];
      NoneCheaper(init);
      assert s == init + [last];
      Appended(init, last);
      StepDistance(Source(init), Target(init), if last.Insert? then 0 else last.x, if last.Delete? then 0 else last.y);
    }
  }

  /** What the recurrence chose for the last column. */
  lemma LastColumn(a: bytes, b: bytes) returns (c: Column)
    requires a != [] || b != []
    ensures !c.Insert? ==> a != [] && c.x == a[|a| - 1]
    ensures !c.Delete? ==> b != [] && c.y == b[|b| - 1]
    ensures Distance(a, b) == Distance(if c.Insert? then a else a[..|a| - 1], if c.Delete? then b else b[..|b| - 1]) + Weight(c)
  {
    if a == [] { return Insert(b[|b| - 1]); }
    if b == [] {
      FirstCell(a[..|a| - 1]);
      return Delete(a[|a| - 1]);
    }
    if Distance(a, b) == Distance(a, b[..|b| - 1]) + 1 { return Insert(b[|b| - 1]); }
    if Distance(a, b) == Distance(a[..|a| - 1], b) + 1 { return Delete(a[|a| - 1]); }
    return Replace(a[|a| - 1], b[|b| - 1]);
  }

  lemma Rejoin(s: seq<Column>, c: Column, a: bytes, b: bytes)
    requires !c.Insert? ==> a != [] && c.x == a[|a| - 1]
    requires !c.Delete? ==> b != [] && c.y == b[|b| - 1]
    requires Source(s) == if c.Insert? then a else a[..|a| - 1]
    requires Target(s) == if c.Delete? then b else b[..|b| - 1]
    ensures Source(s + [c]) == a && Target(s + [c]) == b && Cost(s + [c]) == Cost(s) + Weight(c)
  {
    hide Source, Target, Cost, Weight;
    Appended(s, c);
    if !c.Insert? { assert a == a[..|a| - 1] + [c.x]; }
    if !c.Delete? { assert b == b[..|b| - 1] + [c.y]; }
  }

  /** Some alignment costs no more than the distance. */
  lemma {:induction false} Best(a: bytes, b: bytes) returns (s: seq<Column>)
    ensures Source(s) == a && Target(s) == b && Cost(s) == Distance(a, b)
    decreases |a| + |b|
  {
    if a == [] && b == [] {
      s := [];
    } else {
      hide Distance, Source, Target, Cost, Weight;
      var c := LastColumn(a, b);
      s := Best(if c.Insert? then a else a[..|a| - 1], if c.Delete? then b else b[..|b| - 1]);
      Rejoin(s, c, a, b);
      s := s + [c];
    }
  }

  /** Two alignments that meet in the middle make one that costs no more than both. */
  function Compose(s: seq<Column>, t: seq<Column>): (r: seq<Column>)
    requires Target(s) == Source(t)
    ensures Source(r) == Source(s) && Target(r) == Target(t) && Cost(r) <= Cost(s) + Cost(t)
    decreases |s| + |t|
  {
    if s == [] && t == [] then []
    else if s != [] && s[|s| - 1].Delete? then
      var r := Compose(s[..|s| - 1], t);
      Appended(r, s[|s| - 1]);
      r + [s[|s| - 1]]
    else if t != [] && t[|t| - 1].Insert? then
      var r := Compose(s, t[..|t| - 1]);
      Appended(r, t[|t| - 1]);
      r + [t[|t| - 1]]
    else
      assert |Target(s)| == |Source(t)|;
      var c, d := s[|s| - 1], t[|t| - 1];
      LastByte(Target(s[..|s| - 1]), c.y);
      LastByte(Source(t[..|t| - 1]), d.x);
      var r := Compose(s[..|s| - 1], t[..|t| - 1]);
      if c.Insert? && d.Delete? then r
      else
        var e := if c.Insert? then Insert(d.y) else if d.Delete? then Delete(c.x) else Replace(c.x, d.y);
        Appended(r, e);
        r + [e]
  }

  function Inverse(s: seq<Column>): (r: seq<Column>)
    ensures Source(r) == Target(s) && Target(r) == Source(s) && Cost(r) == Cost(s)
  {
    if s == [] then []
    else
      var r, last := Inverse(s[..|s| - 1]), s[|s| - 1];
      var c := match last
        case Insert(y) => Delete(y)
        case Delete(x) => Insert(x)
        case Replace(x, y) => Replace(y, x);
      Appended(r, c);
      r + [c]
  }

  // ---------------------------------------------------------------- a metric

  lemma Symmetric(a: bytes, b: bytes)
    ensures Distance(a, b) == Distance(b, a)
  {
    var s := Best(a, b);
    var t := Best(b, a);
    NoneCheaper(Inverse(s));
    NoneCheaper(Inverse(t));
  }

  lemma Triangle(a: bytes, b: bytes, c: bytes)
    ensures Distance(a, c) <= Distance(a, b) + Distance(b, c)
  {
    var s := Best(a, b);
    var t := Best(b, c);
    NoneCheaper(Compose(s, t));
  }

  lemma {:induction false} ZeroIffEqual(a: bytes, b: bytes)
    ensures Distance(a, b) == 0 <==> a == b
    decreases |a| + |b|
  {
    if a != [] && b != [] {
      ZeroIffEqual(a[..|a| - 1], b[..|b| - 1]);
      assert a == a[..|a| - 1] + [a[|a| - 1]] && b == b[..|b| - 1] + [b[|b| - 1]];
    }
  }

  // ---------------------------------------------------------------- single edits

  function Inserted(s: bytes, i: nat, y: byte): bytes
    requires i <= |s|
  {
    s[..i] + [y] + s[i..]
  }

  function Deleted(s: bytes, i: nat): bytes
    requires i < |s|
  {
    s[..i] + s[i + 1..]
  }

  function Replaced(s: bytes, i: nat, y: byte): bytes
    requires i < |s|
  {
    s[..i] + [y] + s[i + 1..]
  }

  /** `t` is `s` with one byte inserted, deleted or replaced, anywhere. */
  ghost predicate OneEdit(s: bytes, t: bytes) {
    || (exists i: nat, y: byte :: i <= |s| && t == Inserted(s, i, y))
    || (exists i: nat :: i < |s| && t == Deleted(s, i))
    || (exists i: nat, y: byte :: i < |s| && t == Replaced(s, i, y))
  }

  /** A way from the first string to the last, one edit at a time. */
  ghost predicate Edits(path: seq<bytes>) {
    path != [] && forall i | 0 < i < |path| :: OneEdit(path[i - 1], path[i])
  }

  lemma {:induction false} SamePrefix(p: bytes, a: bytes, b: bytes)
    ensures Distance(a + p, b + p) <= Distance(a, b)
  {
    if p == [] {
      assert a + p == a && b + p == b;
    } else {
      var init, last := p[..|p| - 1], p[|p| - 1];
      SamePrefix(init, a, b);
      assert a + p == (a + init) + [last] && b + p == (b + init) + [last];
      LastByte(a + init, last);
      LastByte(b + init, last);
    }
  }

  lemma Equal(s: bytes)
    ensures Distance(s, s) == 0
  {
    ZeroIffEqual(s, s);
  }

  lemma OneEditIsNear(s: bytes, t: bytes)
    requires OneEdit(s, t)
    ensures Distance(s, t) <= 1
  {
    hide Distance, Inserted, Deleted, Replaced;
    if i: nat, y: byte :| i <= |s| && t == Inserted(s, i, y) {
      InsertedIsNear(s, i, y);
    } else if i: nat :| i < |s| && t == Deleted(s, i) {
      DeletedIsNear(s, i);
    } else {
      var i: nat, y: byte :| i < |s| && t == Replaced(s, i, y);
      ReplacedIsNear(s, i, y);
    }
  }

  lemma InsertedIsNear(s: bytes, i: nat, y: byte)
    requires i <= |s|
    ensures Distance(s, Inserted(s, i, y)) <= 1
  {
    hide Distance;
    Equal(s[..i]);
    StepDistance(s[..i], s[..i], y, y);
    SamePrefix(s[i..], s[..i], s[..i] + [y]);
    assert s == s[..i] + s[i..];
  }

  lemma DeletedIsNear(s: bytes, i: nat)
    requires i < |s|
    ensures Distance(s, Deleted(s, i)) <= 1
  {
    hide Distance;
    Equal(s[..i]);
    StepDistance(s[..i], s[..i], s[i], s[i]);
    SamePrefix(s[i + 1..], s[..i] + [s[i]], s[..i]);
    assert s == s[..i] + [s[i]] + s[i + 1..];
  }

  lemma ReplacedIsNear(s: bytes, i: nat, y: byte)
    requires i < |s|
    ensures Distance(s, Replaced(s, i, y)) <= 1
  {
    hide Distance;
    Equal(s[..i]);
    StepDistance(s[..i], s[..i], s[i], y);
    SamePrefix(s[i + 1..], s[..i] + [s[i]], s[..i] + [y]);
    assert s == s[..i] + [s[i]] + s[i + 1..];
  }

  /** No way from one string to another is shorter than their distance. */
  lemma {:induction false} NoShorterWay(path: seq<bytes>)
    requires Edits(path)
    ensures Distance(path[0], path[|path| - 1]) <= |path| - 1
  {
    if |path| == 1 {
      ZeroIffEqual(path[0], path[0]);
    } else {
      NoShorterWay(path[..|path| - 1]);
      OneEditIsNear(path[|path| - 2], path[|path| - 1]);
      Triangle(path[0], path[|path| - 2], path[|path| - 1]);
    }
  }

  lemma {:induction false} Extended(path: seq<bytes>, tail: bytes) returns (longer: seq<bytes>)
    requires Edits(path)
    ensures Edits(longer) && |longer| == |path|
    ensures longer[0] == path[0] + tail && longer[|longer| - 1] == path[|path| - 1] + tail
  {
    longer := seq(|path|, i requires 0 <= i < |path| => path[i] + tail);
    forall i | 0 < i < |longer| ensures OneEdit(longer[i - 1], longer[i]) { EditBefore(path[i - 1], path[i], tail); }
  }

  lemma EditBefore(s: bytes, t: bytes, tail: bytes)
    requires OneEdit(s, t)
    ensures OneEdit(s + tail, t + tail)
  {
    hide Inserted, Deleted, Replaced;
    if i: nat, y: byte :| i <= |s| && t == Inserted(s, i, y) {
      InsertedBefore(s, i, y, tail);
    } else if i: nat :| i < |s| && t == Deleted(s, i) {
      DeletedBefore(s, i, tail);
    } else {
      var i: nat, y: byte :| i < |s| && t == Replaced(s, i, y);
      ReplacedBefore(s, i, y, tail);
    }
  }

  lemma InsertedBefore(s: bytes, i: nat, y: byte, tail: bytes)
    requires i <= |s|
    ensures Inserted(s, i, y) + tail == Inserted(s + tail, i, y)
  {
  }

  lemma DeletedBefore(s: bytes, i: nat, tail: bytes)
    requires i < |s|
    ensures Deleted(s, i) + tail == Deleted(s + tail, i)
  {
  }

  lemma ReplacedBefore(s: bytes, i: nat, y: byte, tail: bytes)
    requires i < |s|
    ensures Replaced(s, i, y) + tail == Replaced(s + tail, i, y)
  {
  }

  lemma OneMoreEdit(path: seq<bytes>, t: bytes)
    requires Edits(path) && OneEdit(path[|path| - 1], t)
    ensures Edits(path + [t])
  {
    hide OneEdit;
  }

  /** An alignment is a way: its columns, one after the other. */
  lemma {:induction false} WayOf(s: seq<Column>) returns (path: seq<bytes>)
    ensures Edits(path) && |path| == Cost(s) + 1
    ensures path[0] == Source(s) && path[|path| - 1] == Target(s)
  {
    hide Edits, OneEdit;
    if s == [] {
      path := OneStop();
      return;
    }
    var init, last := s[..|s| - 1], s[|s| - 1];
    path := WayOf(init);
    assert s == init + [last];
    Appended(init, last);
    if !last.Insert? { path := Extended(path, [last.x]); }
    var t := path[|path| - 1];
    if Weight(last) == 1 {
      LastEdit(Target(init), last);
      OneMoreEdit(path, Target(s));
      path := path + [Target(s)];
    }
  }

  lemma OneStop() returns (path: seq<bytes>)
    ensures path == [[]] && Edits(path)
  {
    return [[]];
  }

  lemma LastEdit(s: bytes, c: Column)
    requires Weight(c) == 1
    ensures OneEdit(if c.Insert? then s else s + [c.x], if c.Delete? then s else s + [c.y])
  {
    match c
    case Insert(y) => assert s + [y] == Inserted(s, |s|, y);
    case Delete(x) => assert s == Deleted(s + [x], |s|);
    case Replace(x, y) => assert s + [y] == Replaced(s + [x], |s|, y);
  }

  /** The distance is the length of the shortest way: some way is that long, none is shorter. */
  lemma DistanceIsLeast(a: bytes, b: bytes)
    ensures exists path :: Edits(path) && path[0] == a && path[|path| - 1] == b && |path| - 1 == Distance(a, b)
    ensures forall path | Edits(path) && path[0] == a && path[|path| - 1] == b :: Distance(a, b) <= |path| - 1
  {
    var s := Best(a, b);
    var path := WayOf(s);
    forall path | Edits(path) && path[0] == a && path[|path| - 1] == b ensures Distance(a, b) <= |path| - 1 { NoShorterWay(path); }
  }

  /** The action closest to a misspelt one, when it is less than three edits away; the first
      of several equally close. */
  method ActionSuggestion(name: bytes, actions: seq<bytes>) returns (best: Option<nat>)
    ensures best.None? <==> forall i | 0 <= i < |actions| :: Distance(name, actions[i]) >= 3
    ensures best.Some? ==> best.value < |actions| && Distance(name, actions[best.value]) < 3
    ensures best.Some? ==> forall i | 0 <= i < |actions| ::
              if i < best.value then Distance(name, actions[i]) > Distance(name, actions[best.value])
              else Distance(name, actions[i]) >= Distance(name, actions[best.value])
  {
    hide Distance;
    var bestDistance := 3;
    best := None;
    for i := 0 to |actions|
      invariant best.None? ==> bestDistance == 3
      invariant best.Some? ==> best.value < i && bestDistance == Distance(name, actions[best.value]) < 3
      invariant forall j | 0 <= j < i ::
          if best.Some? && j < best.value then Distance(name, actions[j]) > bestDistance
          else Distance(name, actions[j]) >= bestDistance
    {
      var distance := Levenshtein(name, actions[i]);
      if distance < bestDistance { bestDistance, best := distance, Some(i); }
    }
  }
}
