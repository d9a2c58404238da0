/** Reading key bindings from a config file and refusing those that collide on a screen. */
module Collisions {
  import opened ConfigLines
  import opened Resources
  import opened Sorting
  import Natsort

  datatype Fixed = Fixed(key: string, meaning: string)

  /** An action and its default keys in each scope class. */
  datatype Spec = Spec(name: string, defaults: map<string, seq<string>>)

  /** The actions, the scope classes of each screen, the keys no config can rebind, the keys
      reserved everywhere, and the spelling a key may have. */
  datatype Tables = Tables(specs: seq<Spec>, screens: map<string, seq<string>>, fixed: map<string, seq<Fixed>>,
                           reserved: seq<string>, validKey: string -> bool)

  datatype Problem =
    | CannotParse | LineTooLong | BadKey | UnknownAction | ReservedKey
    | BoundTwice(key: string, first: string, second: string, screen: string)

  datatype Error = Error(line: nat, problem: Problem)

  /** Something that uses a key on a screen. `line` is 0 unless the file put it there. */
  datatype Claim = Claim(id: string, line: nat, fixed: bool)

  const ACTION := "action:"
  const FIXED := "fixed:"
  const NUL: char := '\U{0000}'

  // ---------------------------------------------------------------- what a file says

  predicate Known(t: Tables, action: string) { exists i | 0 <= i < |t.specs| :: t.specs[i].name == action }

  ghost predicate ValidLine(t: Tables, line: Line) {
    match line
    case Skipped => true
    case Malformed => false
    case Bind(key, action) => key != "" && action != "" && t.validKey(key) && IsAction(t, action) && key !in t.reserved
  }

  ghost predicate IsAction(t: Tables, action: string) { exists s :: s in t.specs && s.name == action }

  /** What is wrong with a line: the first of the checks it fails. */
  ghost predicate Wrong(t: Tables, line: Line, problem: Problem) {
    match line
    case Skipped => false
    case Malformed => problem == CannotParse
    case Bind(key, action) =>
      match problem
      case CannotParse => key == "" || action == ""
      case BadKey => key != "" && action != "" && !t.validKey(key)
      case UnknownAction => key != "" && action != "" && t.validKey(key) && !IsAction(t, action)
      case ReservedKey => key != "" && action != "" && t.validKey(key) && IsAction(t, action) && key in t.reserved
      case _ => false
  }

  ghost predicate Binds(t: Tables, line: Line, action: string) { ValidLine(t, line) && line.Bind? && line.action == action }

  /** The file binds some key to the action, so its defaults no longer apply. */
  ghost predicate Overridden(t: Tables, lines: seq<Line>, action: string) {
    exists i | 0 <= i < |lines| :: Binds(t, lines[i], action)
  }

  /** The first line that binds the key to the action, counted from 1; 0 when there is none. */
  ghost function LineOf(t: Tables, lines: seq<Line>, action: string, key: string): nat {
    if lines == [] then 0
    else
      var before, n := LineOf(t, lines[..|lines| - 1], action, key), |lines|;
      if before > 0 then before
      else if Binds(t, lines[n - 1], action) && lines[n - 1].key == key then n
      else 0
  }

  ghost predicate IsDefault(s: Spec, classes: seq<string>, key: string) {
    exists i | 0 <= i < |classes| :: classes[i] in s.defaults && key in s.defaults[classes[i]]
  }

  ghost predicate HasDefaults(s: Spec, classes: seq<string>) { exists key :: IsDefault(s, classes, key) }

  /** What an action claims on a screen of these classes: the keys the file gives it, or its
      defaults; nothing on a screen where it has no defaults. */
  ghost predicate ActionClaims(t: Tables, lines: seq<Line>, s: Spec, classes: seq<string>, key: string, c: Claim) {
    && HasDefaults(s, classes) && c.id == ACTION + s.name && !c.fixed
    && if Overridden(t, lines, s.name) then LineOf(t, lines, s.name, key) > 0 && c.line == LineOf(t, lines, s.name, key)
       else IsDefault(s, classes, key) && c.line == 0
  }

  function FixedOf(t: Tables, screenClass: string): seq<Fixed> { if screenClass in t.fixed then t.fixed[screenClass] else [] }

  function FixedClaim(f: Fixed): Claim { Claim(FIXED + f.meaning, 0, true) }

  ghost predicate FixedIn(t: Tables, screenClass: string, key: string, c: Claim) {
    screenClass in t.fixed && exists f :: f in t.fixed[screenClass] && f.key == key && c == Claim(FIXED + f.meaning, 0, true)
  }

  ghost predicate FixedClaims(t: Tables, classes: seq<string>, key: string, c: Claim) {
    exists i | 0 <= i < |classes| :: FixedIn(t, classes[i], key, c)
  }

  ghost predicate Claims(t: Tables, lines: seq<Line>, classes: seq<string>, key: string, c: Claim) {
    || (exists s :: s in t.specs && ActionClaims(t, lines, s, classes, key, c))
    || FixedClaims(t, classes, key, c)
  }

  /** Two different claims on one key, at least one of them made by the file. */
  ghost predicate Clash(c: Claim, d: Claim) { c.id != d.id && (c.line > 0 || d.line > 0) }

  ghost predicate ClashOn(t: Tables, lines: seq<Line>, classes: seq<string>, key: string) {
    exists c, d :: Claims(t, lines, classes, key, c) && Claims(t, lines, classes, key, d) && Clash(c, d)
  }

  /** Some screen has a key with clashing claims. */
  ghost predicate Collides(t: Tables, lines: seq<Line>) {
    exists screen, key :: screen in t.screens && ClashOn(t, lines, t.screens[screen], key)
  }

  // ---------------------------------------------------------------- ids

  predicate NoNul(s: string) { NUL !in s }

  /** Names of actions and meanings of fixed keys hold no NUL. */
  ghost predicate PlainNames(t: Tables) {
    && (forall s | s in t.specs :: NoNul(s.name))
    && forall screenClass, f | screenClass in t.fixed && f in t.fixed[screenClass] :: NoNul(f.meaning)
  }

  function CollisionId(key: string, first: string, second: string): string { key + [NUL] + first + [NUL] + second }

  lemma LastNul(p: string, s: string, i: nat)
    requires NoNul(s) && |p| <= i < |p| + 1 + |s|
    ensures (p + [NUL] + s)[i] == NUL <==> i == |p|
  {
    if i > |p| { assert (p + [NUL] + s)[i] == s[i - |p| - 1]; }
  }

  lemma SplitAtLast(p: string, s: string, q: string, t: string)
    requires NoNul(s) && NoNul(t) && p + [NUL] + s == q + [NUL] + t
    ensures p == q && s == t
  {
    var whole, i := p + [NUL] + s, if |p| < |q| then |q| else |p|;
    LastNul(p, s, i);
    LastNul(q, t, i);
    LastNul(p, s, |p|);
    LastNul(q, t, |q|);
    assert p == whole[..|p|] == q;
    assert s == whole[|p| + 1..] == t;
  }

  /** One id for each key and pair: telling pairs apart by their ids confuses none. */
  lemma CollisionIdUnique(key: string, a: string, b: string, key': string, a': string, b': string)
    requires NoNul(a) && NoNul(b) && NoNul(a') && NoNul(b')
    requires CollisionId(key, a, b) == CollisionId(key', a', b')
    ensures key == key' && a == a' && b == b'
  {
    SplitAtLast(key + [NUL] + a, b, key' + [NUL] + a', b');
    SplitAtLast(key, a, key', a');
  }

  /** The line of a claim follows from its id and key alone, whatever the screen. */
  ghost function LineOfClaim(t: Tables, lines: seq<Line>, id: string, key: string): nat {
    if ACTION <= id && Overridden(t, lines, id[|ACTION|..]) then LineOf(t, lines, id[|ACTION|..], key) else 0
  }

  lemma LineDetermined(t: Tables, lines: seq<Line>, classes: seq<string>, key: string, c: Claim)
    requires Claims(t, lines, classes, key, c)
    ensures c.line == LineOfClaim(t, lines, c.id, key)
  {
    if s :| s in t.specs && ActionClaims(t, lines, s, classes, key, c) {
      assert c.id[|ACTION|..] == s.name;
    } else {
      assert FIXED[0] != ACTION[0];
      assert c.id[0] == FIXED[0];
    }
  }

  lemma ClaimIdsPlain(t: Tables, lines: seq<Line>, classes: seq<string>, key: string, c: Claim)
    requires PlainNames(t) && Claims(t, lines, classes, key, c)
    ensures NoNul(c.id)
  {
    hide ActionClaims;
    assert NoNul(ACTION) && NoNul(FIXED);
    if s :| s in t.specs && ActionClaims(t, lines, s, classes, key, c) {
      assert c.id == ACTION + s.name by { ActionId(t, lines, s, classes, key, c); }
    }
  }

  lemma ActionId(t: Tables, lines: seq<Line>, s: Spec, classes: seq<string>, key: string, c: Claim)
    requires ActionClaims(t, lines, s, classes, key, c)
    ensures c.id == ACTION + s.name
  {
  }

  // ---------------------------------------------------------------- the parser

  /** The keys the lines bind to an action, and the first line of each. */
  ghost predicate KeysOf(t: Tables, lines: seq<Line>, action: string, keys: seq<string>, at: map<string, nat>) {
    && (forall key :: key in keys <==> key in at)
    && (forall key :: key in at <==> LineOf(t, lines, action, key) > 0)
    && (forall key | key in at :: at[key] == LineOf(t, lines, action, key))
  }

  lemma KeysUnchanged(t: Tables, lines: seq<Line>, line: Line, action: string, keys: seq<string>, at: map<string, nat>)
    requires KeysOf(t, lines, action, keys, at) && !Binds(t, line, action)
    ensures KeysOf(t, lines + [line], action, keys, at)
  {
    hide Binds;
    OneLineMore(t, lines, line, action);
  }

  lemma OneKeyMore(t: Tables, lines: seq<Line>, line: Line, keys: seq<string>, at: map<string, nat>)
    requires line.Bind? && ValidLine(t, line) && KeysOf(t, lines, line.action, keys, at)
    ensures if line.key in at then KeysOf(t, lines + [line], line.action, keys, at)
            else KeysOf(t, lines + [line], line.action, keys + [line.key], at[line.key := |lines| + 1])
  {
    assert Binds(t, line, line.action);
    hide Binds, LineOf;
    OneLineMore(t, lines, line, line.action);
  }

  lemma NoKeys(t: Tables, lines: seq<Line>, action: string)
    requires !Overridden(t, lines, action)
    ensures KeysOf(t, lines, action, [], map[])
  {
    forall key ensures LineOf(t, lines, action, key) == 0 {
      if LineOf(t, lines, action, key) > 0 { BoundSomewhere(t, lines, action, key); }
    }
  }

  /** What the lines say is recorded. */
  ghost predicate Records(t: Tables, lines: seq<Line>, keybinds: map<string, seq<string>>, bindings: map<string, map<string, nat>>) {
    && keybinds.Keys == bindings.Keys
    && (forall action :: action in keybinds <==> Overridden(t, lines, action))
    && (forall action | action in keybinds :: KeysOf(t, lines, action, keybinds[action], bindings[action]))
  }

  lemma RecordOthers(t: Tables, lines: seq<Line>, line: Line, keybinds: map<string, seq<string>>, bindings: map<string, map<string, nat>>)
    requires Records(t, lines, keybinds, bindings) && line.Bind? && ValidLine(t, line)
    ensures forall a :: Overridden(t, lines + [line], a) <==> a in keybinds || a == line.action
    ensures forall a | a in keybinds && a != line.action :: KeysOf(t, lines + [line], a, keybinds[a], bindings[a])
  {
    assert forall a :: Binds(t, line, a) <==> a == line.action;
    hide Binds, KeysOf, ValidLine;
    OverriddenMore(t, lines, line);
    forall a | a in keybinds && a != line.action { KeysUnchanged(t, lines, line, a, keybinds[a], bindings[a]); }
  }

  lemma RecordMore(t: Tables, lines: seq<Line>, line: Line, keybinds: map<string, seq<string>>, bindings: map<string, map<string, nat>>,
                   keys: seq<string>, at: map<string, nat>)
    requires Records(t, lines, keybinds, bindings) && line.Bind? && ValidLine(t, line)
    requires keys == if line.action in keybinds then keybinds[line.action] else []
    requires at == if line.action in bindings then bindings[line.action] else map[]
    ensures if line.key in at then Records(t, lines + [line], keybinds, bindings)
            else Records(t, lines + [line], keybinds[line.action := keys + [line.key]],
                         bindings[line.action := at[line.key := |lines| + 1]])
  {
    hide Overridden;
    hide KeysOf, ValidLine;
    RecordOthers(t, lines, line, keybinds, bindings);
    if line.action !in keybinds { NoKeys(t, lines, line.action); }
    OneKeyMore(t, lines, line, keys, at);
  }

  function At(claims: map<string, seq<Claim>>, key: string): seq<Claim> { if key in claims then claims[key] else [] }

  method DefaultsForClasses(s: Spec, classes: seq<string>) returns (keys: seq<string>)
    ensures forall k :: k in keys <==> IsDefault(s, classes, k)
  {
    keys := [];
    var seen: set<string> := {};
    for i := 0 to |classes|
      invariant forall k :: k in keys <==> IsDefault(s, classes[..i], k)
      invariant forall k :: k in seen <==> k in keys
    {
      ghost var before := keys;
      var more := if classes[i] in s.defaults then s.defaults[classes[i]] else [];
      for j := 0 to |more|
        invariant forall k :: k in keys <==> k in before || k in more[..j]
        invariant forall k :: k in seen <==> k in keys
      {
        assert more[..j + 1] == more[..j] + [more[j]];
        if more[j] !in seen { seen, keys := seen + {more[j]}, keys + [more[j]]; }
      }
      assert more[..|more|] == more;
      OneClassMore(s, classes, i);
    }
    assert classes[..|classes|] == classes;
  }

  lemma OneClassMore(s: Spec, classes: seq<string>, i: nat)
    requires i < |classes|
    ensures forall k :: IsDefault(s, classes[..i + 1], k) <==>
                          IsDefault(s, classes[..i], k) || (classes[i] in s.defaults && k in s.defaults[classes[i]])
  {
    forall k ensures IsDefault(s, classes[..i + 1], k) <==>
                     IsDefault(s, classes[..i], k) || (classes[i] in s.defaults && k in s.defaults[classes[i]])
    {
      if j :| 0 <= j < i && classes[..i][j] in s.defaults && k in s.defaults[classes[..i][j]] {
        assert classes[..i + 1][j] == classes[..i][j];
      }
      assert classes[..i + 1][i] == classes[i];
    }
  }

  lemma NoDefaults(t: Tables, lines: seq<Line>, s: Spec, classes: seq<string>, defaults: seq<string>)
    requires defaults == [] && forall k :: k in defaults <==> IsDefault(s, classes, k)
    ensures forall key, c :: !ActionClaims(t, lines, s, classes, key, c)
  {
  }

  method AddFixedClaims(t: Tables, claims: map<string, seq<Claim>>, screenClass: string) returns (updated: map<string, seq<Claim>>)
    ensures forall key, c :: c in At(updated, key) <==>
                               c in At(claims, key) || FixedIn(t, screenClass, key, c)
  {
    updated := claims;
    var all := FixedOf(t, screenClass);
    for j := 0 to |all|
      invariant forall key, c :: c in At(updated, key) <==>
                                   c in At(claims, key) || exists f :: f in all[..j] && f.key == key && c == FixedClaim(f)
    {
      assert all[..j + 1] == all[..j] + [all[j]];
      updated := updated[all[j].key := At(updated, all[j].key) + [FixedClaim(all[j])]];
    }
    assert all[..|all|] == all;
  }

  lemma OneFixedClassMore(t: Tables, classes: seq<string>, i: nat)
    requires i < |classes|
    ensures forall key, c :: FixedClaims(t, classes[..i + 1], key, c) <==>
                               FixedClaims(t, classes[..i], key, c) || FixedIn(t, classes[i], key, c)
  {
    hide FixedIn;
    forall key, c
      ensures FixedClaims(t, classes[..i + 1], key, c) <==> FixedClaims(t, classes[..i], key, c) || FixedIn(t, classes[i], key, c)
    {
      if FixedClaims(t, classes[..i], key, c) {
        var j :| 0 <= j < i && FixedIn(t, classes[..i][j], key, c);
        assert FixedIn(t, classes[..i + 1][j], key, c);
      }
      assert classes[..i + 1][i] == classes[i];
    }
  }

  function LaterClaim(first: Claim, second: Claim): Claim { if second.line > first.line then second else first }

  // ---------------------------------------------------------------- what is reported

  /** The id of a pair of claims on a key, in whichever order they come. */
  function PairId(key: string, a: string, b: string): string {
    if Natsort.CharsLess(b, a) then CollisionId(key, b, a) else CollisionId(key, a, b)
  }

  /** The error is about this key and this pair of claims, in whichever order. */
  ghost predicate About(p: Problem, key: string, a: string, b: string) {
    && p.BoundTwice? && p.key == key
    && ((p.first == a && p.second == b) || (p.first == b && p.second == a))
  }

  ghost predicate SamePair(p: Problem, q: Problem) { p.BoundTwice? && About(q, p.key, p.first, p.second) }

  lemma PairIdUnique(key: string, a: string, b: string, k: string, c: string, d: string)
    requires NoNul(a) && NoNul(b) && NoNul(c) && NoNul(d)
    ensures PairId(key, a, b) == PairId(k, c, d) <==> key == k && ((a == c && b == d) || (a == d && b == c))
  {
    hide Natsort.CharsLess, CollisionId, NoNul;
    Natsort.CharsLessIsStrictTotal();
    if PairId(key, a, b) == PairId(k, c, d) {
      CollisionIdUnique(key, if Natsort.CharsLess(b, a) then b else a, if Natsort.CharsLess(b, a) then a else b,
                        k, if Natsort.CharsLess(d, c) then d else c, if Natsort.CharsLess(d, c) then c else d);
    }
  }

  /** The two claims clash on the screen named, and the error stands at the later of their
      lines. */
  ghost predicate FromClash(t: Tables, lines: seq<Line>, e: Error) {
    && e.problem.BoundTwice? && e.problem.screen in t.screens
    && exists c, d :: ClashError(t, lines, t.screens[e.problem.screen], e, c, d)
  }

  ghost predicate ClashError(t: Tables, lines: seq<Line>, classes: seq<string>, e: Error, c: Claim, d: Claim) {
    && e.problem.BoundTwice? && c.id == e.problem.first && d.id == e.problem.second
    && e.line == (if c.line >= d.line then c.line else d.line)
    && Claims(t, lines, classes, e.problem.key, c) && Claims(t, lines, classes, e.problem.key, d) && Clash(c, d)
  }

  /** No screen before the one named has both claims on the key. */
  ghost predicate OnFirstScreen(t: Tables, lines: seq<Line>, e: Error) {
    e.problem.BoundTwice? && forall screen | screen in t.screens && Natsort.CharsLess(screen, e.problem.screen) ::
      !HasBoth(t, lines, t.screens[screen], e.problem.key, e.problem.first, e.problem.second)
  }

  ghost predicate HasBoth(t: Tables, lines: seq<Line>, classes: seq<string>, key: string, a: string, b: string) {
    exists c, d :: Claims(t, lines, classes, key, c) && Claims(t, lines, classes, key, d) && c.id == a && d.id == b
  }

  /** By screen, and by key within a screen. */
  ghost predicate NotAfter(p: Problem, q: Problem) {
    && p.BoundTwice? && q.BoundTwice?
    && (Natsort.CharsLess(p.screen, q.screen) || (p.screen == q.screen && !Natsort.CharsLess(q.key, p.key)))
  }

  ghost predicate InOrder(errors: seq<Error>) { forall i, j | 0 <= i < j < |errors| :: NotAfter(errors[i].problem, errors[j].problem) }

  ghost predicate UpTo(errors: seq<Error>, screen: string, key: string) {
    forall e | e in errors :: NotAfter(e.problem, BoundTwice(key, "", "", screen))
  }

  ghost predicate OnScreen(errors: seq<Error>, screen: string) {
    forall e | e in errors :: e.problem.BoundTwice? && e.problem.screen == screen
  }

  lemma UpToEarlier(errors: seq<Error>, screen: string, key: string)
    requires forall e | e in errors :: e.problem.BoundTwice? && Natsort.CharsLess(e.problem.screen, screen)
    ensures UpTo(errors, screen, key)
  {
    hide Natsort.CharsLess;
  }

  lemma UpToLater(errors: seq<Error>, screen: string, key: string, later: string)
    requires UpTo(errors, screen, key) && !Natsort.CharsLess(later, key)
    ensures UpTo(errors, screen, later)
  {
    hide Natsort.CompareChars;
    forall e | e in errors ensures NotAfter(e.problem, BoundTwice(later, "", "", screen)) {
      if Natsort.CharsLess(later, e.problem.key) { Natsort.CharsSplit(later, key, e.problem.key); }
    }
  }

  lemma UpToSelf(found: seq<Error>, e: Error)
    requires e.problem.BoundTwice? && UpTo(found, e.problem.screen, e.problem.key)
    ensures UpTo(found + [e], e.problem.screen, e.problem.key)
  {
    Natsort.CharsAntisymmetric(e.problem.key, e.problem.key);
  }

  ghost predicate Alphabetic(names: seq<string>) { StrictlySorted(Natsort.CharsLess, names) && Sorted(Natsort.CharsLess, names) }

  /** The keys of a map in plain order. */
  method NamesInOrder<V>(m: map<string, V>) returns (names: seq<string>)
    ensures Alphabetic(names) && forall n :: n in names <==> n in m
  {
    hide Natsort.CharsLess;
    names := MapKeys(m);
    Natsort.CharsLessIsStrictTotal();
    SameElements(Sort(Natsort.CharsLess, names), names);
    SortSorts(Natsort.CharsLess, names);
    SortStrictly(Natsort.CharsLess, names);
    names := Sort(Natsort.CharsLess, names);
  }

  /** The pair is among the errors, at this line. */
  ghost predicate Reported(errors: seq<Error>, key: string, a: string, b: string, line: nat) {
    exists e :: e in errors && e.line == line && About(e.problem, key, a, b)
  }

  ghost predicate PairsOnce(errors: seq<Error>) {
    forall i, j | 0 <= i < j < |errors| :: !SamePair(errors[i].problem, errors[j].problem)
  }

  ghost function LineOfPair(t: Tables, lines: seq<Line>, key: string, a: string, b: string): nat {
    var m, n := LineOfClaim(t, lines, a, key), LineOfClaim(t, lines, b, key);
    if m >= n then m else n
  }

  /** An error about a pair that has been looked at. */
  ghost predicate Noted(e: Error, seen: set<string>) {
    e.problem.BoundTwice? && NoNul(e.problem.first) && NoNul(e.problem.second)
    && PairId(e.problem.key, e.problem.first, e.problem.second) in seen
  }

  /** Every pair looked at that clashes has been reported, once, and nothing else has. */
  ghost predicate Reports(t: Tables, lines: seq<Line>, found: seq<Error>, seen: set<string>) {
    && (forall e | e in found :: FromClash(t, lines, e) && OnFirstScreen(t, lines, e) && Noted(e, seen))
    && PairsOnce(found) && InOrder(found)
    && forall key, a, b | NoNul(a) && NoNul(b) && PairId(key, a, b) in seen && LineOfPair(t, lines, key, a, b) > 0 ::
         Reported(found, key, a, b, LineOfPair(t, lines, key, a, b))
  }

  lemma NothingReported(t: Tables, lines: seq<Line>)
    ensures Reports(t, lines, [], {})
  {
  }

  /** One more pair looked at: its error is added exactly when a line of the file is involved. */
  lemma OneMorePair(t: Tables, lines: seq<Line>, found: seq<Error>, seen: set<string>, key: string, a: string, b: string,
                    screen: string)
    requires Reports(t, lines, found, seen) && NoNul(a) && NoNul(b) && PairId(key, a, b) !in seen && UpTo(found, screen, key)
    requires var line, e := LineOfPair(t, lines, key, a, b), Error(LineOfPair(t, lines, key, a, b), BoundTwice(key, a, b, screen));
      line > 0 ==> FromClash(t, lines, e) && OnFirstScreen(t, lines, e)
    ensures var line, more := LineOfPair(t, lines, key, a, b), seen + {PairId(key, a, b)};
      if line == 0 then Reports(t, lines, found, more)
      else Reports(t, lines, found + [Error(line, BoundTwice(key, a, b, screen))], more)
  {
    hide FromClash, OnFirstScreen, LineOfPair, NoNul, PairId;
    var line, more := LineOfPair(t, lines, key, a, b), seen + {PairId(key, a, b)};
    var e := Error(line, BoundTwice(key, a, b, screen));
    var all := if line == 0 then found else found + [e];
    forall k, c, d | NoNul(c) && NoNul(d) && PairId(k, c, d) in more && LineOfPair(t, lines, k, c, d) > 0
      ensures Reported(all, k, c, d, LineOfPair(t, lines, k, c, d))
    {
      PairIdUnique(key, a, b, k, c, d);
      if PairId(k, c, d) in seen {
        assert Reported(found, k, c, d, LineOfPair(t, lines, k, c, d));
      } else {
        PairLineSame(t, lines, key, a, b);
        assert e in all;
      }
    }
    forall f | f in found ensures !SamePair(f.problem, e.problem) {
      PairIdUnique(f.problem.key, f.problem.first, f.problem.second, key, a, b);
    }
  }

  lemma PairLineSame(t: Tables, lines: seq<Line>, key: string, a: string, b: string)
    ensures LineOfPair(t, lines, key, a, b) == LineOfPair(t, lines, key, b, a)
  {
    hide LineOfClaim;
  }

  /** Every two claims on the key of this screen have been looked at. */
  ghost predicate Looked(t: Tables, lines: seq<Line>, screen: string, key: string, seen: set<string>) {
    screen in t.screens ==>
      forall c, d | Claims(t, lines, t.screens[screen], key, c) && Claims(t, lines, t.screens[screen], key, d) && c.id != d.id ::
        PairId(key, c.id, d.id) in seen
  }

  /** So have those on every screen before it. */
  ghost predicate EarlierLooked(t: Tables, lines: seq<Line>, screen: string, key: string, seen: set<string>) {
    forall earlier | earlier in t.screens && Natsort.CharsLess(earlier, screen) :: Looked(t, lines, earlier, key, seen)
  }

  lemma EarlierStays(t: Tables, lines: seq<Line>, screen: string, key: string, seen: set<string>, more: set<string>)
    requires EarlierLooked(t, lines, screen, key, seen) && seen <= more
    ensures EarlierLooked(t, lines, screen, key, more)
  {
    hide Looked, Natsort.CharsLess;
    forall earlier | earlier in t.screens && Natsort.CharsLess(earlier, screen) { LookedStays(t, lines, earlier, key, seen, more); }
  }

  lemma EarlierAre(t: Tables, lines: seq<Line>, screens: seq<string>, i: nat, key: string, seen: set<string>)
    requires Alphabetic(screens) && (forall s :: s in screens <==> s in t.screens) && i < |screens|
    requires forall screen | screen in screens[..i] :: Looked(t, lines, screen, key, seen)
    ensures EarlierLooked(t, lines, screens[i], key, seen)
  {
    hide Looked, Natsort.CharsLess;
    Natsort.CharsLessIsStrictTotal();
    forall earlier | earlier in t.screens && Natsort.CharsLess(earlier, screens[i]) ensures Looked(t, lines, earlier, key, seen) {
      var k :| 0 <= k < |screens| && screens[k] == earlier;
      assert k < i;
      assert screens[..i][k] == earlier;
    }
  }

  /** A pair not looked at before is on no earlier screen. */
  lemma FirstHere(t: Tables, lines: seq<Line>, e: Error, seen: set<string>)
    requires e.problem.BoundTwice? && e.problem.first != e.problem.second
    requires EarlierLooked(t, lines, e.problem.screen, e.problem.key, seen)
    requires PairId(e.problem.key, e.problem.first, e.problem.second) !in seen
    ensures OnFirstScreen(t, lines, e)
  {
    hide Claims, PairId, Natsort.CharsLess;
    forall screen | screen in t.screens && Natsort.CharsLess(screen, e.problem.screen)
      ensures !HasBoth(t, lines, t.screens[screen], e.problem.key, e.problem.first, e.problem.second)
    {
      assert Looked(t, lines, screen, e.problem.key, seen);
    }
  }

  lemma LookedStays(t: Tables, lines: seq<Line>, screen: string, key: string, seen: set<string>, more: set<string>)
    requires Looked(t, lines, screen, key, seen) && seen <= more
    ensures Looked(t, lines, screen, key, more)
  {
    hide Claims, PairId;
  }

  lemma OwnersLooked(t: Tables, lines: seq<Line>, screen: string, key: string, owners: seq<Claim>, seen: set<string>)
    requires screen in t.screens && forall c :: c in owners <==> Claims(t, lines, t.screens[screen], key, c)
    requires forall c, d | c in owners && d in owners && c.id != d.id :: PairId(key, c.id, d.id) in seen
    ensures Looked(t, lines, screen, key, seen)
  {
    hide Claims, PairId;
  }

  lemma NobodyLooks(t: Tables, lines: seq<Line>, screen: string, key: string, claims: map<string, seq<Claim>>, seen: set<string>)
    requires screen in t.screens && key !in claims
    requires forall k, c :: c in At(claims, k) <==> Claims(t, lines, t.screens[screen], k, c)
    ensures Looked(t, lines, screen, key, seen)
  {
    hide Claims, PairId;
    forall c ensures !Claims(t, lines, t.screens[screen], key, c) { assert c !in At(claims, key); }
  }

  /** Exactly the clashes of all screens: each pair of claims on a key once, at the later of
      their lines and on the first screen that has both; by screen and key. */
  ghost predicate ClashErrors(t: Tables, lines: seq<Line>, found: seq<Error>) {
    && (forall e | e in found :: FromClash(t, lines, e) && OnFirstScreen(t, lines, e))
    && PairsOnce(found) && InOrder(found)
    && forall screen, key | screen in t.screens :: ClashesReported(t, lines, t.screens[screen], key, found)
  }

  ghost predicate ClashesReported(t: Tables, lines: seq<Line>, classes: seq<string>, key: string, found: seq<Error>) {
    forall c, d | Claims(t, lines, classes, key, c) && Claims(t, lines, classes, key, d) && Clash(c, d) ::
      Reported(found, key, c.id, d.id, if c.line >= d.line then c.line else d.line)
  }

  lemma AllReported(t: Tables, lines: seq<Line>, found: seq<Error>, seen: set<string>)
    requires PlainNames(t) && Reports(t, lines, found, seen)
    requires forall screen, key | screen in t.screens :: Looked(t, lines, screen, key, seen)
    ensures ClashErrors(t, lines, found)
  {
    hide PlainNames, Claims, LineOfClaim, PairId, FromClash, OnFirstScreen, Noted, Reported, NotAfter;
    forall screen, key | screen in t.screens ensures ClashesReported(t, lines, t.screens[screen], key, found) {
      forall c, d | Claims(t, lines, t.screens[screen], key, c) && Claims(t, lines, t.screens[screen], key, d) && Clash(c, d)
        ensures Reported(found, key, c.id, d.id, if c.line >= d.line then c.line else d.line)
      {
        assert Looked(t, lines, screen, key, seen);
        ClaimIdsPlain(t, lines, t.screens[screen], key, c);
        ClaimIdsPlain(t, lines, t.screens[screen], key, d);
        LineDetermined(t, lines, t.screens[screen], key, c);
        LineDetermined(t, lines, t.screens[screen], key, d);
      }
    }
  }

  /** There is a clash exactly when one is reported. */
  lemma ClashErrorsIff(t: Tables, lines: seq<Line>, found: seq<Error>)
    requires ClashErrors(t, lines, found)
    ensures found == [] <==> !Collides(t, lines)
  {
    hide Claims, Clash, PairsOnce, InOrder, OnFirstScreen;
    if found != [] {
      assert found[0] in found && FromClash(t, lines, found[0]);
      assert ClashOn(t, lines, t.screens[found[0].problem.screen], found[0].problem.key);
    }
    if Collides(t, lines) {
      var screen, key :| screen in t.screens && ClashOn(t, lines, t.screens[screen], key);
      assert ClashesReported(t, lines, t.screens[screen], key, found);
    }
  }

  // ---------------------------------------------------------------- progress

  /** The first `i` keys of a screen have been looked at, and every error so far comes before
      the next. */
  ghost predicate KeysDone(t: Tables, lines: seq<Line>, screen: string, keys: seq<string>, i: nat, found: seq<Error>, seen: set<string>)
    requires i <= |keys|
  {
    && Reports(t, lines, found, seen)
    && (forall k | k in keys[..i] :: Looked(t, lines, screen, k, seen))
    && (i < |keys| ==> UpTo(found, screen, keys[i]))
  }

  lemma NoKeyDone(t: Tables, lines: seq<Line>, screen: string, keys: seq<string>, found: seq<Error>, seen: set<string>)
    requires Reports(t, lines, found, seen)
    requires forall e | e in found :: e.problem.BoundTwice? && Natsort.CharsLess(e.problem.screen, screen)
    ensures KeysDone(t, lines, screen, keys, 0, found + [], seen) && OnScreen([], screen)
  {
    hide Reports, UpTo, Natsort.CharsLess, Looked;
    assert found + [] == found;
    forall key { UpToEarlier(found, screen, key); }
  }

  lemma KeyTurn(t: Tables, lines: seq<Line>, screen: string, keys: seq<string>, i: nat, found: seq<Error>, seen: set<string>,
                updated: set<string>, claims: map<string, seq<Claim>>)
    requires i < |keys| && KeysDone(t, lines, screen, keys, i, found, updated) && seen <= updated && screen in t.screens
    requires forall key :: EarlierLooked(t, lines, screen, key, seen)
    requires forall k :: k in keys <==> k in claims
    requires forall key, c :: c in At(claims, key) <==> Claims(t, lines, t.screens[screen], key, c)
    ensures Reports(t, lines, found, updated) && UpTo(found, screen, keys[i]) && EarlierLooked(t, lines, screen, keys[i], updated)
    ensures keys[i] in claims && forall c :: c in claims[keys[i]] <==> Claims(t, lines, t.screens[screen], keys[i], c)
  {
    hide Reports, UpTo, EarlierLooked, Looked, Claims;
    assert keys[i] in keys;
    EarlierStays(t, lines, screen, keys[i], seen, updated);
    assert At(claims, keys[i]) == claims[keys[i]];
  }

  lemma OneKeyDone(t: Tables, lines: seq<Line>, screen: string, keys: seq<string>, i: nat, found: seq<Error>, seen: set<string>,
                   more: seq<Error>, updated: set<string>)
    requires i < |keys| && KeysDone(t, lines, screen, keys, i, found, seen) && seen <= updated
    requires Alphabetic(keys)
    requires Reports(t, lines, found + more, updated) && UpTo(found + more, screen, keys[i]) && Looked(t, lines, screen, keys[i], updated)
    ensures KeysDone(t, lines, screen, keys, i + 1, found + more, updated)
  {
    hide Reports, UpTo, Looked, Natsort.CharsLess;
    assert keys[..i + 1] == keys[..i] + [keys[i]];
    forall k | k in keys[..i] { LookedStays(t, lines, screen, k, seen, updated); }
    if i + 1 < |keys| { UpToLater(found + more, screen, keys[i], keys[i + 1]); }
  }

  lemma BothOnScreen(more: seq<Error>, one: seq<Error>, screen: string)
    requires OnScreen(more, screen) && OnScreen(one, screen)
    ensures OnScreen(more + one, screen)
  {
  }

  lemma AllKeysDone(t: Tables, lines: seq<Line>, screen: string, keys: seq<string>, found: seq<Error>, seen: set<string>,
                    claims: map<string, seq<Claim>>)
    requires KeysDone(t, lines, screen, keys, |keys|, found, seen) && screen in t.screens
    requires forall k :: k in keys <==> k in claims
    requires forall key, c :: c in At(claims, key) <==> Claims(t, lines, t.screens[screen], key, c)
    ensures Reports(t, lines, found, seen) && forall key :: Looked(t, lines, screen, key, seen)
  {
    hide Reports, UpTo, Looked, Claims, At;
    assert keys[..|keys|] == keys;
    forall key ensures Looked(t, lines, screen, key, seen) {
      if key !in keys { NobodyLooks(t, lines, screen, key, claims, seen); }
    }
  }

  /** Every key of the first `i` screens has been looked at, and every error so far is of one
      of them. */
  ghost predicate ScreensDone(t: Tables, lines: seq<Line>, screens: seq<string>, i: nat, found: seq<Error>, seen: set<string>)
    requires i <= |screens|
  {
    && Reports(t, lines, found, seen)
    && (forall screen, key | screen in screens[..i] :: Looked(t, lines, screen, key, seen))
    && forall e | e in found :: e.problem.BoundTwice? && e.problem.screen in screens[..i]
  }

  lemma NoScreenDone(t: Tables, lines: seq<Line>, screens: seq<string>)
    ensures ScreensDone(t, lines, screens, 0, [], {})
  {
    hide Looked;
    NothingReported(t, lines);
  }

  lemma ScreenTurn(t: Tables, lines: seq<Line>, screens: seq<string>, i: nat, found: seq<Error>, seen: set<string>)
    requires i < |screens| && ScreensDone(t, lines, screens, i, found, seen)
    requires Alphabetic(screens) && forall s :: s in screens <==> s in t.screens
    ensures Reports(t, lines, found, seen) && screens[i] in t.screens
    ensures forall e | e in found :: e.problem.BoundTwice? && Natsort.CharsLess(e.problem.screen, screens[i])
    ensures forall key :: EarlierLooked(t, lines, screens[i], key, seen)
  {
    hide Reports, Looked, EarlierLooked, Natsort.CharsLess;
    assert screens[i] in screens;
    forall key { EarlierAre(t, lines, screens, i, key, seen); }
  }

  lemma OneScreenDone(t: Tables, lines: seq<Line>, screens: seq<string>, i: nat, found: seq<Error>, seen: set<string>,
                      more: seq<Error>, updated: set<string>)
    requires i < |screens| && ScreensDone(t, lines, screens, i, found, seen) && seen <= updated
    requires Reports(t, lines, found + more, updated) && OnScreen(more, screens[i])
    requires forall key :: Looked(t, lines, screens[i], key, updated)
    ensures ScreensDone(t, lines, screens, i + 1, found + more, updated)
  {
    hide Reports, Looked;
    assert screens[..i + 1] == screens[..i] + [screens[i]];
    forall screen, key | screen in screens[..i] { LookedStays(t, lines, screen, key, seen, updated); }
  }

  lemma AllScreensDone(t: Tables, lines: seq<Line>, screens: seq<string>, found: seq<Error>, seen: set<string>)
    requires ScreensDone(t, lines, screens, |screens|, found, seen) && PlainNames(t)
    requires forall s :: s in screens <==> s in t.screens
    ensures ClashErrors(t, lines, found)
  {
    hide Reports, Looked, ClashErrors, PlainNames;
    assert screens[..|screens|] == screens;
    AllReported(t, lines, found, seen);
  }

  class Parser {
    const tables: Tables
    var keybinds: map<string, seq<string>>
    var bindings: map<string, map<string, nat>>
    var errors: seq<Error>

    ghost predicate Recorded(lines: seq<Line>)
      reads this`keybinds, this`bindings
    {
      Records(tables, lines, keybinds, bindings)
    }

    constructor (tables: Tables)
      ensures this.tables == tables && errors == [] && Recorded([])
    {
      this.tables := tables;
      keybinds, bindings, errors := map[], map[], [];
    }

    method AddError(line: nat, problem: Problem)
      modifies this`errors
      ensures errors == old(errors) + [Error(line, problem)]
    {
      errors := errors + [Error(line, problem)];
    }

    /** Records the binding of one line, or reports what is wrong with it. */
    method ParseKeybind(key: string, action: string, ghost lines: seq<Line>, line: nat)
      requires Recorded(lines) && line == |lines| + 1
      modifies this
      ensures Recorded(lines + [Bind(key, action)])
      ensures if ValidLine(tables, Bind(key, action)) then errors == old(errors)
              else exists problem :: Wrong(tables, Bind(key, action), problem) && errors == old(errors) + [Error(line, problem)]
    {
      hide Recorded;
      if key == "" || action == "" {
        Unrecorded(lines, Bind(key, action));
        AddError(line, CannotParse);
        return;
      }
      if !tables.validKey(key) {
        Unrecorded(lines, Bind(key, action));
        AddError(line, BadKey);
        return;
      }
      if !Known(tables, action) {
        Unrecorded(lines, Bind(key, action));
        AddError(line, UnknownAction);
        return;
      }
      if key in tables.reserved {
        Unrecorded(lines, Bind(key, action));
        AddError(line, ReservedKey);
        return;
      }
      Record(key, action, lines, line);
    }

    /** A key bound to an action for the first time; a repeated binding changes nothing. */
    method Record(key: string, action: string, ghost lines: seq<Line>, line: nat)
      requires Recorded(lines) && line == |lines| + 1 && ValidLine(tables, Bind(key, action))
      modifies this`keybinds, this`bindings
      ensures Recorded(lines + [Bind(key, action)])
    {
      hide Records;
      var at: map<string, nat> := if action in bindings then bindings[action] else map[];
      var keys: seq<string> := if action in keybinds then keybinds[action] else [];
      RecordMore(tables, lines, Bind(key, action), keybinds, bindings, keys, at);
      if key in at { return; }
      bindings := bindings[action := at[key := line]];
      keybinds := keybinds[action := keys + [key]];
    }

    // ---------------------------------------------------------------- claims

    /** The claim an action makes on one of its keys. */
    function ActionClaim(name: string, key: string): Claim
      reads this`keybinds, this`bindings
    {
      Claim(ACTION + name, if name in keybinds && name in bindings && key in bindings[name] then bindings[name][key] else 0, false)
    }

    method AddActionClaims(claims: map<string, seq<Claim>>, s: Spec, classes: seq<string>, ghost lines: seq<Line>)
      returns (updated: map<string, seq<Claim>>)
      requires Recorded(lines)
      ensures forall key, c :: c in At(updated, key) <==> c in At(claims, key) || ActionClaims(tables, lines, s, classes, key, c)
    {
      hide Records;
      updated := claims;
      var defaults := DefaultsForClasses(s, classes);
      if |defaults| == 0 {
        NoDefaults(tables, lines, s, classes, defaults);
        return;
      }
      var keys := if s.name in keybinds then keybinds[s.name] else defaults;
      for j := 0 to |keys|
        invariant forall key, c :: c in At(updated, key) <==> c in At(claims, key) || (key in keys[..j] && c == ActionClaim(s.name, key))
      {
        assert keys[..j + 1] == keys[..j] + [keys[j]];
        ghost var before := updated;
        var added := ActionClaim(s.name, keys[j]);
        updated := updated[keys[j] := At(updated, keys[j]) + [added]];
        assert forall key :: At(updated, key) == if key == keys[j] then At(before, key) + [added] else At(before, key);
      }
      assert keys[..|keys|] == keys;
      forall key, c ensures key in keys && c == ActionClaim(s.name, key) <==> ActionClaims(tables, lines, s, classes, key, c) {
        ClaimOfAction(lines, s, classes, defaults, keys, key, c);
      }
    }

    /** Everything that uses a key on a screen of these classes, by key. */
    method ClaimsForScreen(classes: seq<string>, ghost lines: seq<Line>) returns (claims: map<string, seq<Claim>>)
      requires Recorded(lines)
      ensures forall key, c :: c in At(claims, key) <==> Claims(tables, lines, classes, key, c)
    {
      hide Recorded, ActionClaims;
      claims := map[];
      for i := 0 to |tables.specs|
        invariant forall key, c :: c in At(claims, key) <==>
                                     exists s :: s in tables.specs[..i] && ActionClaims(tables, lines, s, classes, key, c)
      {
        assert tables.specs[..i + 1] == tables.specs[..i] + [tables.specs[i]];
        claims := AddActionClaims(claims, tables.specs[i], classes, lines);
      }
      assert tables.specs[..|tables.specs|] == tables.specs;
      ghost var actions := claims;
      for i := 0 to |classes|
        invariant forall key, c :: c in At(claims, key) <==> c in At(actions, key) || FixedClaims(tables, classes[..i], key, c)
      {
        OneFixedClassMore(tables, classes, i);
        claims := AddFixedClaims(tables, claims, classes[i]);
      }
      assert classes[..|classes|] == classes;
    }

    /** Reports a pair of claims that clash, unless that pair was looked at before. */
    method CheckPair(key: string, first: Claim, second: Claim, seen: set<string>, screen: string, ghost lines: seq<Line>,
                     ghost found: seq<Error>)
      returns (updated: set<string>, ghost more: seq<Error>)
      requires NoNul(first.id) && NoNul(second.id) && Reports(tables, lines, found, seen) && screen in tables.screens
      requires Claims(tables, lines, tables.screens[screen], key, first) && Claims(tables, lines, tables.screens[screen], key, second)
      requires UpTo(found, screen, key) && EarlierLooked(tables, lines, screen, key, seen)
      modifies this`errors
      ensures errors == old(errors) + more && Reports(tables, lines, found + more, updated) && seen <= updated
      ensures first.id != second.id ==> PairId(key, first.id, second.id) in updated
      ensures UpTo(found + more, screen, key) && OnScreen(more, screen)
    {
      hide LineOfClaim, Reports, Claims, EarlierLooked, OnFirstScreen, Natsort.CompareChars;
      updated, more := seen, [];
      assert found + [] == found;
      if first.id == second.id { return; }
      LineDetermined(tables, lines, tables.screens[screen], key, first);
      LineDetermined(tables, lines, tables.screens[screen], key, second);
      var pair := if Natsort.CharsLess(second.id, first.id) then (second.id, first.id) else (first.id, second.id);
      var id := CollisionId(key, pair.0, pair.1);
      if id in seen { return; }
      updated := seen + {id};
      var introduced := LaterClaim(first, second);
      ghost var e := Error(introduced.line, BoundTwice(key, first.id, second.id, screen));
      if introduced.line > 0 { assert ClashError(tables, lines, tables.screens[screen], e, first, second); }
      FirstHere(tables, lines, e, seen);
      OneMorePair(tables, lines, found, seen, key, first.id, second.id, screen);
      if introduced.line == 0 { return; }
      AddError(introduced.line, BoundTwice(key, first.id, second.id, screen));
      more := [e];
      UpToSelf(found, e);
    }

    method CheckOwners(key: string, owners: seq<Claim>, seen: set<string>, screen: string, ghost lines: seq<Line>,
                       ghost found: seq<Error>)
      returns (updated: set<string>, ghost more: seq<Error>)
      requires PlainNames(tables) && Reports(tables, lines, found, seen) && screen in tables.screens
      requires forall c :: c in owners <==> Claims(tables, lines, tables.screens[screen], key, c)
      requires UpTo(found, screen, key) && EarlierLooked(tables, lines, screen, key, seen)
      modifies this`errors
      ensures errors == old(errors) + more && Reports(tables, lines, found + more, updated) && seen <= updated
      ensures Looked(tables, lines, screen, key, updated) && UpTo(found + more, screen, key) && OnScreen(more, screen)
    {
      hide LineOfClaim, Reports, PlainNames, Claims, PairId, UpTo, EarlierLooked, OnFirstScreen;
      updated, more := seen, [];
      assert found + [] == found;
      forall c | c in owners ensures NoNul(c.id) { ClaimIdsPlain(tables, lines, tables.screens[screen], key, c); }
      for i := 0 to |owners|
        invariant errors == old(errors) + more && Reports(tables, lines, found + more, updated) && seen <= updated
        invariant UpTo(found + more, screen, key) && OnScreen(more, screen)
        invariant forall k, l | 0 <= k < i && k < l < |owners| && owners[k].id != owners[l].id ::
                    PairId(key, owners[k].id, owners[l].id) in updated
      {
        for j := i + 1 to |owners|
          invariant errors == old(errors) + more && Reports(tables, lines, found + more, updated) && seen <= updated
          invariant UpTo(found + more, screen, key) && OnScreen(more, screen)
          invariant forall k, l | 0 <= k < i && k < l < |owners| && owners[k].id != owners[l].id ::
                      PairId(key, owners[k].id, owners[l].id) in updated
          invariant forall l | i < l < j && owners[i].id != owners[l].id :: PairId(key, owners[i].id, owners[l].id) in updated
        {
          assert owners[i] in owners && owners[j] in owners;
          EarlierStays(tables, lines, screen, key, seen, updated);
          ghost var one;
          updated, one := CheckPair(key, owners[i], owners[j], updated, screen, lines, found + more);
          assert found + more + one == found + (more + one);
          more := more + one;
        }
      }
      forall c, d | c in owners && d in owners && c.id != d.id ensures PairId(key, c.id, d.id) in updated {
        var k :| 0 <= k < |owners| && owners[k] == c;
        var l :| 0 <= l < |owners| && owners[l] == d;
        PairIdUnique(key, c.id, d.id, key, d.id, c.id);
      }
      OwnersLooked(tables, lines, screen, key, owners, updated);
    }

    method CheckScreen(screen: string, seen: set<string>, ghost lines: seq<Line>, ghost found: seq<Error>)
      returns (updated: set<string>, ghost more: seq<Error>)
      requires Recorded(lines) && PlainNames(tables) && Reports(tables, lines, found, seen) && screen in tables.screens
      requires forall e | e in found :: e.problem.BoundTwice? && Natsort.CharsLess(e.problem.screen, screen)
      requires forall key :: EarlierLooked(tables, lines, screen, key, seen)
      modifies this`errors
      ensures errors == old(errors) + more && Reports(tables, lines, found + more, updated) && seen <= updated
      ensures forall key :: Looked(tables, lines, screen, key, updated)
      ensures OnScreen(more, screen)
    {
      hide Reports, PlainNames, Claims, Recorded, Looked, EarlierLooked, UpTo, KeysDone, OnScreen, At, Alphabetic, Natsort.CharsLess;
      updated, more := seen, [];
      var claims := ClaimsForScreen(tables.screens[screen], lines);
      var keys := NamesInOrder(claims);
      NoKeyDone(tables, lines, screen, keys, found, seen);
      for i := 0 to |keys|
        invariant errors == old(errors) + more && KeysDone(tables, lines, screen, keys, i, found + more, updated)
        invariant seen <= updated && OnScreen(more, screen)
      {
        ghost var one, was := [], updated;
        KeyTurn(tables, lines, screen, keys, i, found + more, seen, updated, claims);
        updated, one := CheckOwners(keys[i], claims[keys[i]], updated, screen, lines, found + more);
        OneKeyDone(tables, lines, screen, keys, i, found + more, was, one, updated);
        BothOnScreen(more, one, screen);
        assert found + more + one == found + (more + one);
        more := more + one;
      }
      AllKeysDone(tables, lines, screen, keys, found + more, updated, claims);
    }

    /** Reports every screen's clashing keys, each pair once, screen by screen and key by key. */
    method ValidateScopeCollisions(ghost lines: seq<Line>) returns (ghost found: seq<Error>)
      requires Recorded(lines) && PlainNames(tables)
      modifies this`errors
      ensures errors == old(errors) + found && ClashErrors(tables, lines, found)
    {
      hide PlainNames, Recorded, ClashErrors, Looked, EarlierLooked, ScreensDone, Reports, OnScreen, Alphabetic, Natsort.CharsLess;
      var screens := NamesInOrder(tables.screens);
      var seen := {};
      found := [];
      NoScreenDone(tables, lines, screens);
      for i := 0 to |screens|
        invariant errors == old(errors) + found && ScreensDone(tables, lines, screens, i, found, seen)
      {
        ghost var more, was := [], seen;
        ScreenTurn(tables, lines, screens, i, found, seen);
        seen, more := CheckScreen(screens[i], seen, lines, found);
        OneScreenDone(tables, lines, screens, i, found, was, more, seen);
        found := found + more;
      }
      AllScreensDone(tables, lines, screens, found, seen);
    }

    lemma ClaimOfAction(lines: seq<Line>, s: Spec, classes: seq<string>, defaults: seq<string>, keys: seq<string>, key: string, c: Claim)
      requires Recorded(lines) && defaults != []
      requires forall k :: k in defaults <==> IsDefault(s, classes, k)
      requires keys == if s.name in keybinds then keybinds[s.name] else defaults
      ensures key in keys && c == ActionClaim(s.name, key) <==> ActionClaims(tables, lines, s, classes, key, c)
    {
      hide LineOf, Overridden, IsDefault;
      assert defaults[0] in defaults;
      assert c == Claim(c.id, c.line, c.fixed);
    }

    lemma Unrecorded(lines: seq<Line>, line: Line)
      requires Recorded(lines) && (!ValidLine(tables, line) || !line.Bind?)
      ensures Recorded(lines + [line])
    {
      hide KeysOf;
      OverriddenMore(tables, lines, line);
      forall a | a in keybinds { KeysUnchanged(tables, lines, line, a, keybinds[a], bindings[a]); }
    }
  }

  lemma OverriddenMore(t: Tables, lines: seq<Line>, line: Line)
    ensures forall action :: Overridden(t, lines + [line], action) <==> Overridden(t, lines, action) || Binds(t, line, action)
  {
    hide Binds;
    forall action ensures Overridden(t, lines + [line], action) <==> Overridden(t, lines, action) || Binds(t, line, action) {
      if i :| 0 <= i < |lines| && Binds(t, lines[i], action) { assert Binds(t, (lines + [line])[i], action); }
      assert (lines + [line])[|lines|] == line;
    }
  }

  lemma OneLineMore(t: Tables, lines: seq<Line>, line: Line, action: string)
    ensures forall key ::
              LineOf(t, lines + [line], action, key) ==
              if LineOf(t, lines, action, key) > 0 then LineOf(t, lines, action, key)
              else if Binds(t, line, action) && line.key == key then |lines| + 1 else 0
  {
    assert (lines + [line])[..|lines|] == lines;
  }

  lemma {:induction false} BoundSomewhere(t: Tables, lines: seq<Line>, action: string, key: string)
    requires LineOf(t, lines, action, key) > 0
    ensures Overridden(t, lines, action)
  {
    hide Binds;
    var init := lines[..|lines| - 1];
    if LineOf(t, init, action, key) > 0 {
      BoundSomewhere(t, init, action, key);
      var i :| 0 <= i < |init| && Binds(t, init[i], action);
      assert Binds(t, lines[i], action);
    }
  }

  // ---------------------------------------------------------------- whole files

  datatype Outcome = Accepted(keybinds: map<string, seq<string>>) | Rejected(errors: seq<Error>)

  predicate LineLess(a: Error, b: Error) { a.line < b.line }

  /** Exactly the errors of these lines: one for each line that something is wrong with, in
      the order of the lines. */
  ghost predicate LineErrors(t: Tables, lines: seq<Line>, errors: seq<Error>) {
    && (forall i, j | 0 <= i < j < |errors| :: errors[i].line < errors[j].line)
    && forall e :: e in errors <==> 0 < e.line <= |lines| && Wrong(t, lines[e.line - 1], e.problem)
  }

  lemma NoLineErrors(t: Tables)
    ensures LineErrors(t, [], [])
  {
  }

  lemma OneValidLine(t: Tables, lines: seq<Line>, errors: seq<Error>, line: Line)
    requires LineErrors(t, lines, errors) && ValidLine(t, line)
    ensures LineErrors(t, lines + [line], errors)
  {
    forall problem ensures !Wrong(t, line, problem) {}
    hide Wrong, ValidLine;
    forall e ensures e in errors <==> 0 < e.line <= |lines| + 1 && Wrong(t, (lines + [line])[e.line - 1], e.problem) {
      if 0 < e.line <= |lines| { assert (lines + [line])[e.line - 1] == lines[e.line - 1]; }
    }
  }

  lemma OneWrongLine(t: Tables, lines: seq<Line>, errors: seq<Error>, line: Line, problem: Problem)
    requires LineErrors(t, lines, errors) && Wrong(t, line, problem)
    ensures LineErrors(t, lines + [line], errors + [Error(|lines| + 1, problem)])
  {
    forall other | Wrong(t, line, other) ensures other == problem {}
    hide Wrong;
    var all, more := lines + [line], errors + [Error(|lines| + 1, problem)];
    forall e ensures e in more <==> 0 < e.line <= |all| && Wrong(t, all[e.line - 1], e.problem) {
      if 0 < e.line <= |lines| { assert all[e.line - 1] == lines[e.line - 1]; }
    }
    forall i | 0 <= i < |errors| ensures errors[i].line <= |lines| { assert errors[i] in errors; }
  }

  ghost predicate AllValid(t: Tables, lines: seq<Line>) { forall i | 0 <= i < |lines| :: ValidLine(t, lines[i]) }

  lemma LineErrorsIff(t: Tables, lines: seq<Line>, errors: seq<Error>)
    requires LineErrors(t, lines, errors)
    ensures errors == [] <==> AllValid(t, lines)
  {
    if errors != [] { assert errors[0] in errors; }
    if i :| 0 <= i < |lines| && !ValidLine(t, lines[i]) {
      var problem :| Wrong(t, lines[i], problem) by { NotValid(t, lines[i]); }
      assert Error(i + 1, problem) in errors;
    }
  }

  lemma NotValid(t: Tables, line: Line)
    ensures ValidLine(t, line) <==> forall problem :: !Wrong(t, line, problem)
  {
    match line {
      case Skipped =>
      case Malformed => assert Wrong(t, line, CannotParse);
      case Bind(key, action) =>
        assert ValidLine(t, line) || Wrong(t, line, CannotParse) || Wrong(t, line, BadKey) || Wrong(t, line, UnknownAction)
          || Wrong(t, line, ReservedKey);
    }
  }

  /** Takes one line into account. */
  method ParseLine(p: Parser, line: Line, ghost before: seq<Line>, number: nat)
    requires p.Recorded(before) && number == |before| + 1 && LineErrors(p.tables, before, p.errors)
    modifies p
    ensures p.Recorded(before + [line]) && LineErrors(p.tables, before + [line], p.errors)
  {
    hide Parser.Recorded, ValidLine, Wrong, LineErrors;
    SkippedIsValid(p.tables);
    ghost var errors := p.errors;
    match line {
      case Skipped =>
        p.Unrecorded(before, Skipped);
        OneValidLine(p.tables, before, errors, line);
      case Malformed =>
        p.Unrecorded(before, Malformed);
        p.AddError(number, CannotParse);
        OneWrongLine(p.tables, before, errors, line, CannotParse);
      case Bind(key, action) =>
        p.ParseKeybind(key, action, before, number);
        if ValidLine(p.tables, line) {
          OneValidLine(p.tables, before, errors, line);
        } else {
          ghost var problem :| Wrong(p.tables, line, problem) && p.errors == errors + [Error(number, problem)];
          OneWrongLine(p.tables, before, errors, line, problem);
        }
    }
  }

  lemma SkippedIsValid(t: Tables)
    ensures ValidLine(t, Skipped) && !ValidLine(t, Malformed) && Wrong(t, Malformed, CannotParse)
  {
  }

  /** The first line that does not fit the reader's buffer. */
  ghost predicate LongLineAt(content: string, k: nat) {
    k < |RawLines(content)| && TooLong(RawLines(content)[k]) && forall j | 0 <= j < k :: !TooLong(RawLines(content)[j])
  }

  /** Exactly what a file that is cut short by an over-long line is rejected for: the errors of
      the lines before it, and that line. */
  ghost predicate CutShort(t: Tables, content: string, errors: seq<Error>) {
    exists k: nat, before :: LongLineAt(content, k) && LineErrors(t, Lines(content)[..k], before)
      && errors == before + [Error(k + 1, LineTooLong)]
  }

  /** Exactly what any other file is rejected for: the errors of its lines and its clashes, by
      line. */
  ghost predicate AllErrors(t: Tables, lines: seq<Line>, errors: seq<Error>) {
    && Sorted(LineLess, errors)
    && exists wrong, clashes :: LineErrors(t, lines, wrong) && ClashErrors(t, lines, clashes)
         && multiset(errors) == multiset(wrong + clashes)
  }

  /** Reads the lines, up to the first over-long one. */
  method ReadLines(p: Parser, content: string) returns (ok: bool)
    requires p.Recorded([]) && p.errors == []
    modifies p
    ensures ok <==> !HasLongLine(content)
    ensures ok ==> p.Recorded(Lines(content)) && LineErrors(p.tables, Lines(content), p.errors)
    ensures !ok ==> CutShort(p.tables, content, p.errors)
  {
    hide Parser.Recorded, LineErrors, TooLong, RawLines, Lex;
    var raw := RawLines(content);
    ghost var lines := Lines(content);
    NoLineErrors(p.tables);
    for i := 0 to |raw|
      invariant p.Recorded(lines[..i]) && LineErrors(p.tables, lines[..i], p.errors)
      invariant forall j | 0 <= j < i :: !TooLong(raw[j])
    {
      if TooLong(raw[i]) {
        assert LongLineAt(content, i);
        p.AddError(i + 1, LineTooLong);
        return false;
      }
      assert lines[..i + 1] == lines[..i] + [lines[i]];
      ParseLine(p, Lex(i == 0, raw[i]), lines[..i], i + 1);
    }
    assert lines[..|lines|] == lines;
    ok := true;
  }

  /** A file is accepted exactly when it holds no over-long line, every line is valid, and no
      screen has a key that two claims fight over, one of them at least from the file. Any
      other file is rejected for exactly what is wrong with it. */
  method Parse(tables: Tables, content: string) returns (outcome: Outcome)
    requires PlainNames(tables)
    ensures outcome.Accepted? <==>
              !HasLongLine(content) && AllValid(tables, Lines(content)) && !Collides(tables, Lines(content))
    ensures outcome.Accepted? ==> forall action :: action in outcome.keybinds <==> Overridden(tables, Lines(content), action)
    ensures outcome.Accepted? ==> forall action, key | action in outcome.keybinds ::
              key in outcome.keybinds[action] <==> LineOf(tables, Lines(content), action, key) > 0
    ensures outcome.Rejected? ==> outcome.errors != []
    ensures outcome.Rejected? ==> if HasLongLine(content) then CutShort(tables, content, outcome.errors)
                                  else AllErrors(tables, Lines(content), outcome.errors)
  {
    hide Collides, PlainNames, Lines, HasLongLine, AllValid, AllErrors, LineErrors, ClashErrors, CutShort, LineOf, Overridden, LineLess,
         Parser.Recorded;
    var p := new Parser(tables);
    var ok := ReadLines(p, content);
    if !ok {
      CutShortSome(tables, content, p.errors);
      return Rejected(p.errors);
    }
    ghost var wrong := p.errors;
    ghost var clashes := p.ValidateScopeCollisions(Lines(content));
    ErrorsSorted(tables, Lines(content), wrong, clashes);
    if |p.errors| > 0 { return Rejected(Sort(LineLess, p.errors)); }
    RecordedMeans(p, Lines(content));
    outcome := Accepted(p.keybinds);
  }

  lemma CutShortSome(t: Tables, content: string, errors: seq<Error>)
    requires CutShort(t, content, errors)
    ensures errors != []
  {
    hide LineErrors, LongLineAt;
  }

  lemma ErrorsSorted(t: Tables, lines: seq<Line>, wrong: seq<Error>, clashes: seq<Error>)
    requires LineErrors(t, lines, wrong) && ClashErrors(t, lines, clashes)
    ensures AllErrors(t, lines, Sort(LineLess, wrong + clashes))
    ensures |Sort(LineLess, wrong + clashes)| == |wrong + clashes|
    ensures wrong + clashes == [] <==> AllValid(t, lines) && !Collides(t, lines)
  {
    hide LineErrors, ClashErrors, AllValid, Collides;
    LineErrorsIff(t, lines, wrong);
    ClashErrorsIff(t, lines, clashes);
    SortSorts(LineLess, wrong + clashes);
    assert |multiset(Sort(LineLess, wrong + clashes))| == |multiset(wrong + clashes)|;
  }

  lemma RecordedMeans(p: Parser, lines: seq<Line>)
    requires p.Recorded(lines)
    ensures forall action :: action in p.keybinds <==> Overridden(p.tables, lines, action)
    ensures forall action, key | action in p.keybinds :: key in p.keybinds[action] <==> LineOf(p.tables, lines, action, key) > 0
  {
    hide Overridden, LineOf;
  }
}
