/** The supported part of .gitignore: reading rules, matching paths, and which rule decides. */
module GitIgnore {
  import opened Values

  datatype Rule = Rule(dirRel: string, negated: bool, dirOnly: bool, anchored: bool, segments: seq<string>)

  /** How a pattern without `/` matches one segment of a path. */
  type SegmentMatch = (string, string) -> bool

  // ---------------------------------------------------------------- segments

  /** Cuts at every slash. */
  function Split(s: string): (segments: seq<string>)
    ensures segments != []
  {
    if s == "" then [""]
    else
      var rest := Split(s[1..]);
      if s[0] == '/' then [""] + rest else [[s[0]] + rest[0]] + rest[1..]
  }

  function Join(segments: seq<string>): string {
    if segments == [] then "" else if |segments| == 1 then segments[0] else segments[0] + "/" + Join(segments[1..])
  }

  predicate NoSlash(s: string) { '/' !in s }

  lemma {:induction false} SplitJoins(s: string)
    ensures Join(Split(s)) == s
    ensures forall i | 0 <= i < |Split(s)| :: NoSlash(Split(s)[i])
    ensures |Split(s)| > 1 <==> '/' in s
  {
    hide Join;
    if s == "" {
      JoinOne("");
    } else {
      SplitJoins(s[1..]);
      var rest := Split(s[1..]);
      assert s == [s[0]] + s[1..];
      if s[0] == '/' {
        JoinMore("", rest);
      } else {
        JoinLonger(s[0], rest);
      }
    }
  }

  lemma JoinOne(segment: string)
    ensures Join([segment]) == segment
  {
  }

  lemma JoinMore(segment: string, rest: seq<string>)
    requires rest != []
    ensures Join([segment] + rest) == segment + "/" + Join(rest)
  {
    assert ([segment] + rest)[1..] == rest;
  }

  lemma JoinLonger(c: char, segments: seq<string>)
    requires segments != []
    ensures Join([[c] + segments[0]] + segments[1..]) == [c] + Join(segments)
  {
    assert ([[c] + segments[0]] + segments[1..])[1..] == segments[1..];
  }

  /** The path of a file or directory, cut into segments; the directory itself has none. */
  function SplitPath(value: string): seq<string> { if value == "" then [] else Split(value) }

  lemma PathSplits(value: string)
    ensures Join(SplitPath(value)) == value && (SplitPath(value) == [] <==> value == "")
    ensures forall i | 0 <= i < |SplitPath(value)| :: NoSlash(SplitPath(value)[i])
  {
    SplitJoins(value);
  }

  // ---------------------------------------------------------------- patterns

  /** `**` takes any run of segments; every other pattern segment takes exactly one. */
  predicate MatchSegments(m: SegmentMatch, patterns: seq<string>, values: seq<string>)
    decreases |patterns| + |values|
  {
    if patterns == [] then values == []
    else if patterns[0] == "**" then
      MatchSegments(m, patterns[1..], values) || (values != [] && MatchSegments(m, patterns, values[1..]))
    else if values == [] || !m(patterns[0], values[0]) then false
    else MatchSegments(m, patterns[1..], values[1..])
  }

  /** The `k`-th pattern segment takes the values from one cut to the next. */
  ghost predicate Takes(m: SegmentMatch, patterns: seq<string>, values: seq<string>, cuts: seq<nat>, k: nat)
    requires k < |patterns| && |cuts| == |patterns| + 1
  {
    && cuts[k] <= cuts[k + 1] <= |values|
    && (patterns[k] != "**" ==> cuts[k + 1] == cuts[k] + 1 && m(patterns[k], values[cuts[k]]))
  }

  /** The cuts share out all the values among the pattern segments, in order. */
  ghost predicate Divides(m: SegmentMatch, patterns: seq<string>, values: seq<string>, cuts: seq<nat>) {
    && |cuts| == |patterns| + 1 && cuts[0] == 0 && cuts[|patterns|] == |values|
    && forall k: nat | k < |patterns| :: Takes(m, patterns, values, cuts, k)
  }

  function Shifted(cuts: seq<nat>, n: nat): (r: seq<nat>)
    ensures |r| == |cuts| && forall i | 0 <= i < |cuts| :: r[i] == cuts[i] + n
  {
    seq(|cuts|, i requires 0 <= i < |cuts| => cuts[i] + n)
  }

  /** A division of the rest of the pattern over the rest of the values, and back. */
  lemma DivideRest(m: SegmentMatch, patterns: seq<string>, values: seq<string>, cuts: seq<nat>, n: nat)
    requires patterns != [] && n <= |values| && Divides(m, patterns[1..], values[n..], cuts)
    requires patterns[0] != "**" ==> n == 1 && m(patterns[0], values[0])
    ensures Divides(m, patterns, values, [0] + Shifted(cuts, n))
  {
    var all := [0] + Shifted(cuts, n);
    forall k: nat | k < |patterns| ensures Takes(m, patterns, values, all, k) {
      if k > 0 {
        assert Takes(m, patterns[1..], values[n..], cuts, k - 1);
        assert all[k] == cuts[k - 1] + n && all[k + 1] == cuts[k] + n;
      }
    }
  }

  lemma {:induction false} MatchDivides(m: SegmentMatch, patterns: seq<string>, values: seq<string>) returns (cuts: seq<nat>)
    requires MatchSegments(m, patterns, values)
    ensures Divides(m, patterns, values, cuts)
    decreases |patterns| + |values|
  {
    if patterns == [] { return [0]; }
    if patterns[0] == "**" {
      if MatchSegments(m, patterns[1..], values) {
        cuts := MatchDivides(m, patterns[1..], values);
        assert values[0..] == values;
        DivideRest(m, patterns, values, cuts, 0);
        cuts := [0] + Shifted(cuts, 0);
      } else {
        cuts := MatchDivides(m, patterns, values[1..]);
        Widen(m, patterns, values, cuts);
        cuts := [0] + Shifted(cuts, 1)[1..];
      }
    } else {
      cuts := MatchDivides(m, patterns[1..], values[1..]);
      DivideRest(m, patterns, values, cuts, 1);
      cuts := [0] + Shifted(cuts, 1);
    }
  }

  /** A leading `**` takes one segment more. */
  lemma Widen(m: SegmentMatch, patterns: seq<string>, values: seq<string>, cuts: seq<nat>)
    requires patterns != [] && patterns[0] == "**" && values != [] && Divides(m, patterns, values[1..], cuts)
    ensures Divides(m, patterns, values, [0] + Shifted(cuts, 1)[1..])
  {
    var all := [0] + Shifted(cuts, 1)[1..];
    assert Takes(m, patterns, values[1..], cuts, 0);
    forall k: nat | k < |patterns| ensures Takes(m, patterns, values, all, k) {
      assert Takes(m, patterns, values[1..], cuts, k);
      assert all[k + 1] == cuts[k + 1] + 1;
      if k > 0 { assert all[k] == cuts[k] + 1; }
    }
  }

  lemma {:induction false} DivisionMatches(m: SegmentMatch, patterns: seq<string>, values: seq<string>, cuts: seq<nat>)
    requires Divides(m, patterns, values, cuts)
    ensures MatchSegments(m, patterns, values)
    decreases |patterns| + |values|
  {
    if patterns != [] {
      assert Takes(m, patterns, values, cuts, 0);
      if patterns[0] == "**" && cuts[1] > 0 {
        var less := [0] + seq(|cuts| - 1, i requires 0 <= i < |cuts| - 1 => if cuts[i + 1] > 0 then cuts[i + 1] - 1 else 0);
        Narrow(m, patterns, values, cuts, less);
        DivisionMatches(m, patterns, values[1..], less);
      } else {
        var n := cuts[1];
        var rest := seq(|cuts| - 1, i requires 0 <= i < |cuts| - 1 => if cuts[i + 1] > n then cuts[i + 1] - n else 0);
        Behead(m, patterns, values, cuts, rest);
        DivisionMatches(m, patterns[1..], values[n..], rest);
        assert values[0..] == values;
      }
    }
  }

  lemma {:induction false} CutsGrow(m: SegmentMatch, patterns: seq<string>, values: seq<string>, cuts: seq<nat>, k: nat)
    requires Divides(m, patterns, values, cuts) && 0 < k <= |patterns|
    ensures cuts[1] <= cuts[k]
  {
    if k > 1 {
      CutsGrow(m, patterns, values, cuts, k - 1);
      assert Takes(m, patterns, values, cuts, k - 1);
    }
  }

  /** A leading `**` that takes something takes one segment less. */
  lemma Narrow(m: SegmentMatch, patterns: seq<string>, values: seq<string>, cuts: seq<nat>, less: seq<nat>)
    requires patterns != [] && patterns[0] == "**" && Divides(m, patterns, values, cuts) && cuts[1] > 0
    requires |less| == |cuts| && less[0] == 0 && forall i: nat | 0 < i < |cuts| :: less[i] == if cuts[i] > 0 then cuts[i] - 1 else 0
    ensures values != [] && Divides(m, patterns, values[1..], less)
  {
    CutsGrow(m, patterns, values, cuts, |patterns|);
    forall k: nat | k < |patterns| ensures Takes(m, patterns, values[1..], less, k) {
      assert Takes(m, patterns, values, cuts, k);
      CutsGrow(m, patterns, values, cuts, k + 1);
      if k > 0 { CutsGrow(m, patterns, values, cuts, k); }
    }
  }

  lemma Behead(m: SegmentMatch, patterns: seq<string>, values: seq<string>, cuts: seq<nat>, rest: seq<nat>)
    requires patterns != [] && Divides(m, patterns, values, cuts)
    requires |rest| == |cuts| - 1
    requires forall i: nat | i < |rest| :: rest[i] == if cuts[i + 1] > cuts[1] then cuts[i + 1] - cuts[1] else 0
    ensures cuts[1] <= |values| && Divides(m, patterns[1..], values[cuts[1]..], rest)
  {
    assert Takes(m, patterns, values, cuts, 0);
    CutsGrow(m, patterns, values, cuts, |patterns|);
    forall k: nat | k < |patterns| - 1 ensures Takes(m, patterns[1..], values[cuts[1]..], rest, k) {
      assert Takes(m, patterns, values, cuts, k + 1);
      CutsGrow(m, patterns, values, cuts, k + 1);
      CutsGrow(m, patterns, values, cuts, k + 2);
    }
  }

  /** A path matches exactly when it can be divided: each `**` takes some run of segments,
      every other pattern segment one that it matches. */
  lemma MatchIff(m: SegmentMatch, patterns: seq<string>, values: seq<string>)
    ensures MatchSegments(m, patterns, values) <==> exists cuts :: Divides(m, patterns, values, cuts)
  {
    if MatchSegments(m, patterns, values) {
      var cuts := MatchDivides(m, patterns, values);
    }
    if cuts :| Divides(m, patterns, values, cuts) { DivisionMatches(m, patterns, values, cuts); }
  }

  // ---------------------------------------------------------------- reading rules

  function TrimLeft(s: string): string { if s != "" && s[0] == '/' then TrimLeft(s[1..]) else s }

  function TrimRight(s: string): string { if s != "" && s[|s| - 1] == '/' then TrimRight(s[..|s| - 1]) else s }

  function Trim(s: string): string { TrimRight(TrimLeft(s)) }

  predicate Slashes(s: string) { forall c | c in s :: c == '/' }

  /** `t` is `s` without the slashes at its ends. */
  ghost predicate Trimmed(s: string, t: string) {
    && (exists lead, tail :: s == lead + t + tail && Slashes(lead) && Slashes(tail))
    && (t != "" ==> t[0] != '/' && t[|t| - 1] != '/')
  }

  lemma {:induction false} TrimLeftCuts(s: string)
    ensures exists lead :: s == lead + TrimLeft(s) && Slashes(lead)
    ensures TrimLeft(s) != "" ==> TrimLeft(s)[0] != '/'
  {
    if s != "" && s[0] == '/' {
      TrimLeftCuts(s[1..]);
      var lead :| s[1..] == lead + TrimLeft(s[1..]) && Slashes(lead);
      assert s == (['/'] + lead) + TrimLeft(s) && Slashes(['/'] + lead);
    } else {
      assert s == "" + s && Slashes("");
    }
  }

  lemma {:induction false} TrimRightCuts(s: string)
    ensures exists tail :: s == TrimRight(s) + tail && Slashes(tail)
    ensures TrimRight(s) != "" ==> TrimRight(s)[|TrimRight(s)| - 1] != '/'
  {
    if s != "" && s[|s| - 1] == '/' {
      var init := s[..|s| - 1];
      TrimRightCuts(init);
      var tail :| init == TrimRight(init) + tail && Slashes(tail);
      assert s == TrimRight(s) + (tail + ['/']) && Slashes(tail + ['/']);
    } else {
      assert s == s + "" && Slashes("");
    }
  }

  /** Trimming takes the slashes from both ends and leaves none there. */
  lemma Trims(s: string)
    ensures Trimmed(s, Trim(s))
  {
    hide TrimLeft, TrimRight;
    TrimLeftCuts(s);
    TrimRightCuts(TrimLeft(s));
    var lead :| s == lead + TrimLeft(s) && Slashes(lead);
    var tail :| TrimLeft(s) == Trim(s) + tail && Slashes(tail);
    assert s == lead + Trim(s) + tail;
  }

  function WithoutBang(pattern: string): string { if pattern != "" && pattern[0] == '!' then pattern[1..] else pattern }

  function WithoutTail(pattern: string): string {
    if pattern != "" && pattern[|pattern| - 1] == '/' then pattern[..|pattern| - 1] else pattern
  }

  function WithoutLead(pattern: string): string { if pattern != "" && pattern[0] == '/' then pattern[1..] else pattern }

  /** The rule a line of a .gitignore file states, if any. */
  function ReadRule(dirRel: string, pattern: string): Option<Rule> {
    if pattern == "" || pattern[0] == '#' || '\\' in pattern then None
    else
      var plain := WithoutBang(pattern);
      var path := WithoutTail(plain);
      var segments := WithoutLead(path);
      if plain == "" || segments == "" then None
      else Some(Rule(Trim(dirRel), pattern[0] == '!', plain[|plain| - 1] == '/', '/' in path, Split(segments)))
  }

  /** The pattern a rule was read from; `lead` is the slash that only anchors it. */
  function Spelling(r: Rule, lead: bool): string {
    OnlyIf(r.negated, "!") + ((OnlyIf(lead, "/") + Join(r.segments)) + OnlyIf(r.dirOnly, "/"))
  }

  function OnlyIf(c: bool, s: string): string { if c then s else "" }

  lemma Respelled(pattern: string)
    requires pattern != ""
    ensures pattern == OnlyIf(pattern[0] == '!', "!") + WithoutBang(pattern)
    ensures pattern == OnlyIf(pattern[0] == '/', "/") + WithoutLead(pattern)
    ensures pattern == WithoutTail(pattern) + OnlyIf(pattern[|pattern| - 1] == '/', "/")
  {
    var n := |pattern| - 1;
    assert pattern == [pattern[0]] + pattern[1..] && pattern == pattern[..n] + [pattern[n]];
  }

  /** Reading loses nothing: negation, leading slash, segments and trailing slash spell the
      pattern again, and it is anchored exactly when a slash leads it or parts its segments. */
  lemma RuleSpells(dirRel: string, pattern: string)
    requires ReadRule(dirRel, pattern).Some?
    ensures var r := ReadRule(dirRel, pattern).value;
            && WithoutBang(pattern) != ""
            && Trimmed(dirRel, r.dirRel)
            && r.segments != [] && (forall i | 0 <= i < |r.segments| :: NoSlash(r.segments[i])) && Join(r.segments) != ""
            && (r.negated <==> pattern[0] == '!') && (r.dirOnly <==> pattern[|pattern| - 1] == '/')
            && var lead := WithoutBang(pattern)[0] == '/';
               pattern == Spelling(r, lead) && (r.anchored <==> lead || |r.segments| > 1)
  {
    hide Split, Join, Trim, Trimmed, WithoutBang, WithoutTail, WithoutLead;
    Trims(dirRel);
    var r := ReadRule(dirRel, pattern).value;
    var plain := WithoutBang(pattern);
    var path := WithoutTail(plain);
    var segments := WithoutLead(path);
    SplitJoins(segments);
    Respelled(pattern);
    Respelled(plain);
    NothingLeads();
    Respelled(path);
    var lead := path[0] == '/';
    assert pattern == Spelling(r, lead);
    if !lead { assert segments == path; }
  }

  lemma NothingLeads()
    ensures WithoutLead("") == ""
  {
  }

  /** Lines that state no rule: comments, escapes, and those without any path. */
  lemma NoRuleIff(dirRel: string, pattern: string)
    ensures ReadRule(dirRel, pattern).None? <==>
              || pattern == "" || pattern[0] == '#' || '\\' in pattern
              || pattern == "!" || pattern == "/" || pattern == "//" || pattern == "!/" || pattern == "!//"
  {
    hide Split, Trim;
    if pattern != "" {
      var plain := WithoutBang(pattern);
      NoPathIff(plain);
      assert pattern[0] == '!' ==> pattern == "!" + plain;
    }
  }

  lemma NoPathIff(plain: string)
    ensures WithoutLead(WithoutTail(plain)) == "" <==> plain == "" || plain == "/" || plain == "//"
  {
    var path := WithoutTail(plain);
    assert plain == path || plain == path + "/";
    assert path == WithoutLead(path) || path == "/" + WithoutLead(path);
  }

  // ---------------------------------------------------------------- deciding

  /** The path of `rel` seen from the directory of a rule, if it lies there. */
  function BelowRuleDir(rel: string, dirRel: string): Option<string> {
    if dirRel == "" then Some(rel)
    else if rel == dirRel then Some("")
    else if dirRel + "/" <= rel then Some(rel[|dirRel| + 1..])
    else None
  }

  /** `candidate` is what follows the directory, or nothing for the directory itself. */
  ghost predicate Below(rel: string, dirRel: string, candidate: string) {
    if dirRel == "" then candidate == rel
    else (rel == dirRel && candidate == "") || rel == dirRel + "/" + candidate
  }

  lemma BelowIff(rel: string, dirRel: string, candidate: string)
    ensures BelowRuleDir(rel, dirRel) == Some(candidate) <==> Below(rel, dirRel, candidate)
  {
    if dirRel != "" && rel != dirRel && dirRel + "/" <= rel {
      assert rel == dirRel + "/" + rel[|dirRel| + 1..];
      if rel == dirRel + "/" + candidate { assert rel[|dirRel| + 1..] == candidate; }
    }
  }

  /** A single segment without slashes matches anywhere below; other rules match the whole path. */
  ghost predicate Matches(m: SegmentMatch, r: Rule, values: seq<string>) {
    if !r.anchored && |r.segments| == 1 then exists i | 0 <= i < |values| :: m(r.segments[0], values[i])
    else exists cuts :: Divides(m, r.segments, values, cuts)
  }

  ghost predicate Applies(m: SegmentMatch, r: Rule, rel: string, isDir: bool) {
    (r.dirOnly ==> isDir) && exists candidate :: Below(rel, r.dirRel, candidate) && Matches(m, r, SplitPath(candidate))
  }

  class IgnoreMatcher {
    var rules: seq<Rule>

    constructor ()
      ensures rules == []
    {
      rules := [];
    }

    /** Adds the rules of one file, in order. */
    method AddFile(dirRel: string, patterns: seq<string>)
      modifies this
      ensures rules == old(rules) + RulesOf(dirRel, patterns)
    {
      for i := 0 to |patterns|
        invariant rules == old(rules) + RulesOf(dirRel, patterns[..i])
      {
        assert patterns[..i + 1][..i] == patterns[..i];
        var rule := ReadRule(dirRel, patterns[i]);
        if rule.Some? { rules := rules + [rule.value]; }
      }
      assert patterns[..|patterns|] == patterns;
    }

    method RuleMatches(m: SegmentMatch, r: Rule, values: seq<string>) returns (matched: bool)
      ensures matched <==> Matches(m, r, values)
    {
      if !r.anchored && |r.segments| == 1 {
        for i := 0 to |values|
          invariant forall j | 0 <= j < i :: !m(r.segments[0], values[j])
        {
          if m(r.segments[0], values[i]) { return true; }
        }
        return false;
      }
      MatchIff(m, r.segments, values);
      matched := MatchSegments(m, r.segments, values);
    }

    /** The last rule that applies decides; a path no rule applies to is not ignored. */
    method Ignored(m: SegmentMatch, path: string, isDir: bool) returns (ignored: bool)
      ensures Trimmed(path, Trim(path))
      ensures var rel := Trim(path);
              ignored <==> exists i | 0 <= i < |rules| ::
                && Applies(m, rules[i], rel, isDir) && !rules[i].negated
                && forall j | i < j < |rules| :: !Applies(m, rules[j], rel, isDir)
    {
      hide Matches, Trim, Trimmed, BelowRuleDir, Below, SplitPath;
      Trims(path);
      var rel := Trim(path);
      ignored := false;
      for n := 0 to |rules|
        invariant ignored <==> exists i | 0 <= i < n ::
            && Applies(m, rules[i], rel, isDir) && !rules[i].negated
            && forall j | i < j < n :: !Applies(m, rules[j], rel, isDir)
      {
        var rule := rules[n];
        if rule.dirOnly && !isDir { continue; }
        var candidate := BelowRuleDir(rel, rule.dirRel);
        forall c { BelowIff(rel, rule.dirRel, c); }
        if candidate.None? { continue; }
        var matched := RuleMatches(m, rule, SplitPath(candidate.value));
        assert matched <==> Applies(m, rule, rel, isDir);
        if matched { ignored := !rule.negated; }
      }
    }
  }

  function RulesOf(dirRel: string, patterns: seq<string>): seq<Rule> {
    if patterns == [] then []
    else
      var rule := ReadRule(dirRel, patterns[|patterns| - 1]);
      RulesOf(dirRel, patterns[..|patterns| - 1]) + (if rule.Some? then [rule.value] else [])
  }

  /** Every line that states a rule gives that rule, in the order of the lines. */
  lemma RulesInOrder(dirRel: string, patterns: seq<string>, more: seq<string>, pattern: string)
    ensures RulesOf(dirRel, patterns + more) == RulesOf(dirRel, patterns) + RulesOf(dirRel, more)
    ensures RulesOf(dirRel, [pattern]) == if ReadRule(dirRel, pattern).Some? then [ReadRule(dirRel, pattern).value] else []
  {
    hide ReadRule;
    RulesApart(dirRel, patterns, more);
    assert [pattern][..0] == [];
  }

  lemma {:induction false} RulesApart(dirRel: string, patterns: seq<string>, more: seq<string>)
    ensures RulesOf(dirRel, patterns + more) == RulesOf(dirRel, patterns) + RulesOf(dirRel, more)
  {
    hide ReadRule;
    if more == [] {
      assert patterns + more == patterns;
    } else {
      var init, last := more[..|more| - 1], more[|more| - 1];
      RulesApart(dirRel, patterns, init);
      assert (patterns + more)[..|patterns + more| - 1] == patterns + init;
    }
  }
}
