/** Checking the rows of a scan against the cluster: a queue of commands of which at most
    eight run at once. */
module Suggestions {
  import opened Values
  import opened Loader

  const MAX_CHECKS := 8

  datatype RowState = Unchecked | Found | NotFound | CheckFailed

  datatype Row = Row(kind: string, ns: string, name: string, namePrefix: bool, state: RowState, matched: string)

  /** Rows that name a generated resource by prefix are served together, by kind and namespace. */
  predicate PrefixServed(r: Row) { r.namePrefix && (r.kind == "Secret" || r.kind == "ConfigMap") }

  datatype Check = CheckRow(reqID: nat, index: nat) | MatchPrefixes(reqID: nat, kind: string, ns: string, prefixes: set<string>)

  predicate Serves(c: Check, r: Row, i: nat) {
    match c
    case CheckRow(_, index) => i == index
    case MatchPrefixes(_, kind, ns, _) => PrefixServed(r) && r.kind == kind && r.ns == ns
  }

  function UncheckedCount(rows: seq<Row>): nat {
    if rows == [] then 0
    else UncheckedCount(rows[..|rows| - 1]) + (if rows[|rows| - 1].state == Unchecked then 1 else 0)
  }

  lemma {:induction false} OneChecked(rows: seq<Row>, i: nat, r: Row)
    requires i < |rows| && rows[i].state == Unchecked && r.state != Unchecked
    ensures UncheckedCount(rows[i := r]) == UncheckedCount(rows) - 1
  {
    var init := rows[..|rows| - 1];
    if i == |rows| - 1 {
      assert rows[i := r][..|rows| - 1] == init;
    } else {
      OneChecked(init, i, r);
      assert rows[i := r][..|rows| - 1] == init[i := r];
    }
  }

  lemma {:induction false} CountedMeans(rows: seq<Row>)
    ensures UncheckedCount(rows) == 0 <==> forall i | 0 <= i < |rows| :: rows[i].state != Unchecked
    ensures (forall i | 0 <= i < |rows| :: rows[i].state == Unchecked) ==> UncheckedCount(rows) == |rows|
  {
    if rows != [] { CountedMeans(rows[..|rows| - 1]); }
  }

  /** The outstanding checks share out the unchecked rows: every one is served by exactly one
      of them, and none of them serves a row that is checked, or nothing. */
  ghost predicate ShareOut(rows: seq<Row>, checks: set<Check>) {
    && (forall i: nat | i < |rows| :: rows[i].state == Unchecked <==> exists c :: c in checks && Serves(c, rows[i], i))
    && (forall c, d, i: nat | c in checks && d in checks && i < |rows| && Serves(c, rows[i], i) && Serves(d, rows[i], i) :: c == d)
    && (forall c | c in checks :: ServesSome(c, rows))
  }

  ghost predicate ServesSome(c: Check, rows: seq<Row>) { exists i: nat :: i < |rows| && Serves(c, rows[i], i) }

  /** A check by prefix asks for the names of all the rows it serves, and for no other. */
  ghost predicate AsksForAll(c: Check, rows: seq<Row>) {
    c.MatchPrefixes? ==> forall name :: name in c.prefixes <==> exists i: nat :: i < |rows| && Serves(c, rows[i], i) && rows[i].name == name
  }

  /** Every row is checked the way its kind is: one that names a generated Secret or ConfigMap
      by prefix together with the others of its kind and namespace, any other on its own. */
  ghost predicate CheckedItsWay(reqID: nat, rows: seq<Row>, checks: seq<Check>, i: nat)
    requires i < |rows|
  {
    var r := rows[i];
    if r.namePrefix && (r.kind == "Secret" || r.kind == "ConfigMap") then
      && CheckRow(reqID, i) !in checks
      && exists c :: c in checks && c.MatchPrefixes? && c.reqID == reqID && c.kind == r.kind && c.ns == r.ns && r.name in c.prefixes
    else CheckRow(reqID, i) in checks
  }

  ghost predicate Distinct(checks: seq<Check>) { forall k, l | 0 <= k < l < |checks| :: checks[k] != checks[l] }

  function Elements(checks: seq<Check>): set<Check> { set c | c in checks }

  // ---------------------------------------------------------------- building the queue

  /** Namespaces with rows served by prefix, and the names each asks for. */
  ghost predicate Grouped(rows: seq<Row>, n: nat, sets: map<(string, string), set<string>>, keys: seq<(string, string)>)
    requires n <= |rows|
  {
    && (forall k, l | 0 <= k < l < |keys| :: keys[k] != keys[l])
    && (forall key :: key in keys <==> key in sets)
    && (forall key | key in sets :: exists i: nat :: i < n && PrefixServed(rows[i]) && (rows[i].kind, rows[i].ns) == key)
    && (forall i: nat | i < n && PrefixServed(rows[i]) ::
          (rows[i].kind, rows[i].ns) in sets && rows[i].name in sets[(rows[i].kind, rows[i].ns)])
    && (forall key, name | key in sets && name in sets[key] :: GivenBy(rows, n, key, name))
  }

  ghost predicate GivenBy(rows: seq<Row>, n: nat, key: (string, string), name: string)
    requires n <= |rows|
  {
    exists i: nat :: i < n && PrefixServed(rows[i]) && (rows[i].kind, rows[i].ns) == key && rows[i].name == name
  }

  method GroupPrefixes(rows: seq<Row>) returns (sets: map<(string, string), set<string>>, keys: seq<(string, string)>)
    ensures Grouped(rows, |rows|, sets, keys)
  {
    sets, keys := map[], [];
    for i := 0 to |rows|
      invariant Grouped(rows, i, sets, keys)
    {
      hide Grouped;
      OneMoreRow(rows, i, sets, keys);
      if !PrefixServed(rows[i]) { continue; }
      var key := (rows[i].kind, rows[i].ns);
      if key !in sets { sets, keys := sets[key := {}], keys + [key]; }
      sets := sets[key := sets[key] + {rows[i].name}];
    }
  }

  /** What one more row adds: its name to the group of its kind and namespace. */
  lemma OneMoreRow(rows: seq<Row>, i: nat, sets: map<(string, string), set<string>>, keys: seq<(string, string)>)
    requires i < |rows| && Grouped(rows, i, sets, keys)
    ensures !PrefixServed(rows[i]) ==> Grouped(rows, i + 1, sets, keys)
    ensures var key := (rows[i].kind, rows[i].ns); PrefixServed(rows[i]) ==>
              if key in sets then Grouped(rows, i + 1, sets[key := sets[key] + {rows[i].name}], keys)
              else Grouped(rows, i + 1, sets[key := {}][key := {} + {rows[i].name}], keys + [key])
  {
    hide PrefixServed;
    forall k, name | k in sets && name in sets[k] ensures GivenBy(rows, i + 1, k, name) { assert GivenBy(rows, i, k, name); }
    if PrefixServed(rows[i]) { assert GivenBy(rows, i + 1, (rows[i].kind, rows[i].ns), rows[i].name); }
  }

  method BuildChecks(reqID: nat, rows: seq<Row>) returns (checks: seq<Check>)
    requires forall i | 0 <= i < |rows| :: rows[i].state == Unchecked
    ensures Distinct(checks) && ShareOut(rows, Elements(checks))
    ensures forall c | c in checks :: c.reqID == reqID && AsksForAll(c, rows)
    ensures forall i: nat | i < |rows| :: CheckedItsWay(reqID, rows, checks, i)
  {
    var sets, keys := GroupPrefixes(rows);
    checks := [];
    for i := 0 to |rows|
      invariant forall c :: c in checks <==> c.CheckRow? && c.reqID == reqID && c.index < i && !PrefixServed(rows[c.index])
      invariant Distinct(checks)
    {
      if !PrefixServed(rows[i]) { checks := checks + [CheckRow(reqID, i)]; }
    }
    ghost var single := checks;
    for j := 0 to |keys|
      invariant forall c :: c in checks <==>
                              || c in single
                              || (c.MatchPrefixes? && c.reqID == reqID && (c.kind, c.ns) in keys[..j]
                                  && c.prefixes == sets[(c.kind, c.ns)])
      invariant Distinct(checks)
    {
      var key := keys[j];
      assert keys[..j + 1] == keys[..j] + [key];
      assert key !in keys[..j];
      checks := checks + [MatchPrefixes(reqID, key.0, key.1, sets[key])];
    }
    assert keys[..|keys|] == keys;
    assert forall c :: c in checks <==> Built(c, reqID, rows, sets);
    forall i: nat | i < |rows| ensures CheckedItsWay(reqID, rows, checks, i) { ItsWay(reqID, rows, sets, keys, checks, i); }
    ChecksShareOut(reqID, rows, sets, keys, checks);
  }

  /** The check that serves a row. */
  ghost function Owner(reqID: nat, r: Row, i: nat, sets: map<(string, string), set<string>>): Check
    requires PrefixServed(r) ==> (r.kind, r.ns) in sets
  {
    if PrefixServed(r) then MatchPrefixes(reqID, r.kind, r.ns, sets[(r.kind, r.ns)]) else CheckRow(reqID, i)
  }

  ghost predicate Built(c: Check, reqID: nat, rows: seq<Row>, sets: map<(string, string), set<string>>) {
    c.reqID == reqID &&
    match c
    case CheckRow(_, i) => i < |rows| && !PrefixServed(rows[i])
    case MatchPrefixes(_, kind, ns, prefixes) => (kind, ns) in sets && prefixes == sets[(kind, ns)]
  }

  lemma OnlyOwnerServes(c: Check, reqID: nat, rows: seq<Row>, sets: map<(string, string), set<string>>,
                        keys: seq<(string, string)>, i: nat)
    requires Grouped(rows, |rows|, sets, keys) && i < |rows|
    ensures Built(Owner(reqID, rows[i], i, sets), reqID, rows, sets) && Serves(Owner(reqID, rows[i], i, sets), rows[i], i)
    ensures Built(c, reqID, rows, sets) && Serves(c, rows[i], i) ==> c == Owner(reqID, rows[i], i, sets)
  {
  }

  lemma ItsWay(reqID: nat, rows: seq<Row>, sets: map<(string, string), set<string>>, keys: seq<(string, string)>,
               checks: seq<Check>, i: nat)
    requires Grouped(rows, |rows|, sets, keys) && i < |rows|
    requires forall c :: c in checks <==> Built(c, reqID, rows, sets)
    ensures CheckedItsWay(reqID, rows, checks, i)
  {
    if PrefixServed(rows[i]) {
      assert Built(MatchPrefixes(reqID, rows[i].kind, rows[i].ns, sets[(rows[i].kind, rows[i].ns)]), reqID, rows, sets);
    } else {
      assert Built(CheckRow(reqID, i), reqID, rows, sets);
    }
  }

  lemma BuiltHasWork(c: Check, reqID: nat, rows: seq<Row>, sets: map<(string, string), set<string>>, keys: seq<(string, string)>)
    requires Grouped(rows, |rows|, sets, keys) && Built(c, reqID, rows, sets)
    ensures c.reqID == reqID && ServesSome(c, rows) && AsksForAll(c, rows)
  {
    if c.CheckRow? {
      assert Serves(c, rows[c.index], c.index);
    } else {
      var i: nat :| i < |rows| && PrefixServed(rows[i]) && (rows[i].kind, rows[i].ns) == (c.kind, c.ns);
      assert Serves(c, rows[i], i);
      forall name ensures name in c.prefixes <==> exists i: nat :: i < |rows| && Serves(c, rows[i], i) && rows[i].name == name {
        if name in c.prefixes {
          assert GivenBy(rows, |rows|, (c.kind, c.ns), name);
          var j: nat :| j < |rows| && PrefixServed(rows[j]) && (rows[j].kind, rows[j].ns) == (c.kind, c.ns) && rows[j].name == name;
          assert Serves(c, rows[j], j);
        }
      }
    }
  }

  lemma ChecksShareOut(reqID: nat, rows: seq<Row>, sets: map<(string, string), set<string>>,
                       keys: seq<(string, string)>, checks: seq<Check>)
    requires forall i | 0 <= i < |rows| :: rows[i].state == Unchecked
    requires Grouped(rows, |rows|, sets, keys)
    requires forall c :: c in checks <==> Built(c, reqID, rows, sets)
    ensures ShareOut(rows, Elements(checks))
    ensures forall c | c in checks :: c.reqID == reqID && AsksForAll(c, rows)
  {
    hide Built, Serves, ServesSome, AsksForAll, Owner, PrefixServed, Grouped;
    forall i: nat | i < |rows| ensures exists c :: c in Elements(checks) && Serves(c, rows[i], i) {
      assert PrefixServed(rows[i]) ==> (rows[i].kind, rows[i].ns) in sets by { Groups(rows, sets, keys, i); }
      OnlyOwnerServes(CheckRow(0, 0), reqID, rows, sets, keys, i);
    }
    forall c, d, i: nat | c in checks && d in checks && i < |rows| && Serves(c, rows[i], i) && Serves(d, rows[i], i)
      ensures c == d
    {
      OnlyOwnerServes(c, reqID, rows, sets, keys, i);
      OnlyOwnerServes(d, reqID, rows, sets, keys, i);
    }
    forall c | c in checks ensures c.reqID == reqID && ServesSome(c, rows) && AsksForAll(c, rows) {
      BuiltHasWork(c, reqID, rows, sets, keys);
    }
  }

  lemma Groups(rows: seq<Row>, sets: map<(string, string), set<string>>, keys: seq<(string, string)>, i: nat)
    requires Grouped(rows, |rows|, sets, keys) && i < |rows|
    ensures PrefixServed(rows[i]) ==> (rows[i].kind, rows[i].ns) in sets
  {
  }

  // ---------------------------------------------------------------- one reply

  /** What a reply says of a row: nothing known, or a resource found, under some name, or not. */
  datatype Verdict = NoAnswer | NoSuch | Matches(name: string)

  function Judged(r: Row, v: Verdict): Row {
    match v
    case NoAnswer => r.(state := CheckFailed, matched := "")
    case NoSuch => r.(state := NotFound, matched := "")
    case Matches(name) => r.(state := Found, matched := name)
  }

  function PrefixVerdict(r: Row, matches: Option<map<string, string>>): Verdict {
    if matches.None? then NoAnswer
    else if r.name in matches.value then Matches(matches.value[r.name])
    else NoSuch
  }

  /** The row is still about the same resource. */
  predicate SameRow(before: Row, after: Row) { after == before.(state := after.state, matched := after.matched) }

  /** The row is found exactly when the answer names a match, not found exactly when it names
      none, and failed exactly when there was no answer. */
  predicate Answers(before: Row, after: Row, v: Verdict) {
    && SameRow(before, after)
    && (after.state == Found <==> v.Matches?) && (after.state == NotFound <==> v.NoSuch?)
    && (after.state == CheckFailed <==> v.NoAnswer?)
    && after.matched == if v.Matches? then v.name else ""
  }

  /** The row is found exactly when its name has a match, which is then its own; not found
      exactly when the answer has none for it; and failed exactly when there was no answer. */
  predicate AnswersPrefix(before: Row, after: Row, matches: Option<map<string, string>>) {
    && SameRow(before, after)
    && (after.state == Found <==> matches.Some? && before.name in matches.value)
    && (after.state == NotFound <==> matches.Some? && before.name !in matches.value)
    && (after.state == CheckFailed <==> matches.None?)
    && after.matched == if matches.Some? && before.name in matches.value then matches.value[before.name] else ""
  }

  /** `after` is `before` with every row that `c` serves judged, and no other touched. */
  ghost predicate Resolves(c: Check, before: seq<Row>, after: seq<Row>) {
    && |after| == |before|
    && forall i: nat | i < |before| ::
         if Serves(c, before[i], i) then SameRow(before[i], after[i]) && after[i].state != Unchecked else after[i] == before[i]
  }

  /** Once a check has been answered the others still share out what is left. */
  lemma ResolvedSharesOut(c: Check, before: seq<Row>, after: seq<Row>, checks: set<Check>)
    requires ShareOut(before, checks) && c in checks && Resolves(c, before, after)
    ensures ShareOut(after, checks - {c})
  {
    assert forall d, i: nat | i < |before| :: Serves(d, after[i], i) <==> Serves(d, before[i], i);
    hide Serves;
    forall d | d in checks - {c} ensures ServesSome(d, after) {
      var i: nat :| i < |before| && Serves(d, before[i], i);
      assert Serves(d, after[i], i);
    }
  }

  // ---------------------------------------------------------------- the screen

  function ServedCount(c: Check, rows: seq<Row>): nat {
    if rows == [] then 0
    else
      var last := |rows| - 1;
      ServedCount(c, rows[..last]) + (if Serves(c, rows[last], last) then 1 else 0)
  }

  /** The commands taken off a queue, and those left on it. */
  function Take(queue: seq<Check>, n: nat): seq<Check> { if n <= |queue| then queue[..n] else queue }

  function Drop(queue: seq<Check>, n: nat): seq<Check> { if n <= |queue| then queue[n..] else [] }

  class SuggestionScreen {
    const ids: RequestIds
    const loader: Loader
    const checkCluster: bool
    var rows: seq<Row>
    var pendingChecks: int
    var queuedChecks: seq<Check>
    var scanned: bool
    var failed: bool

    ghost predicate Valid()
      reads this, loader, ids
    {
      loader.ids == ids && loader.Valid()
    }

    constructor (ids: RequestIds, checkCluster: bool)
      ensures Valid() && fresh(loader) && this.ids == ids && this.checkCluster == checkCluster
      ensures !loader.pending && !scanned && !failed && rows == [] && queuedChecks == [] && pendingChecks == 0
    {
      this.ids, this.checkCluster := ids, checkCluster;
      loader := new Loader(ids);
      rows, pendingChecks, queuedChecks, scanned, failed := [], 0, [], false, false;
    }

    method Scan() returns (reqID: nat)
      requires Valid()
      modifies this, loader, ids
      ensures Valid() && loader.pending && loader.reqID == reqID == ids.last == old(ids.last) + 1
      ensures rows == [] && pendingChecks == 0 && queuedChecks == [] && !scanned && !failed
    {
      reqID := loader.Start();
      rows, pendingChecks, queuedChecks := [], 0, [];
      scanned, failed := false, false;
    }

    method TakeChecks(n: nat) returns (taken: seq<Check>)
      modifies this`queuedChecks
      ensures taken == Take(old(queuedChecks), n) && queuedChecks == Drop(old(queuedChecks), n)
      ensures taken + queuedChecks == old(queuedChecks) && |taken| == if n <= |old(queuedChecks)| then n else |old(queuedChecks)|
    {
      var m := if n > |queuedChecks| then |queuedChecks| else n;
      taken := queuedChecks[..m];
      queuedChecks := queuedChecks[m..];
    }

    /** The rows of a finished scan; queues a check for each and starts the first eight. */
    method ScanDone(reqID: nat, result: Option<seq<Row>>) returns (started: seq<Check>)
      requires Valid()
      requires result.Some? ==> forall i | 0 <= i < |result.value| :: result.value[i].state == Unchecked
      modifies this, loader, ids
      ensures Valid()
      ensures old(reqID != loader.reqID || !loader.pending) ==>
                && started == [] && rows == old(rows) && queuedChecks == old(queuedChecks) && pendingChecks == old(pendingChecks)
                && scanned == old(scanned) && failed == old(failed)
                && loader.reqID == old(loader.reqID) && loader.pending == old(loader.pending) && ids.last == old(ids.last)
      ensures old(reqID == loader.reqID && loader.pending) ==>
                && scanned && failed == result.None?
                && (if result.None? || result.value == [] || !checkCluster then
                      && started == [] && !loader.pending && loader.reqID == reqID && ids.last == old(ids.last)
                      && queuedChecks == old(queuedChecks) && pendingChecks == old(pendingChecks)
                      && (result.Some? ==> rows == result.value)
                    else
                      && loader.pending && loader.reqID == ids.last == old(ids.last) + 1
                      && rows == result.value && pendingChecks == |rows|
                      && Distinct(started + queuedChecks) && ShareOut(rows, Elements(started + queuedChecks))
                      && |started| <= MAX_CHECKS && (queuedChecks != [] ==> |started| == MAX_CHECKS)
                      && (forall c | c in started + queuedChecks :: c.reqID == loader.reqID && AsksForAll(c, rows))
                      && forall i: nat | i < |rows| :: CheckedItsWay(loader.reqID, rows, started + queuedChecks, i))
    {
      hide Distinct, ShareOut, AsksForAll, CheckedItsWay;
      started := [];
      var ok := loader.Finish(reqID);
      if !ok { return; }
      scanned, failed := true, result.None?;
      if result.None? { return; }
      rows := result.value;
      if !checkCluster || |rows| == 0 { return; }
      var checking := loader.Start();
      pendingChecks := |rows|;
      queuedChecks := BuildChecks(checking, rows);
      ghost var all := queuedChecks;
      started := TakeChecks(MAX_CHECKS);
      assert started + queuedChecks == all;
    }

    /** The reply to the check of one row. */
    method SuggestionChecked(reqID: nat, index: int, v: Verdict) returns (started: seq<Check>)
      requires Valid()
      modifies this, loader
      ensures Valid() && scanned == old(scanned) && failed == old(failed) && loader.reqID == old(loader.reqID)
      ensures old(reqID != loader.reqID || !loader.pending || !(0 <= index < |rows|)) ==>
                && started == [] && rows == old(rows) && queuedChecks == old(queuedChecks) && pendingChecks == old(pendingChecks)
                && loader.pending == old(loader.pending)
      ensures old(reqID == loader.reqID && loader.pending && 0 <= index < |rows|) ==>
                && |rows| == |old(rows)| && rows == old(rows)[index := rows[index]] && Answers(old(rows)[index], rows[index], v)
                && pendingChecks == old(pendingChecks) - 1 && loader.pending == (pendingChecks != 0)
                && started == Take(old(queuedChecks), 1) && queuedChecks == Drop(old(queuedChecks), 1)
    {
      if reqID != loader.reqID || !loader.pending || index < 0 || index >= |rows| { return []; }
      rows := rows[index := Judged(rows[index], v)];
      pendingChecks := pendingChecks - 1;
      if pendingChecks == 0 { var _ := loader.Finish(reqID); }
      started := TakeChecks(1);
    }

    /** The reply to a check by prefix: judges every row of the kind and namespace. */
    method PrefixMatched(c: Check, matches: Option<map<string, string>>) returns (started: seq<Check>)
      requires Valid() && c.MatchPrefixes?
      modifies this, loader
      ensures Valid() && scanned == old(scanned) && failed == old(failed) && loader.reqID == old(loader.reqID)
      ensures old(c.reqID != loader.reqID || !loader.pending) ==>
                && started == [] && rows == old(rows) && queuedChecks == old(queuedChecks) && pendingChecks == old(pendingChecks)
                && loader.pending == old(loader.pending)
      ensures old(c.reqID == loader.reqID && loader.pending) ==>
                && |rows| == |old(rows)|
                && (forall i: nat | i < |rows| ::
                      if Serves(c, old(rows)[i], i) then AnswersPrefix(old(rows)[i], rows[i], matches) else rows[i] == old(rows)[i])
                && pendingChecks == old(pendingChecks) - ServedCount(c, old(rows)) && loader.pending == (pendingChecks != 0)
                && started == Take(old(queuedChecks), 1) && queuedChecks == Drop(old(queuedChecks), 1)
    {
      if c.reqID != loader.reqID || !loader.pending { return []; }
      for i := 0 to |rows|
        modifies this`rows, this`pendingChecks
        invariant |rows| == |old(rows)|
        invariant forall j: nat | j < |rows| ::
            if j < i && Serves(c, old(rows)[j], j) then AnswersPrefix(old(rows)[j], rows[j], matches) else rows[j] == old(rows)[j]
        invariant pendingChecks == old(pendingChecks) - ServedCount(c, old(rows)[..i])
      {
        assert old(rows)[..i + 1][..i] == old(rows)[..i];
        var row := rows[i];
        if !PrefixServed(row) || row.kind != c.kind || row.ns != c.ns { continue; }
        rows := rows[i := Judged(row, PrefixVerdict(row, matches))];
        pendingChecks := pendingChecks - 1;
      }
      assert old(rows)[..|old(rows)|] == old(rows);
      if pendingChecks == 0 { var _ := loader.Finish(c.reqID); }
      started := TakeChecks(1);
    }

    method Stop()
      requires Valid()
      modifies loader
      ensures Valid() && !loader.pending && loader.reqID == old(loader.reqID)
    {
      var _ := loader.Stop();
    }
  }

  // ---------------------------------------------------------------- whole scans

  /** How a scan stands: the queue and the commands at work share out the unchecked rows, at
      most eight are at work, and none waits while fewer are. */
  ghost predicate Dispatching(rows: seq<Row>, queue: seq<Check>, flying: set<Check>, pendingChecks: int) {
    && Distinct(queue) && Elements(queue) !! flying
    && ShareOut(rows, Elements(queue) + flying)
    && pendingChecks == UncheckedCount(rows)
    && |flying| <= MAX_CHECKS && (queue != [] ==> |flying| == MAX_CHECKS)
  }

  lemma {:induction false} JudgedCount(c: Check, before: seq<Row>, after: seq<Row>)
    requires |after| == |before|
    requires forall i: nat | i < |before| && Serves(c, before[i], i) :: before[i].state == Unchecked && after[i].state != Unchecked
    requires forall i: nat | i < |before| && !Serves(c, before[i], i) :: after[i].state == before[i].state
    ensures UncheckedCount(after) == UncheckedCount(before) - ServedCount(c, before)
  {
    hide Serves;
    if before != [] { JudgedCount(c, before[..|before| - 1], after[..|after| - 1]); }
  }

  /** When nothing is left to count, nothing is queued or at work. */
  lemma NothingLeft(rows: seq<Row>, checks: set<Check>)
    requires ShareOut(rows, checks)
    ensures UncheckedCount(rows) == 0 <==> checks == {}
  {
    CountedMeans(rows);
    if checks != {} {
      var c :| c in checks;
      var i: nat :| i < |rows| && Serves(c, rows[i], i);
    }
  }

  /** As long as a row is unchecked some command is at work, so the queue is never stranded. */
  lemma SomeAtWork(rows: seq<Row>, queue: seq<Check>, flying: set<Check>, pendingChecks: int)
    requires Dispatching(rows, queue, flying, pendingChecks) && pendingChecks > 0
    ensures 0 < |flying| <= MAX_CHECKS && pendingChecks == UncheckedCount(rows)
  {
    hide ShareOut;
    NothingLeft(rows, Elements(queue) + flying);
    if queue == [] { assert Elements(queue) + flying == flying; }
  }

  lemma InFlightCount(flying: set<Check>, c: Check, started: seq<Check>)
    requires c in flying && |started| <= 1 && Elements(started) !! flying
    ensures |flying - {c} + Elements(started)| == |flying| - 1 + |started|
  {
    assert started == [] || Elements(started) == {started[0]};
  }

  lemma ServedUnchecked(rows: seq<Row>, checks: set<Check>, c: Check)
    requires ShareOut(rows, checks) && c in checks
    ensures forall i: nat | i < |rows| && Serves(c, rows[i], i) :: rows[i].state == Unchecked
  {
  }

  lemma JudgedChecked(c: Check, before: seq<Row>, after: seq<Row>)
    requires Resolves(c, before, after)
    ensures |after| == |before|
    ensures forall i: nat | i < |before| :: if Serves(c, before[i], i) then after[i].state != Unchecked else after[i] == before[i]
  {
  }

  /** A reply frees one place, which the next command in the queue takes. */
  lemma ReplyKeepsDispatching(before: seq<Row>, after: seq<Row>, queue: seq<Check>, flying: set<Check>, pendingChecks: int, c: Check)
    requires Dispatching(before, queue, flying, pendingChecks) && c in flying && Resolves(c, before, after)
    ensures Dispatching(after, Drop(queue, 1), flying - {c} + Elements(Take(queue, 1)), pendingChecks - ServedCount(c, before))
    ensures |after| == |before|
    ensures forall i: nat | i < |before| && Serves(c, before[i], i) :: before[i].state == Unchecked && after[i].state != Unchecked
  {
    hide Serves, Resolves, ShareOut, Elements, Distinct;
    var started, rest := Take(queue, 1), Drop(queue, 1);
    ServedUnchecked(before, Elements(queue) + flying, c);
    JudgedChecked(c, before, after);
    JudgedCount(c, before, after);
    ResolvedSharesOut(c, before, after, Elements(queue) + flying);
    Requeue(queue, flying, c);
    InFlightCount(flying, c, started);
  }

  /** What the reply to a command still at work comes to. */
  lemma ReplyOutcome(before: seq<Row>, after: seq<Row>, queue: seq<Check>, flying: set<Check>, pendingChecks: int, c: Check)
    requires Dispatching(before, queue, flying, pendingChecks) && c in flying && Resolves(c, before, after)
    ensures var rest, now, left := Drop(queue, 1), flying - {c} + Elements(Take(queue, 1)), pendingChecks - ServedCount(c, before);
            && Dispatching(after, rest, now, left) && left >= 0
            && (left == 0 ==> rest == [] && now == {} && forall i | 0 <= i < |after| :: after[i].state != Unchecked)
  {
    hide Resolves, Dispatching, Elements, Take, Drop, ServedCount;
    ReplyKeepsDispatching(before, after, queue, flying, pendingChecks, c);
    DispatchEnds(after, Drop(queue, 1), flying - {c} + Elements(Take(queue, 1)), pendingChecks - ServedCount(c, before));
  }

  /** The counter reaches 0 exactly when nothing waits, nothing is at work and no row is
      unchecked. */
  lemma DispatchEnds(rows: seq<Row>, queue: seq<Check>, flying: set<Check>, pendingChecks: int)
    requires Dispatching(rows, queue, flying, pendingChecks)
    ensures pendingChecks >= 0
    ensures pendingChecks == 0 <==> queue == [] && flying == {}
    ensures pendingChecks == 0 ==> forall i | 0 <= i < |rows| :: rows[i].state != Unchecked
  {
    hide ShareOut, Distinct;
    NothingLeft(rows, Elements(queue) + flying);
    CountedMeans(rows);
    if queue != [] { assert queue[0] in Elements(queue); }
  }

  lemma Requeue(queue: seq<Check>, flying: set<Check>, c: Check)
    requires Distinct(queue) && Elements(queue) !! flying && c in flying
    ensures Distinct(Drop(queue, 1)) && Elements(Take(queue, 1)) !! flying
    ensures Elements(Drop(queue, 1)) !! flying - {c} + Elements(Take(queue, 1))
    ensures Elements(Drop(queue, 1)) + (flying - {c} + Elements(Take(queue, 1))) == Elements(queue) + flying - {c}
  {
    if queue != [] { assert queue == [queue[0]] + queue[1..]; }
  }

  function Belonging(checks: set<Check>, reqID: nat): set<Check> { set c | c in checks && c.reqID == reqID }

  class ScanRun {
    const ids: RequestIds
    const screen: SuggestionScreen
    var scans: set<nat>
    var inFlight: set<Check>
    ghost var stopped: bool

    ghost function Flying(): set<Check>
      reads this`inFlight, screen.loader
    {
      Belonging(inFlight, screen.loader.reqID)
    }

    /** Ids tell the scans and the commands of one scan from those of every other. */
    ghost predicate Apart()
      reads this, screen, screen.loader, ids
    {
      && (forall c | c in inFlight :: c.reqID <= ids.last && c.reqID !in scans)
      && (forall id | id in scans :: id <= ids.last)
      && (forall c | c in screen.queuedChecks :: c.reqID == screen.loader.reqID)
      && (screen.scanned ==> screen.loader.reqID !in scans)
    }

    /** While checks run they are shared out; a scan that was not stopped ends with nothing
        queued, nothing at work and no row unchecked. */
    ghost predicate Checking()
      reads this, screen, screen.loader
    {
      && (!screen.scanned ==> Flying() == {} && screen.queuedChecks == [])
      && (screen.scanned && screen.loader.pending ==>
            Dispatching(screen.rows, screen.queuedChecks, Flying(), screen.pendingChecks) && screen.pendingChecks > 0)
      && (screen.scanned && !screen.loader.pending && !screen.failed && !stopped ==>
            screen.queuedChecks == [] && Flying() == {}
            && (screen.checkCluster ==> forall i | 0 <= i < |screen.rows| :: screen.rows[i].state != Unchecked))
    }

    ghost predicate Valid()
      reads this, screen, screen.loader, ids
    {
      screen.ids == ids && screen.Valid() && Apart() && Checking()
    }

    constructor (ids: RequestIds, checkCluster: bool)
      ensures Valid() && this.ids == ids && fresh(screen) && fresh(screen.loader)
      ensures scans == {} && inFlight == {} && !stopped && screen.checkCluster == checkCluster
    {
      this.ids := ids;
      screen := new SuggestionScreen(ids, checkCluster);
      scans, inFlight, stopped := {}, {}, false;
    }

    method Scan()
      requires Valid()
      modifies this, screen, screen.loader, ids
      ensures Valid() && screen.loader.pending && !stopped
      ensures scans == old(scans) + {screen.loader.reqID} && inFlight == old(inFlight)
    {
      hide Dispatching;
      var id := screen.Scan();
      scans, stopped := scans + {id}, false;
    }

    /** A scan of the project ends, the latest one or one that was replaced. */
    method ScanEnds(id: nat, result: Option<seq<Row>>)
      requires Valid() && id in scans
      requires result.Some? ==> forall i | 0 <= i < |result.value| :: result.value[i].state == Unchecked
      modifies this, screen, screen.loader, ids
      ensures Valid() && scans == old(scans) - {id} && stopped == old(stopped)
    {
      hide ShareOut, AsksForAll, Dispatching, Distinct;
      ghost var current := id == screen.loader.reqID && screen.loader.pending;
      scans := scans - {id};
      var started := screen.ScanDone(id, result);
      ghost var before := inFlight;
      inFlight := inFlight + Elements(started);
      if current && screen.loader.pending {
        StartedDispatching(screen.rows, started, screen.queuedChecks);
        assert Flying() == Elements(started);
      } else {
        assert inFlight == before;
      }
    }

    predicate Current(c: Check)
      reads screen.loader
    {
      c.reqID == screen.loader.reqID && screen.loader.pending
    }

    /** A reply that came too late changes nothing. */
    method LateReply(c: Check, v: Verdict, matches: Option<map<string, string>>)
      requires Valid() && c in inFlight && !Current(c)
      modifies this, screen, screen.loader
      ensures Valid() && screen.rows == old(screen.rows) && screen.pendingChecks == old(screen.pendingChecks)
      ensures inFlight == old(inFlight) - {c} && scans == old(scans) && stopped == old(stopped)
    {
      hide Dispatching;
      inFlight := inFlight - {c};
      assert c.reqID != screen.loader.reqID ==> Flying() == old(Flying());
      match c {
        case CheckRow(reqID, index) => var _ := screen.SuggestionChecked(reqID, index, v);
        case MatchPrefixes(_, _, _, _) => var _ := screen.PrefixMatched(c, matches);
      }
    }

    /** The reply to a command at work judges the rows it serves as it answers, none of which
        was judged before, and touches no other. */
    method Reply(c: Check, v: Verdict, matches: Option<map<string, string>>)
      requires Valid() && c in inFlight && Current(c)
      modifies this, screen, screen.loader
      ensures Valid() && Resolves(c, old(screen.rows), screen.rows)
      ensures inFlight == old(inFlight) - {c} + Elements(Take(old(screen.queuedChecks), 1))
      ensures scans == old(scans) && stopped == old(stopped)
      ensures forall i: nat | i < |screen.rows| && Serves(c, old(screen.rows)[i], i) ::
                && old(screen.rows)[i].state == Unchecked
                && if c.CheckRow? then Answers(old(screen.rows)[i], screen.rows[i], v)
                   else AnswersPrefix(old(screen.rows)[i], screen.rows[i], matches)
    {
      hide ShareOut, Dispatching, Distinct, ServedCount;
      ghost var before, queue, flying, pendingChecks := screen.rows, screen.queuedChecks, Flying(), screen.pendingChecks;
      assert c in flying && screen.scanned;
      OneRowServed(before, queue, flying, pendingChecks, c);
      inFlight := inFlight - {c};
      var started: seq<Check>;
      match c {
        case CheckRow(reqID, index) => started := screen.SuggestionChecked(reqID, index, v);
        case MatchPrefixes(_, _, _, _) => started := screen.PrefixMatched(c, matches);
      }
      inFlight := inFlight + Elements(started);
      assert Flying() == flying - {c} + Elements(started);
      assert Resolves(c, before, screen.rows);
      hide Resolves;
      ReplyOutcome(before, screen.rows, queue, flying, pendingChecks, c);
      ReplyKeepsDispatching(before, screen.rows, queue, flying, pendingChecks, c);
    }

    /** Any run at all: while checks run some are at work, at most eight, and the counter is
        the number of unchecked rows. */
    method Run(results: seq<Option<seq<Row>>>)
      requires Valid()
      requires forall k, i | 0 <= k < |results| && results[k].Some? && 0 <= i < |results[k].value| ::
                 results[k].value[i].state == Unchecked
      modifies this, screen, screen.loader, ids
      ensures Valid()
      ensures screen.scanned && screen.loader.pending ==>
                0 < |Flying()| <= MAX_CHECKS && screen.pendingChecks == UncheckedCount(screen.rows)
      ensures screen.scanned && !screen.loader.pending && !screen.failed && !stopped && screen.checkCluster ==>
                screen.queuedChecks == [] && forall i | 0 <= i < |screen.rows| :: screen.rows[i].state != Unchecked
    {
      hide Apart, Checking, Current, Resolves, Serves;
      var steps: nat :| true;
      for n := 0 to steps
        invariant Valid()
      {
        if
        case scans != {} && results != [] =>
          var id :| id in scans;
          var k: nat :| k < |results|;
          ScanEnds(id, results[k]);
        case inFlight != {} =>
          var c :| c in inFlight;
          var v: Verdict := *;
          var matches: Option<map<string, string>> := *;
          if Current(c) { Reply(c, v, matches); } else { LateReply(c, v, matches); }
        case true => Scan();
        case true => Stop();
      }
      AtRest();
    }

    lemma AtRest()
      requires Valid()
      ensures screen.scanned && screen.loader.pending ==>
                0 < |Flying()| <= MAX_CHECKS && screen.pendingChecks == UncheckedCount(screen.rows)
      ensures screen.scanned && !screen.loader.pending && !screen.failed && !stopped && screen.checkCluster ==>
                screen.queuedChecks == [] && forall i | 0 <= i < |screen.rows| :: screen.rows[i].state != Unchecked
    {
      hide Apart, Dispatching;
      if screen.scanned && screen.loader.pending {
        SomeAtWork(screen.rows, screen.queuedChecks, Flying(), screen.pendingChecks);
      }
    }

    method Stop()
      requires Valid()
      modifies this, screen.loader
      ensures Valid() && !screen.loader.pending && (stopped <==> old(stopped) || old(screen.loader.pending))
      ensures scans == old(scans) && inFlight == old(inFlight)
    {
      hide Dispatching;
      stopped := stopped || screen.loader.pending;
      screen.Stop();
    }
  }

  lemma StartedDispatching(rows: seq<Row>, started: seq<Check>, queue: seq<Check>)
    requires rows != [] && forall i | 0 <= i < |rows| :: rows[i].state == Unchecked
    requires Distinct(started + queue) && ShareOut(rows, Elements(started + queue))
    requires |started| <= MAX_CHECKS && (queue != [] ==> |started| == MAX_CHECKS)
    ensures Dispatching(rows, queue, Elements(started), |rows|)
  {
    hide ShareOut, Distinct, Elements;
    StartedApart(started, queue);
    CountedMeans(rows);
  }

  lemma StartedApart(started: seq<Check>, queue: seq<Check>)
    requires Distinct(started + queue)
    ensures Distinct(queue) && Elements(queue) !! Elements(started)
    ensures Elements(queue) + Elements(started) == Elements(started + queue)
    ensures |Elements(started)| == |started|
  {
    forall k, l | 0 <= k < l < |queue| ensures queue[k] != queue[l] {
      assert (started + queue)[|started| + k] != (started + queue)[|started| + l];
    }
    forall k, l | 0 <= k < |started| && 0 <= l < |queue| ensures started[k] != queue[l] {
      assert (started + queue)[k] != (started + queue)[|started| + l];
    }
    forall k, l | 0 <= k < l < |started| ensures started[k] != started[l] {
      assert (started + queue)[k] != (started + queue)[l];
    }
    DistinctCount(started);
  }

  lemma {:induction false} DistinctCount(s: seq<Check>)
    requires Distinct(s)
    ensures |Elements(s)| == |s|
  {
    if s != [] {
      var init, last := s[..|s| - 1], s[|s| - 1];
      DistinctCount(init);
      assert s == init + [last];
      assert Elements(s) == Elements(init) + {last};
    }
  }

  lemma OneRowServed(rows: seq<Row>, queue: seq<Check>, flying: set<Check>, pendingChecks: int, c: Check)
    requires Dispatching(rows, queue, flying, pendingChecks) && c in flying
    ensures c.CheckRow? ==> c.index < |rows| && ServedCount(c, rows) == 1
  {
    if c.MatchPrefixes? { return; }
    assert c in Elements(queue) + flying;
    var i: nat :| i < |rows| && Serves(c, rows[i], i);
    ServedOnce(c, rows);
  }

  lemma {:induction false} ServedOnce(c: Check, rows: seq<Row>)
    requires c.CheckRow?
    ensures ServedCount(c, rows) == if c.index < |rows| then 1 else 0
  {
    if rows != [] { ServedOnce(c, rows[..|rows| - 1]); }
  }
}
