/** Guarded writes over an unreliable network. */
module Save {
  import opened Values
  import opened Resources
  import opened Cluster

  datatype SaveResult = Succeeded | Conflict(cluster: Resource) | Forbidden | Failed

  datatype DryRunResult = Accepts | Rejects | Unsupported | DryRunConflict(current: Resource) | DryRunFailed

  const MAX_ATTEMPTS := 3

  /** Everything `added` to the network by one save: at most three copies of one request. */
  ghost predicate OnlyRepeats(before: seq<Request>, after: seq<Request>, request: Request, limit: nat) {
    && before <= after && |after| <= |before| + limit
    && forall i | |before| <= i < |after| :: after[i] == request
  }

  /** The object the server shows is one it held during the call, of another version. */
  ghost predicate ShowsOtherVersion(initial: State, log: seq<Commit>, from: nat, shown: Resource, version: nat)
    reads shown
  {
    && shown.Valid() && shown.version != version
    && SeenBetween(initial, log, from, Present(shown.version, shown.View()))
  }

  /** What a result promises of the history since `from`: success that the object held the
      submitted values, a conflict that it was seen under another version. */
  ghost predicate Truthful(initial: State, log: seq<Commit>, from: nat, result: SaveResult, res: Resource)
    reads res, if result.Conflict? then {result.cluster} else {}
  {
    && (result.Succeeded? ==> HeldBetween(initial, log, from, res.View()))
    && (result.Conflict? ==> ShowsOtherVersion(initial, log, from, result.cluster, res.version))
  }

  // ---------------------------------------------------------------- what a result follows from

  /** A result without its objects. */
  datatype Verdict = Landed | Moved(version: nat, view: View) | Denied | Unknown

  function VerdictOf(result: SaveResult): Verdict
    reads if result.Conflict? then {result.cluster} else {}
  {
    match result
    case Succeeded => Landed
    case Conflict(cluster) => Moved(cluster.version, cluster.View())
    case Forbidden => Denied
    case Failed => Unknown
  }

  /** What reading the object back after an ambiguous reply settles: nothing when it still has
      the submitted version and other values. */
  function AfterReread(event: Event, version: nat, view: View): Option<Verdict> {
    if !event.Shown? || event.state.Absent? then Some(Unknown)
    else if event.state.view == view then Some(Landed)
    else if event.state.version != version then Some(Moved(event.state.version, event.state.view))
    else None
  }

  function AfterConflict(event: Event): Verdict {
    if event.Shown? && event.state.Present? then Moved(event.state.version, event.state.view) else Unknown
  }

  /** `events` are what one attempt saw, and `verdict` is what they settle. */
  ghost predicate AttemptOf(events: seq<Event>, version: nat, view: View, verdict: Option<Verdict>) {
    events != [] && events[0].Answered? &&
    match events[0].reply
    case Accepted => |events| == 1 && verdict == Some(Landed)
    case Refused => |events| == 1 && verdict == Some(Denied)
    case NeverSent => |events| == 1 && verdict == None
    case Conflicted => |events| == 2 && verdict == Some(AfterConflict(events[1]))
    case Ambiguous => |events| == 2 && verdict == AfterReread(events[1], version, view)
    case _ => |events| == 1 && verdict == Some(Unknown)
  }

  /** `m` attempts that settled nothing, each followed by an undisturbed wait. */
  ghost predicate Open(events: seq<Event>, version: nat, view: View, m: nat)
    decreases m
  {
    if m == 0 then events == []
    else exists k: nat, n: nat :: k <= n < |events| && Open(events[..k], version, view, m - 1)
           && AttemptOf(events[k..n], version, view, None) && events[n..] == [Waited(false)]
  }

  /** A save ends with the first attempt that settles something; without a verdict after the
      last attempt allowed, or when it is cancelled while it waits. */
  ghost predicate FollowsFrom(events: seq<Event>, version: nat, view: View, verdict: Verdict) {
    exists k: nat, m: nat, n: nat :: k <= n <= |events| && m < MAX_ATTEMPTS && Open(events[..k], version, view, m) &&
      ( || (n == |events| && AttemptOf(events[k..n], version, view, Some(verdict)))
        || (n == |events| && AttemptOf(events[k..n], version, view, None) && m == MAX_ATTEMPTS - 1 && verdict == Unknown)
        || (events[n..] == [Waited(true)] && AttemptOf(events[k..n], version, view, None) && m < MAX_ATTEMPTS - 1 && verdict == Unknown))
  }

  /** A create ends with its one answer, or with the one reread an ambiguous answer calls for. */
  ghost predicate CreateFollowsFrom(events: seq<Event>, view: View, verdict: Verdict) {
    events != [] && events[0].Answered? &&
    match events[0].reply
    case Accepted => |events| == 1 && verdict == Landed
    case Refused => |events| == 1 && verdict == Denied
    case Ambiguous =>
      |events| == 2 && verdict == if events[1].Shown? && events[1].state.Present? && events[1].state.view == view then Landed else Unknown
    case _ => |events| == 1 && verdict == Unknown
  }

  /** A dry run's result without its object. */
  datatype DryVerdict = Fits | Outdated(version: nat, view: View) | TurnedDown | CannotTell | NoAnswer

  function DryVerdictOf(result: DryRunResult): DryVerdict
    reads if result.DryRunConflict? then {result.current} else {}
  {
    match result
    case Accepts => Fits
    case DryRunConflict(current) => Outdated(current.version, current.View())
    case Rejects => TurnedDown
    case Unsupported => CannotTell
    case DryRunFailed => NoAnswer
  }

  /** A dry run ends with its one answer; after a rejected version, with the one reread that
      shows what the object has become. */
  ghost predicate DryRunFollowsFrom(events: seq<Event>, verdict: DryVerdict) {
    events != [] && events[0].Checked? &&
    match events[0].check
    case Passed => |events| == 1 && verdict == Fits
    case Stale =>
      |events| == 2 && verdict == if events[1].Shown? && events[1].state.Present?
                                  then Outdated(events[1].state.version, events[1].state.view) else NoAnswer
    case NoDryRuns => |events| == 1 && verdict == CannotTell
    case Lost => |events| == 1 && verdict == NoAnswer
    case _ => |events| == 1 && verdict == TurnedDown
  }

  /** A dry run of a create never looks at what is there: that something is turns it down. */
  ghost predicate DryCreateFollowsFrom(events: seq<Event>, verdict: DryVerdict) {
    |events| == 1 && events[0].Checked? &&
    verdict == match events[0].check
               case Passed => Fits
               case NoDryRuns => CannotTell
               case Lost => NoAnswer
               case _ => TurnedDown
  }

  /** Exactly one event was added. */
  predicate Last(before: seq<Event>, now: seq<Event>) { before <= now && |now| == |before| + 1 }

  /** What the client was told after `before`. */
  function Since(before: seq<Event>, now: seq<Event>): seq<Event>
    requires before <= now
  {
    now[|before|..]
  }

  lemma NothingSince(trace: seq<Event>, version: nat, view: View)
    ensures Open(Since(trace, trace), version, view, 0)
  {
  }

  lemma StaysOpen(start: seq<Event>, before: seq<Event>, tried: seq<Event>, version: nat, view: View, m: nat)
    requires start <= before <= tried && Open(Since(start, before), version, view, m)
    requires AttemptOf(Since(before, tried), version, view, None)
    ensures start <= tried + [Waited(false)] && Open(Since(start, tried + [Waited(false)]), version, view, m + 1)
  {
    hide AttemptOf;
    var all, k, n := Since(start, tried + [Waited(false)]), |before| - |start|, |tried| - |start|;
    assert all[..k] == Since(start, before) && all[k..n] == Since(before, tried) && all[n..] == [Waited(false)];
  }

  lemma EndsHere(start: seq<Event>, before: seq<Event>, tried: seq<Event>, version: nat, view: View, m: nat,
                 v: Option<Verdict>, verdict: Verdict)
    requires start <= before <= tried && Open(Since(start, before), version, view, m) && m < MAX_ATTEMPTS
    requires AttemptOf(Since(before, tried), version, view, v)
    requires v == Some(verdict) || (v == None && verdict == Unknown && m == MAX_ATTEMPTS - 1)
    ensures FollowsFrom(Since(start, tried), version, view, verdict)
  {
    hide AttemptOf, Open;
    var all, k, n := Since(start, tried), |before| - |start|, |tried| - |start|;
    assert all[..k] == Since(start, before) && all[k..n] == Since(before, tried) && n == |all|;
  }

  lemma EndsWaiting(start: seq<Event>, before: seq<Event>, tried: seq<Event>, version: nat, view: View, m: nat)
    requires start <= before <= tried && Open(Since(start, before), version, view, m) && m < MAX_ATTEMPTS - 1
    requires AttemptOf(Since(before, tried), version, view, None)
    ensures start <= tried + [Waited(true)] && FollowsFrom(Since(start, tried + [Waited(true)]), version, view, Unknown)
  {
    hide AttemptOf, Open;
    var all, k, n := Since(start, tried + [Waited(true)]), |before| - |start|, |tried| - |start|;
    assert all[..k] == Since(start, before) && all[k..n] == Since(before, tried) && all[n..] == [Waited(true)];
  }

  lemma HeldOrShownSooner(initial: State, log: seq<Commit>, from: nat, later: nat, result: SaveResult, res: Resource)
    requires from <= later && Truthful(initial, log, later, result, res)
    ensures Truthful(initial, log, from, result, res)
  {
  }

  /** Failing and being refused claim nothing of the history. */
  lemma ClaimsNothing(result: SaveResult, res: Resource)
    requires result.Failed? || result.Forbidden?
    ensures forall initial, log, from: nat :: Truthful(initial, log, from, result, res)
    ensures VerdictOf(result) == if result.Failed? then Unknown else Denied
  {
  }

  lemma HeldIsTruthful(initial: State, log: seq<Commit>, from: nat, res: Resource)
    requires HeldBetween(initial, log, from, res.View())
    ensures Truthful(initial, log, from, Succeeded, res) && VerdictOf(Succeeded) == Landed
  {
  }

  /** Updates the object under the version `res` was read with, and resolves replies that
      leave open whether the write took effect. Which writes can follow from the requests
      sent, during the call or after it, is what `AtMostOneWrite` and `NothingOverwritten`
      say of every valid history. */
  method Save(server: Server, res: Resource) returns (result: SaveResult)
    requires server.Valid() && res.Valid() && res.version <= server.last
    modifies server
    ensures server.Valid() && server.Evolves()
    ensures OnlyRepeats(old(server.sends), server.sends, Request(Replaces(res.version), res.View()), MAX_ATTEMPTS)
    ensures Truthful(server.initial, server.log, |old(server.log)|, result, res)
    ensures result.Conflict? ==> fresh(result.cluster) && result.cluster.kind == server.kind
    ensures old(server.trace) <= server.trace
    ensures FollowsFrom(Since(old(server.trace), server.trace), res.version, res.View(), VerdictOf(result))
  {
    var attempt := 1;
    hide FollowsFrom, Truthful, VerdictOf, Since, Resource.View, Server.Valid;
    NothingSince(server.trace, res.version, res.View());
    while true
      invariant 1 <= attempt <= MAX_ATTEMPTS && server.Valid() && server.Evolves()
      invariant OnlyRepeats(old(server.sends), server.sends, Request(Replaces(res.version), res.View()), attempt - 1)
      invariant old(server.trace) <= server.trace && Open(Since(old(server.trace), server.trace), res.version, res.View(), attempt - 1)
      decreases MAX_ATTEMPTS - attempt
    {
      hide Open;
      var finished;
      ghost var sending := server.log;
      result, finished := Try(server, res, attempt, old(server.trace));
      if finished {
        HeldOrShownSooner(server.initial, server.log, |old(server.log)|, |sending|, result, res);
        return;
      }
      attempt := attempt + 1;
    }
  }

  /** One turn of the loop: an attempt and, when it settles nothing and more are allowed, the
      wait before the next. */
  method Try(server: Server, res: Resource, attempt: nat, ghost start: seq<Event>) returns (result: SaveResult, finished: bool)
    requires server.Valid() && res.Valid() && res.version <= server.last
    requires 1 <= attempt <= MAX_ATTEMPTS && start <= server.trace
    requires Open(Since(start, server.trace), res.version, res.View(), attempt - 1)
    modifies server
    ensures server.Valid() && server.Evolves()
    ensures OnlyRepeats(old(server.sends), server.sends, Request(Replaces(res.version), res.View()), 1)
    ensures start <= server.trace
    ensures finished ==> Truthful(server.initial, server.log, |old(server.log)|, result, res)
    ensures finished && result.Conflict? ==> fresh(result.cluster) && result.cluster.kind == server.kind
    ensures finished ==> FollowsFrom(Since(start, server.trace), res.version, res.View(), VerdictOf(result))
    ensures !finished ==> attempt < MAX_ATTEMPTS && Open(Since(start, server.trace), res.version, res.View(), attempt)
  {
    hide Open, AttemptOf, FollowsFrom, Since, Resource.View, Truthful, VerdictOf, OnlyRepeats, Server.Valid;
    var settled;
    result, settled := Attempt(server, res);
    ghost var tried := server.trace;
    finished := true;
    if settled {
      EndsHere(start, old(server.trace), tried, res.version, res.View(), attempt - 1, Some(VerdictOf(result)), VerdictOf(result));
      return;
    }
    result := Failed;
    ClaimsNothing(result, res);
    if attempt == MAX_ATTEMPTS {
      EndsHere(start, old(server.trace), tried, res.version, res.View(), attempt - 1, None, Unknown);
      return;
    }
    var cancelled := server.Backoff();
    if cancelled {
      EndsWaiting(start, old(server.trace), tried, res.version, res.View(), attempt - 1);
      return;
    }
    StaysOpen(start, old(server.trace), tried, res.version, res.View(), attempt - 1);
    finished := false;
  }

  /** One update and what its reply settles. Not settled: the request was never sent, or the
      object still has the submitted version without the submitted data. */
  method Attempt(server: Server, res: Resource) returns (result: SaveResult, settled: bool)
    requires server.Valid() && res.Valid() && res.version <= server.last
    modifies server
    ensures server.Valid() && server.Evolves()
    ensures OnlyRepeats(old(server.sends), server.sends, Request(Replaces(res.version), res.View()), 1)
    ensures settled ==> Truthful(server.initial, server.log, |old(server.log)|, result, res)
    ensures settled && result.Conflict? ==> fresh(result.cluster) && result.cluster.kind == server.kind
    ensures old(server.trace) <= server.trace
    ensures AttemptOf(Since(old(server.trace), server.trace), res.version, res.View(), if settled then Some(VerdictOf(result)) else None)
  {
    hide Truthful, Resource.View, Server.Valid;
    var reply := server.Send(Request(Replaces(res.version), res.View()));
    ghost var answered := server.log;
    settled := true;
    ClaimsNothing(Failed, res);
    ClaimsNothing(Forbidden, res);
    match reply {
      case Accepted => result := Succeeded;
        HeldIsTruthful(server.initial, server.log, |old(server.log)|, res);
      case Refused => result := Forbidden;
      case NeverSent => result, settled := Failed, false;
      case Conflicted =>
        result := SaveConflict(server, res);
        HeldOrShownSooner(server.initial, server.log, |old(server.log)|, |answered|, result, res);
      case Ambiguous =>
        result, settled := Reread(server, res);
        if settled { HeldOrShownSooner(server.initial, server.log, |old(server.log)|, |answered|, result, res); }
      case _ => result := Failed;
    }
  }

  /** After a rejected update: what the object has become. */
  method SaveConflict(server: Server, res: Resource) returns (result: SaveResult)
    requires server.Valid() && res.Valid() && res.version <= server.last
    requires !Admits(Replaces(res.version), server.state)
    modifies server
    ensures server.Valid() && server.Evolves() && server.sends == old(server.sends)
    ensures result.Failed? || result.Conflict?
    ensures Truthful(server.initial, server.log, |old(server.log)|, result, res)
    ensures result.Conflict? ==> fresh(result.cluster) && result.cluster.kind == server.kind
    ensures Last(old(server.trace), server.trace) && VerdictOf(result) == AfterConflict(server.trace[|old(server.trace)|])
  {
    var fetched := server.Fetch();
    if !fetched.Found? { return Failed; }
    result := Conflict(fetched.res);
    GoneForGood(server.initial, old(server.log), old(server.last), server.log, server.last, res.version);
  }

  /** After an ambiguous reply: reads the object back. Not settled means that the version
      is still the submitted one and the data is not. */
  method Reread(server: Server, res: Resource) returns (result: SaveResult, settled: bool)
    requires server.Valid() && res.Valid()
    modifies server
    ensures server.Valid() && server.Evolves() && server.sends == old(server.sends)
    ensures settled ==> Truthful(server.initial, server.log, |old(server.log)|, result, res)
    ensures settled && result.Conflict? ==> fresh(result.cluster) && result.cluster.kind == server.kind
    ensures Last(old(server.trace), server.trace)
    ensures AfterReread(server.trace[|old(server.trace)|], res.version, res.View()) == if settled then Some(VerdictOf(result)) else None
  {
    var fetched := server.Fetch();
    if !fetched.Found? { return Failed, true; }
    var same := SameData(fetched.res, res);
    if same {
      SeenIsHeld(server.initial, server.log, |old(server.log)|, fetched.res.version, fetched.res.View());
      return Succeeded, true;
    }
    if fetched.res.version != res.version { return Conflict(fetched.res), true; }
    return Failed, false;
  }

  /** Submits `res` as a dry run. Nothing of ours can change the object. It passes only if the
      object had the submitted version at some moment of the call. */
  method DryRunSave(server: Server, res: Resource) returns (result: DryRunResult)
    requires server.Valid() && res.Valid() && res.version <= server.last
    modifies server
    ensures server.Valid() && server.Evolves() && server.sends == old(server.sends)
    ensures result.Accepts? ==> AdmittedBetween(server.initial, server.log, |old(server.log)|, Replaces(res.version))
    ensures result.DryRunConflict? ==>
      && fresh(result.current) && result.current.kind == server.kind
      && ShowsOtherVersion(server.initial, server.log, |old(server.log)|, result.current, res.version)
    ensures old(server.trace) <= server.trace
    ensures DryRunFollowsFrom(Since(old(server.trace), server.trace), DryVerdictOf(result))
  {
    hide Server.Valid, Resource.View, AdmittedBetween;
    var check := server.DryRun(Request(Replaces(res.version), res.View()));
    ghost var rejected := server.log;
    match check {
      case Passed => return Accepts;
      case Stale =>
        var conflict := SaveConflict(server, res);
        if conflict.Failed? { return DryRunFailed; }
        SeenSooner(server.initial, server.log, |old(server.log)|, |rejected|,
                   Present(conflict.cluster.version, conflict.cluster.View()));
        return DryRunConflict(conflict.cluster);
      case _ => return ClassifyDryRunError(check);
    }
  }

  /** What a dry run's error means unless the operation knows better. */
  function ClassifyDryRunError(check: Check): DryRunResult {
    match check
    case NoDryRuns => Unsupported
    case Lost => DryRunFailed
    case _ => Rejects
  }

  /** Submits a create as a dry run. It passes only if the object was absent at some moment of
      the call. */
  method DryRunCreate(server: Server, res: Resource) returns (result: DryRunResult)
    requires server.Valid() && res.Valid()
    modifies server
    ensures server.Valid() && server.Evolves() && server.sends == old(server.sends)
    ensures result.Accepts? ==> AdmittedBetween(server.initial, server.log, |old(server.log)|, MustNotExist)
    ensures !result.DryRunConflict?
    ensures old(server.trace) <= server.trace
    ensures DryCreateFollowsFrom(Since(old(server.trace), server.trace), DryVerdictOf(result))
  {
    hide Server.Valid, Resource.View, AdmittedBetween;
    var check := server.DryRun(Request(MustNotExist, res.View()));
    if check == Passed { return Accepts; }
    if check == Duplicate { return Rejects; }
    return ClassifyDryRunError(check);
  }

  /** Creates the object, and verifies an ambiguous result once. */
  method Create(server: Server, res: Resource) returns (result: SaveResult)
    requires server.Valid() && res.Valid()
    modifies server
    ensures server.Valid() && server.Evolves()
    ensures OnlyRepeats(old(server.sends), server.sends, Request(MustNotExist, res.View()), 1)
    ensures result.Succeeded? ==> HeldBetween(server.initial, server.log, |old(server.log)|, res.View())
    ensures !result.Conflict?
    ensures old(server.trace) <= server.trace
    ensures CreateFollowsFrom(Since(old(server.trace), server.trace), res.View(), VerdictOf(result))
  {
    hide Server.Valid, Resource.View;
    ghost var sending := server.log;
    var reply := server.Send(Request(MustNotExist, res.View()));
    match reply {
      case Accepted => return Succeeded;
      case Refused => return Forbidden;
      case Ambiguous =>
        var fetched := server.Fetch();
        if !fetched.Found? { return Failed; }
        var same := SameData(fetched.res, res);
        if same {
          SeenSooner(server.initial, server.log, |old(server.log)|, |old(server.log)|,
                     Present(fetched.res.version, fetched.res.View()));
          SeenIsHeld(server.initial, server.log, |old(server.log)|, fetched.res.version, fetched.res.View());
          return Succeeded;
        }
        return Failed;
      case _ => return Failed;
    }
  }

  lemma HeldSooner(initial: State, log: seq<Commit>, from: nat, later: nat, view: View)
    requires from <= later && HeldBetween(initial, log, later, view)
    ensures HeldBetween(initial, log, from, view)
  {
  }

  lemma SeenSooner(initial: State, log: seq<Commit>, from: nat, later: nat, state: State)
    requires from <= later && SeenBetween(initial, log, later, state)
    ensures SeenBetween(initial, log, from, state)
  {
  }

  lemma SeenIsHeld(initial: State, log: seq<Commit>, from: nat, version: nat, view: View)
    requires SeenBetween(initial, log, from, Present(version, view))
    ensures HeldBetween(initial, log, from, view)
  {
  }
}
