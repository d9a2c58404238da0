/** The apiserver as one client sees it: a single object that other writers change at any
    moment, behind a network that loses replies and delivers requests late. */
module Cluster {
  import opened Values
  import opened Resources

  type View = map<string, bytes>

  datatype State = Absent | Present(version: nat, view: View)

  /** What a write demands of the state it replaces. */
  datatype Guard = Replaces(version: nat) | MustNotExist

  datatype Request = Request(guard: Guard, view: View)

  datatype Writer = Other | Ours(request: Request)

  /** One change of the object. `stamp` is the cluster revision it was given. */
  datatype Commit = Commit(stamp: nat, before: State, after: State, author: Writer)

  predicate Admits(guard: Guard, state: State) {
    match guard
    case Replaces(v) => state.Present? && state.version == v
    case MustNotExist => state.Absent?
  }

  // ---------------------------------------------------------------- histories

  /** The state after the first `i` commits. */
  ghost function StateAt(initial: State, log: seq<Commit>, i: nat): State
    requires i <= |log|
  {
    if i == 0 then initial else log[i - 1].after
  }

  /** Every commit starts where the previous one ended and gets a revision never used
      before; a write of ours was admitted by its guard and stores what it carried. */
  ghost predicate ValidLog(initial: State, log: seq<Commit>, last: nat) {
    && (initial.Present? ==> initial.version <= last)
    && (forall i | 0 <= i < |log| :: ValidCommit(initial, log, i) && log[i].stamp <= last)
    && (forall i, j | 0 <= i < j < |log| :: log[i].stamp < log[j].stamp)
  }

  ghost predicate ValidCommit(initial: State, log: seq<Commit>, i: nat)
    requires i < |log|
  {
    var c := log[i];
    && c.before == StateAt(initial, log, i)
    && (c.after.Present? ==> c.after.version == c.stamp)
    && (initial.Present? ==> initial.version < c.stamp)
    && (c.author.Ours? ==> Admits(c.author.request.guard, c.before) && c.after == Present(c.stamp, c.author.request.view))
  }

  /** Whether the object held `view` at some moment between two points of its history. */
  ghost predicate HeldBetween(initial: State, log: seq<Commit>, from: nat, view: View) {
    exists i :: from <= i <= |log| && StateAt(initial, log, i).Present? && StateAt(initial, log, i).view == view
  }

  ghost predicate SeenBetween(initial: State, log: seq<Commit>, from: nat, state: State) {
    exists i :: from <= i <= |log| && StateAt(initial, log, i) == state
  }

  /** Whether the object was such at some moment between two points of its history that a
      write under this guard was admitted. */
  ghost predicate AdmittedBetween(initial: State, log: seq<Commit>, from: nat, guard: Guard) {
    exists i :: from <= i <= |log| && Admits(guard, StateAt(initial, log, i))
  }

  /** Versions grow along the history, so none is ever reached twice. */
  lemma VersionsGrow(initial: State, log: seq<Commit>, last: nat, i: nat, j: nat)
    requires ValidLog(initial, log, last) && i < j <= |log|
    requires StateAt(initial, log, i).Present? && StateAt(initial, log, j).Present?
    ensures StateAt(initial, log, i).version < StateAt(initial, log, j).version
  {
    assert ValidCommit(initial, log, j - 1);
    if i > 0 {
      assert ValidCommit(initial, log, i - 1);
      assert log[i - 1].stamp < log[j - 1].stamp;
    }
  }

  /** A write guarded by a version directly follows the moment that version was read: no
      commit of anybody lies between them, so no concurrent update is overwritten. */
  lemma NothingOverwritten(initial: State, log: seq<Commit>, last: nat, read: nat, i: nat)
    requires ValidLog(initial, log, last) && read <= |log| && i < |log|
    requires log[i].author.Ours? && log[i].author.request.guard.Replaces?
    requires StateAt(initial, log, read).Present?
    requires StateAt(initial, log, read).version == log[i].author.request.guard.version
    ensures read == i && log[i].before == StateAt(initial, log, read)
  {
    assert ValidCommit(initial, log, i);
    if read < i {
      VersionsGrow(initial, log, last, read, i);
    }
    if i < read {
      VersionsGrow(initial, log, last, i, read);
    }
  }

  /** Of all the writes ever sent under one captured version, by one call or by several and
      however often the network repeats them, at most one takes effect. */
  lemma AtMostOneWrite(initial: State, log: seq<Commit>, last: nat, i: nat, j: nat)
    requires ValidLog(initial, log, last) && i < |log| && j < |log|
    requires log[i].author.Ours? && log[j].author.Ours?
    requires log[i].author.request.guard.Replaces? && log[i].author.request.guard == log[j].author.request.guard
    ensures i == j
  {
    assert ValidCommit(initial, log, i) && ValidCommit(initial, log, j);
    NothingOverwritten(initial, log, last, i, j);
  }

  lemma CommitStays(initial: State, log: seq<Commit>, c: Commit, i: nat)
    requires i < |log| && ValidCommit(initial, log, i)
    ensures ValidCommit(initial, log + [c], i)
  {
    hide Admits;
    assert StateAt(initial, log + [c], i) == StateAt(initial, log, i);
  }

  lemma CommitAdded(initial: State, log: seq<Commit>, last: nat, c: Commit)
    requires (initial.Present? ==> initial.version <= last) && c.stamp > last && c.before == StateAt(initial, log, |log|)
    requires c.after.Present? ==> c.after.version == c.stamp
    requires c.author.Ours? ==> Admits(c.author.request.guard, c.before) && c.after == Present(c.stamp, c.author.request.view)
    ensures ValidCommit(initial, log + [c], |log|)
  {
    hide Admits;
    assert StateAt(initial, log + [c], |log|) == StateAt(initial, log, |log|);
  }

  lemma LogExtends(initial: State, log: seq<Commit>, last: nat, c: Commit)
    requires ValidLog(initial, log, last)
    requires c.stamp > last && c.before == StateAt(initial, log, |log|)
    requires c.after.Present? ==> c.after.version == c.stamp
    requires c.author.Ours? ==> Admits(c.author.request.guard, c.before) && c.after == Present(c.stamp, c.author.request.view)
    ensures ValidLog(initial, log + [c], c.stamp)
  {
    hide ValidCommit, Admits;
    forall i | 0 <= i < |log + [c]| ensures ValidCommit(initial, log + [c], i) {
      if i < |log| { CommitStays(initial, log, c, i); } else { CommitAdded(initial, log, last, c); }
    }
  }

  // ---------------------------------------------------------------- the server and the network

  /** What the client is told about a write. */
  datatype Reply = Accepted | Conflicted | Refused | AlreadyExists | NeverSent | Ambiguous | OtherError

  /** What the client is told about a dry run: it passed; the version is not the object's; the
      object exists already; dry runs are not supported; the server refused it; or no answer
      of the server came back. */
  datatype Check = Passed | Stale | Duplicate | NoDryRuns | Invalid | Lost

  datatype Fetched = Found(res: Resource) | NotFound | FetchFailed

  /** What the client gets to see: answers to its writes, dry runs and reads, and whether it
      was cancelled while it waited before the next attempt. */
  datatype Event = Answered(reply: Reply) | Checked(check: Check) | Shown(state: State) | NotShown | Waited(cancelled: bool)

  function Seen(result: Fetched): Event
    reads if result.Found? then {result.res} else {}
  {
    match result
    case Found(res) => Shown(Present(res.version, res.View()))
    case NotFound => Shown(Absent)
    case FetchFailed => NotShown
  }

  class Server {
    const kind: Kind
    ghost const initial: State
    var state: State
    /** The newest revision handed out. */
    var last: nat
    /** Every write that reached the network. Any of them may be delivered at any later
        moment, and more than once. */
    var sends: seq<Request>
    ghost var log: seq<Commit>
    /** Everything the client was told, in order. */
    ghost var trace: seq<Event>

    ghost predicate Valid()
      reads this`state, this`last, this`sends, this`log
    {
      && ValidLog(initial, log, last)
      && StateAt(initial, log, |log|) == state
      && (state.Present? ==> state.version <= last)
      && forall i | 0 <= i < |log| && log[i].author.Ours? :: log[i].author.request in sends
    }

    constructor (kind: Kind, state: State)
      ensures Valid() && log == [] && sends == [] && this.state == state && this.kind == kind && initial == state
    {
      this.kind, this.state, this.initial, this.log, this.sends, this.trace := kind, state, state, [], [], [];
      this.last := if state.Present? then state.version else 0;
    }

    /** What every action of anybody keeps: history only grows, by commits with revisions
        that were not handed out before. */
    twostate predicate Evolves()
      reads this
    {
      && old(log) <= log && old(last) <= last
      && (forall i | |old(log)| <= i < |log| :: log[i].stamp > old(last))
    }

    method Store(after: State, author: Writer)
      requires Valid()
      requires author.Ours? ==>
                 && Admits(author.request.guard, state) && author.request in sends
                 && after.Present? && after.view == author.request.view
      modifies this
      ensures Valid() && sends == old(sends) && trace == old(trace) && Evolves()
      ensures log == old(log) + [Commit(last, old(state), state, author)]
      ensures state == if after.Absent? then Absent else Present(last, after.view)
      ensures last > old(last)
    {
      hide ValidLog, ValidCommit;
      var stamp: nat :| stamp > last;
      var next := if after.Absent? then Absent else Present(stamp, after.view);
      LogExtends(initial, log, last, Commit(stamp, state, next, author));
      log := log + [Commit(stamp, state, next, author)];
      state, last := next, stamp;
    }

    /** Anything the rest of the world does while the client waits: other writers create,
        change and delete the object, and earlier requests arrive late. */
    method Interference()
      requires Valid()
      modifies this
      ensures Valid() && sends == old(sends) && trace == old(trace) && Evolves()
    {
      var steps: nat :| true;
      for n := 0 to steps
        invariant Valid() && sends == old(sends) && trace == old(trace) && Evolves()
      {
        if * {
          var after: State :| true;
          Store(after, Other);
        } else if sends != [] {
          var k :| 0 <= k < |sends|;
          if Admits(sends[k].guard, state) {
            Store(Present(0, sends[k].view), Ours(sends[k]));
          }
        }
      }
    }

    /** Sends one write. Only `Accepted` proves that it took effect and only `NeverSent`
        that it cannot; a reply of any other kind may be lost on the way back. */
    method Send(request: Request) returns (reply: Reply)
      requires Valid()
      modifies this
      ensures Valid() && Evolves()
      ensures sends == old(sends) + if reply == NeverSent then [] else [request]
      ensures trace == old(trace) + [Answered(reply)]
      ensures reply == Accepted ==> HeldBetween(initial, log, |old(log)|, request.view)
      ensures reply == Conflicted && request.guard.Replaces? && request.guard.version <= old(last)
        ==> !Admits(request.guard, state)
    {
      hide ValidLog, HeldBetween;
      Interference();
      if * {
        trace := trace + [Answered(NeverSent)];
        return NeverSent;
      }
      ghost var start := log;
      reply := Deliver(request);
      ghost var answered, lastThen := log, last;
      Interference();
      trace := trace + [Answered(reply)];
      if reply == Accepted {
        HeldStays(initial, answered, log, |start|, request.view);
      } else if reply == Conflicted && request.guard.Replaces? && request.guard.version <= old(last) {
        GoneForGood(initial, answered, lastThen, log, last, request.guard.version);
        assert StateAt(initial, log, |log|) == state;
      }
    }

    /** The request reaches the network; the server may see it now, later or never. */
    method Deliver(request: Request) returns (reply: Reply)
      requires Valid()
      modifies this
      ensures Valid() && Evolves() && reply != NeverSent
      ensures sends == old(sends) + [request] && trace == old(trace)
      ensures reply == Accepted ==> HeldBetween(initial, log, |old(log)|, request.view)
      ensures reply == Conflicted && request.guard.Replaces? ==> !Admits(request.guard, state)
    {
      sends := sends + [request];
      if * {
        reply :| reply == Ambiguous || reply == OtherError || reply == Refused;
      } else if Admits(request.guard, state) {
        Store(Present(0, request.view), Ours(request));
        assert StateAt(initial, log, |log|) == state;
        reply :| reply == Accepted || reply == Ambiguous || reply == OtherError;
      } else {
        reply := Rejection(request.guard, state);
        if * { reply :| reply == Ambiguous || reply == OtherError; }
      }
    }

    /** Submits a write as a dry run, which changes nothing. One that passed met the state its
        guard demands; a version that was not the object's will never be again. */
    method DryRun(request: Request) returns (check: Check)
      requires Valid()
      modifies this
      ensures Valid() && Evolves() && sends == old(sends)
      ensures trace == old(trace) + [Checked(check)]
      ensures check == Passed ==> AdmittedBetween(initial, log, |old(log)|, request.guard)
      ensures check == Stale ==> request.guard.Replaces?
      ensures check == Stale && request.guard.version <= old(last) ==> !Admits(request.guard, state)
      ensures check == Duplicate ==> request.guard.MustNotExist?
    {
      hide ValidLog;
      Interference();
      ghost var examined, lastThen := log, last;
      check := Examine(request.guard);
      Interference();
      trace := trace + [Checked(check)];
      if check == Passed {
        assert StateAt(initial, log, |examined|) == StateAt(initial, examined, |examined|);
      } else if check == Stale && request.guard.version <= old(last) {
        GoneForGood(initial, examined, lastThen, log, last, request.guard.version);
        assert StateAt(initial, log, |log|) == state;
      }
    }

    /** What the server makes of a dry run, if it gets to see it. */
    method Examine(guard: Guard) returns (check: Check)
      ensures check == Passed ==> Admits(guard, state)
      ensures check == Stale || check == Duplicate ==> !Admits(guard, state)
      ensures check == Stale ==> guard.Replaces? && state.Present?
      ensures check == Duplicate ==> guard.MustNotExist?
    {
      if * { return NoDryRuns; }
      if * { return Lost; }
      if * { return Invalid; }
      if Admits(guard, state) { return Passed; }
      if guard.MustNotExist? { return Duplicate; }
      check := if state.Present? then Stale else Invalid;
    }

    /** Reads the object. */
    method Fetch() returns (result: Fetched)
      requires Valid()
      modifies this
      ensures Valid() && sends == old(sends) && Evolves()
      ensures trace == old(trace) + [Seen(result)]
      ensures result.Found? ==> fresh(result.res) && result.res.Valid() && result.res.kind == kind
      ensures result.Found? ==> SeenBetween(initial, log, |old(log)|, Present(result.res.version, result.res.View()))
    {
      hide Valid;
      result := Look();
      trace := trace + [Seen(result)];
    }

    method Look() returns (result: Fetched)
      requires Valid()
      modifies this
      ensures Valid() && sends == old(sends) && trace == old(trace) && Evolves()
      ensures result.Found? ==> fresh(result.res) && result.res.Valid() && result.res.kind == kind
      ensures result.Found? ==> SeenBetween(initial, log, |old(log)|, Present(result.res.version, result.res.View()))
    {
      Interference();
      if * { return FetchFailed; }
      if state.Absent? { return NotFound; }
      var data, binaryData := Split(state.view);
      var res := new Resource(kind, state.version, data, binaryData);
      result := Found(res);
      ghost var i := |log|;
      label answered:
      Interference();
      assert StateAt(initial, log, i) == StateAt(initial, old@answered(log), i) == old@answered(state);
    }

    /** Waits before the next attempt, and may be cancelled meanwhile. */
    method Backoff() returns (cancelled: bool)
      requires Valid()
      modifies this
      ensures Valid() && sends == old(sends) && Evolves()
      ensures trace == old(trace) + [Waited(cancelled)]
    {
      Interference();
      cancelled := *;
      trace := trace + [Waited(cancelled)];
    }

    /** Some object whose observable values are `view`. */
    method Split(view: View) returns (data: View, binaryData: View)
      ensures binaryData + data == view
      ensures kind == Secret ==> binaryData == map[]
    {
      data, binaryData := view, map[];
      if kind == ConfigMap {
        var moved: set<string> :| true;
        binaryData := map k | k in view && k in moved :: view[k];
        data := view - moved;
      }
    }
  }

  /** A version that was handed out and does not hold is never admitted again. */
  lemma GoneForGood(initial: State, before: seq<Commit>, lastThen: nat, log: seq<Commit>, last: nat, version: nat)
    requires ValidLog(initial, before, lastThen) && ValidLog(initial, log, last) && before <= log
    requires forall i | |before| <= i < |log| :: log[i].stamp > lastThen
    requires version <= lastThen && !Admits(Replaces(version), StateAt(initial, before, |before|))
    ensures forall i | |before| <= i <= |log| :: !Admits(Replaces(version), StateAt(initial, log, i))
  {
    forall i | |before| <= i <= |log| ensures !Admits(Replaces(version), StateAt(initial, log, i)) {
      if i > |before| {
        assert ValidCommit(initial, log, i - 1);
      } else {
        assert StateAt(initial, log, i) == StateAt(initial, before, i);
      }
    }
  }

  /** What the server answers to a write its guard does not admit. */
  function Rejection(guard: Guard, state: State): (reply: Reply)
    requires !Admits(guard, state)
    ensures reply == Conflicted ==> guard.Replaces?
  {
    if guard.MustNotExist? then AlreadyExists
    else if state.Present? then Conflicted
    else OtherError
  }

  lemma HeldStays(initial: State, log: seq<Commit>, more: seq<Commit>, from: nat, view: View)
    requires log <= more && HeldBetween(initial, log, from, view)
    ensures forall earlier: nat | earlier <= from :: HeldBetween(initial, more, earlier, view)
  {
    var i :| from <= i <= |log| && StateAt(initial, log, i).Present? && StateAt(initial, log, i).view == view;
    assert StateAt(initial, more, i) == StateAt(initial, log, i);
  }
}
