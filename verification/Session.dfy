/** Whole runs: one edit flow and the cluster it saves to, with the requests it sends running
    in the background, their replies arriving in any order or never, and other writers
    changing the object all the while. */
module Session {
  import opened Values
  import opened Resources
  import opened Edits
  import opened TypedConfirm
  import opened EditFlow
  import C = Cluster
  import S = Save

  /** A request the runtime still has to carry out, and the reply to one. */
  datatype Job = Job(reqID: nat, snapshot: Snapshot, dryRun: bool)

  datatype Reply = Reply(job: Job, outcome: Outcome)

  datatype Outcome = Good | Conflicting(current: Snapshot) | Denied | Missing | Bad

  /** A key the user pressed, and the phase and the diff the flow showed at that moment. */
  datatype Press = Press(key: KeyPress, phase: Phase, shown: Edit)

  /** A reply that reached the flow, and how many keys had been pressed by then. */
  datatype Answer = Answer(reply: Reply, at: nat)

  /** What the flow holds on record of the user's consent: the diffs accepted, the saves
      dispatched, and the state of the gate. */
  datatype Consent = Consent(agreed: seq<Edit>, saves: seq<Dispatch>, typed: seq<KeyPress>, edit: Edit,
                             skipped: bool, checked: Option<Snapshot>)

  // ---------------------------------------------------------------- what the user agreed to

  /** The user pressed Y on this very diff. */
  ghost predicate AcceptedBy(presses: seq<Press>, e: Edit) {
    exists p :: p in presses && AcceptsDiff(p.key, p.phase) && p.shown == e
  }

  /** The last keys pressed are the ones typed. */
  predicate EndsIn(presses: seq<Press>, typed: seq<KeyPress>) {
    && |typed| <= |presses|
    && forall i | 0 <= i < |typed| :: presses[|presses| - |typed| + i].key == typed[i]
  }

  /** At that moment a reply arrived that accepts a dry run of exactly this snapshot. */
  ghost predicate CheckedAt(answers: seq<Answer>, at: nat, s: Snapshot) {
    exists a :: a in answers && a.at == at && a.reply.job.dryRun && a.reply.job.snapshot == s && a.reply.outcome == Good
  }

  /** The gate was opened after `n` keys, on a diff the user had accepted: by the user's Y past
      an unsupported dry run that showed this diff, or by an accepted dry run of what is
      checked. */
  ghost predicate OpenedAfter(presses: seq<Press>, answers: seq<Answer>, n: nat, e: Edit, skipped: bool, checked: Option<Snapshot>)
    requires n <= |presses|
  {
    && AcceptedBy(presses[..n], e)
    && if skipped then n > 0 && presses[n - 1] == Press(Char('Y'), DryRunUnsupported, e)
       else checked.Some? && CheckedAt(answers, n, checked.value)
  }

  /** The gate is open, and the keys pressed since it was opened are the ones typed into it. */
  ghost predicate Gated(presses: seq<Press>, answers: seq<Answer>, typed: seq<KeyPress>, e: Edit, skipped: bool,
                        checked: Option<Snapshot>)
  {
    EndsIn(presses, typed) && OpenedAfter(presses, answers, |presses| - |typed|, e, skipped, checked)
  }

  /** The user pressed enter in the gate with the diff on show, right after the typed keys,
      which are all the keys since the gate was opened. */
  ghost predicate ConfirmedBy(presses: seq<Press>, answers: seq<Answer>, d: Dispatch) {
    exists n :: 0 <= n < |presses| && Confirms(presses, answers, n, d)
  }

  ghost predicate Confirms(presses: seq<Press>, answers: seq<Answer>, n: nat, d: Dispatch)
    requires n < |presses|
  {
    && presses[n] == Press(Enter, CommitGate, d.edit)
    && Gated(presses[..n], answers, d.typed, d.edit, d.skippedDryRun, d.checked)
  }

  ghost predicate Agreements(presses: seq<Press>, answers: seq<Answer>, agreed: seq<Edit>, saves: seq<Dispatch>) {
    && (forall e | e in agreed :: AcceptedBy(presses, e))
    && (forall d | d in saves :: ConfirmedBy(presses, answers, d))
  }

  lemma AcceptedStays(presses: seq<Press>, more: seq<Press>, e: Edit)
    requires presses <= more && AcceptedBy(presses, e)
    ensures AcceptedBy(more, e)
  {
    hide AcceptsDiff;
    var p :| p in presses && AcceptsDiff(p.key, p.phase) && p.shown == e;
    assert p in more;
  }

  lemma GatedStays(presses: seq<Press>, answers: seq<Answer>, more: seq<Answer>, typed: seq<KeyPress>, e: Edit, skipped: bool,
                   checked: Option<Snapshot>)
    requires answers <= more && Gated(presses, answers, typed, e, skipped, checked)
    ensures Gated(presses, more, typed, e, skipped, checked)
  {
    hide AcceptedBy, EndsIn;
    if !skipped {
      var n := |presses| - |typed|;
      var a :| a in answers && a.at == n && a.reply.job.dryRun && a.reply.job.snapshot == checked.value && a.reply.outcome == Good;
      assert a in more;
    }
  }

  lemma AgreementsStay(presses: seq<Press>, morePresses: seq<Press>, answers: seq<Answer>, moreAnswers: seq<Answer>,
                       agreed: seq<Edit>, saves: seq<Dispatch>)
    requires presses <= morePresses && answers <= moreAnswers && Agreements(presses, answers, agreed, saves)
    ensures Agreements(morePresses, moreAnswers, agreed, saves)
  {
    hide AcceptedBy, Gated;
    forall e | e in agreed ensures AcceptedBy(morePresses, e) { AcceptedStays(presses, morePresses, e); }
    forall d | d in saves ensures ConfirmedBy(morePresses, moreAnswers, d) {
      var n :| 0 <= n < |presses| && Confirms(presses, answers, n, d);
      GatedStays(presses[..n], answers, moreAnswers, d.typed, d.edit, d.skippedDryRun, d.checked);
      assert morePresses[..n] == presses[..n] && Confirms(morePresses, moreAnswers, n, d);
    }
  }

  /** One more key: a Y that accepts the diff on show, or the enter that confirms it. */
  lemma PressAgrees(presses: seq<Press>, answers: seq<Answer>, p: Press, agreed: seq<Edit>, saves: seq<Dispatch>,
                    nextAgreed: seq<Edit>, nextSaves: seq<Dispatch>)
    requires Agreements(presses, answers, agreed, saves)
    requires nextAgreed == agreed || (AcceptsDiff(p.key, p.phase) && nextAgreed == agreed + [p.shown])
    requires nextSaves == saves || exists d ::
               && nextSaves == saves + [d] && p == Press(Enter, CommitGate, d.edit)
               && Gated(presses, answers, d.typed, d.edit, d.skippedDryRun, d.checked)
    ensures Agreements(presses + [p], answers, nextAgreed, nextSaves)
  {
    hide AcceptsDiff, Gated;
    AgreementsStay(presses, presses + [p], answers, answers, agreed, saves);
    assert (presses + [p])[|presses|] == p && (presses + [p])[..|presses|] == presses;
    forall d | d in nextSaves ensures ConfirmedBy(presses + [p], answers, d) {
      if d !in saves { assert Confirms(presses + [p], answers, |presses|, d); }
    }
  }

  /** A further key typed into the open gate. */
  lemma GatedMore(presses: seq<Press>, answers: seq<Answer>, p: Press, typed: seq<KeyPress>, e: Edit, skipped: bool,
                  checked: Option<Snapshot>)
    requires Gated(presses, answers, typed, e, skipped, checked)
    ensures Gated(presses + [p], answers, typed + [p.key], e, skipped, checked)
  {
    hide AcceptedBy, CheckedAt;
    assert (presses + [p])[..|presses| - |typed|] == presses[..|presses| - |typed|];
  }

  lemma GateOpens(presses: seq<Press>, answers: seq<Answer>, e: Edit, skipped: bool, checked: Option<Snapshot>)
    requires OpenedAfter(presses, answers, |presses|, e, skipped, checked)
    ensures Gated(presses, answers, [], e, skipped, checked)
  {
  }

  /** What stands behind a save that was confirmed: the user accepted its diff, and a reply
      accepted a dry run of exactly what it carries, or the user pressed Y past a missing one
      that showed this diff. */
  lemma ConfirmedMeans(presses: seq<Press>, answers: seq<Answer>, d: Dispatch)
    requires Guarded(d) && ConfirmedBy(presses, answers, d)
    ensures AcceptedBy(presses, d.edit)
    ensures if d.skippedDryRun then Press(Char('Y'), DryRunUnsupported, d.edit) in presses
            else exists a :: a in answers && a.reply == Reply(Job(a.reply.job.reqID, d.snapshot, true), Good)
  {
    hide EndsIn, AcceptedBy, Describes, TrimSpace, TextOfKeys;
    var n :| 0 <= n < |presses| && Confirms(presses, answers, n, d);
    var start := n - |d.typed|;
    EndsFits(presses[..n], d.typed);
    AcceptedStays(presses[..n][..start], presses, d.edit);
    if d.skippedDryRun {
      assert presses[..n][start - 1] in presses;
    } else {
      var a :| a in answers && a.at == start && a.reply.job.dryRun && a.reply.job.snapshot == d.snapshot && a.reply.outcome == Good;
      assert a.reply == Reply(Job(a.reply.job.reqID, d.snapshot, true), Good);
    }
  }

  lemma EndsFits(presses: seq<Press>, typed: seq<KeyPress>)
    requires EndsIn(presses, typed)
    ensures |typed| <= |presses|
  {
  }

  // ---------------------------------------------------------------- what a landed save did

  /** A commit made by a save is the accepted diff of the values it replaced: the version is
      the one those values were read under, every key the diff lists becomes what the diff
      says, and every other key, binary ones included, keeps its bytes. */
  ghost predicate Landed(c: C.Commit, d: Dispatch) {
    && c.before == C.Present(d.snapshot.version, d.base)
    && c.after.Present? && c.after.view == After(d.base, d.edit)
    && Describes(d.edit, c.before.view)
    && forall k :: Lookup(c.after.view, k) == if Lists(d.edit, k) then Becomes(d.edit, k) else Lookup(c.before.view, k)
  }

  /** A created object is exactly the accepted document, and nothing was there before. */
  ghost predicate Created(c: C.Commit, d: Dispatch) {
    c.before == C.Absent && c.after.Present? && c.after.view == After(map[], d.edit)
  }

  function RequestOf(target: Target, s: Snapshot): C.Request {
    C.Request(if target == NewResource then C.MustNotExist else C.Replaces(s.version), s.view)
  }

  /** The values an edit starts from were read from the cluster, or are those of nothing. */
  ghost predicate Read(target: Target, initial: C.State, log: seq<C.Commit>, version: nat, base: View) {
    if target == NewResource then base == map[] else C.SeenBetween(initial, log, 0, C.Present(version, base))
  }

  /** What a run rests on: the history of the object, the saves dispatched so far with how long
      the history was at each of those moments, and what every dry run carried. */
  datatype Ground = Ground(target: Target, initial: C.State, log: seq<C.Commit>, last: nat,
                           saves: seq<Dispatch>, sent: seq<nat>, runs: map<nat, Snapshot>)

  ghost predicate ReadAll(g: Ground) {
    forall d | d in g.saves :: Read(g.target, g.initial, g.log, d.snapshot.version, d.base) && Guarded(d)
  }

  lemma SeenStays(initial: C.State, log: seq<C.Commit>, more: seq<C.Commit>, from: nat, state: C.State)
    requires log <= more && C.SeenBetween(initial, log, from, state)
    ensures C.SeenBetween(initial, more, 0, state)
  {
    var i :| from <= i <= |log| && C.StateAt(initial, log, i) == state;
    assert C.StateAt(initial, more, i) == state;
  }

  lemma ReadStays(target: Target, initial: C.State, log: seq<C.Commit>, more: seq<C.Commit>, version: nat, base: View)
    requires log <= more && Read(target, initial, log, version, base)
    ensures Read(target, initial, more, version, base)
  {
    if target != NewResource { SeenStays(initial, log, more, 0, C.Present(version, base)); }
  }

  /** However late a guarded save lands, it lands on the values it was made from. */
  lemma SaveLandsAsAccepted(initial: C.State, log: seq<C.Commit>, last: nat, i: nat, target: Target, d: Dispatch)
    requires C.ValidLog(initial, log, last) && i < |log|
    requires log[i].author == C.Ours(RequestOf(target, d.snapshot))
    requires Guarded(d) && Read(target, initial, log, d.snapshot.version, d.base)
    ensures if target == NewResource then Created(log[i], d) else Landed(log[i], d)
  {
    assert C.ValidCommit(initial, log, i);
    if target != NewResource {
      var read :| 0 <= read <= |log| && C.StateAt(initial, log, read) == C.Present(d.snapshot.version, d.base);
      C.NothingOverwritten(initial, log, last, read, i);
      ChangesWhatIsListed(d.base, d.edit);
    }
  }

  // ---------------------------------------------------------------- what a run keeps

  /** What everything in flight rests on: values the cluster held, and dispatched requests. */
  ghost predicate Grounded(g: Ground, jobs: seq<Job>, inbox: seq<Reply>) {
    && |g.sent| == |g.saves| && ReadAll(g)
    && (forall j | j in jobs :: JobGrounded(g, j))
    && (forall r | r in inbox :: ReplyGrounded(g, r))
  }

  ghost predicate JobGrounded(g: Ground, j: Job) {
    && (if j.dryRun then RunAs(g.runs, j) else SavedAs(g, j))
    && (g.target != NewResource ==> j.snapshot.version <= g.last)
  }

  /** The dry run was started by the flow, with this snapshot. */
  predicate RunAs(runs: map<nat, Snapshot>, j: Job) { j.reqID in runs && runs[j.reqID] == j.snapshot }

  /** The save was dispatched by the flow, with this snapshot. */
  ghost predicate SavedAs(g: Ground, j: Job) { exists i :: 0 <= i < |g.saves| && SaveIs(g, i, j) }

  ghost predicate SaveIs(g: Ground, i: nat, j: Job)
    requires i < |g.saves|
  {
    && g.saves[i].reqID == j.reqID && g.saves[i].snapshot == j.snapshot
    && i < |g.sent| && g.sent[i] <= |g.log|
  }

  ghost predicate ReplyGrounded(g: Ground, r: Reply) {
    && (r.job.dryRun ==> RunAs(g.runs, r.job))
    && (r.outcome.Conflicting? ==>
        && g.target != NewResource
        && C.SeenBetween(g.initial, g.log, 0, C.Present(r.outcome.current.version, r.outcome.current.view)))
    && (r.outcome.Good? && !r.job.dryRun ==> Confirmed(g, r.job.reqID))
  }

  /** The outcome of a request is what the server's answers to it come to. */
  ghost predicate Told(target: Target, j: Job, events: seq<C.Event>, outcome: Outcome) {
    if j.dryRun then
      if target == NewResource then S.DryCreateFollowsFrom(events, DryVerdictFor(outcome))
      else S.DryRunFollowsFrom(events, DryVerdictFor(outcome))
    else
      && !outcome.Missing?
      && if target == NewResource then S.CreateFollowsFrom(events, j.snapshot.view, VerdictFor(outcome))
         else S.FollowsFrom(events, j.snapshot.version, j.snapshot.view, VerdictFor(outcome))
  }

  ghost function DryVerdictFor(outcome: Outcome): S.DryVerdict {
    match outcome
    case Good => S.Fits
    case Conflicting(s) => S.Outdated(s.version, s.view)
    case Denied => S.TurnedDown
    case Missing => S.CannotTell
    case Bad => S.NoAnswer
  }

  ghost function VerdictFor(outcome: Outcome): S.Verdict {
    match outcome
    case Good => S.Landed
    case Conflicting(s) => S.Moved(s.version, s.view)
    case Denied => S.Denied
    case _ => S.Unknown
  }

  /** A dry run that passed met the object under the version it carries. */
  ghost predicate Met(target: Target, initial: C.State, log: seq<C.Commit>, from: nat, j: Job, outcome: Outcome) {
    j.dryRun && outcome.Good? ==> C.AdmittedBetween(initial, log, from, RequestOf(target, j.snapshot).guard)
  }

  /** The object held what the save of this id carried, at some moment after its dispatch. */
  ghost predicate Confirmed(g: Ground, reqID: nat) { exists i :: 0 <= i < |g.saves| && HeldSince(g, i, reqID) }

  ghost predicate HeldSince(g: Ground, i: nat, reqID: nat)
    requires i < |g.saves|
  {
    && g.saves[i].reqID == reqID && i < |g.sent|
    && C.HeldBetween(g.initial, g.log, g.sent[i], g.saves[i].snapshot.view)
  }

  ghost predicate Carried(saves: seq<Dispatch>, s: Snapshot) { exists d :: d in saves && d.snapshot == s }

  /** Every write sent since the flow opened is one of its dispatched saves. */
  ghost predicate Accounted(target: Target, from: nat, sends: seq<C.Request>, saves: seq<Dispatch>) {
    && from <= |sends|
    && forall i | from <= i < |sends| :: exists d :: d in saves && sends[i] == RequestOf(target, d.snapshot)
  }

  lemma SeenVersionIsOld(initial: C.State, log: seq<C.Commit>, last: nat, version: nat, view: View)
    requires C.ValidLog(initial, log, last) && C.SeenBetween(initial, log, 0, C.Present(version, view))
    ensures version <= last
  {
    var i :| 0 <= i <= |log| && C.StateAt(initial, log, i) == C.Present(version, view);
    if i > 0 { assert C.ValidCommit(initial, log, i - 1); }
  }

  lemma HeldSinceStays(g: Ground, h: Ground, i: nat, reqID: nat)
    requires g.log <= h.log && h == g.(log := h.log, last := h.last)
    requires i < |g.saves| && HeldSince(g, i, reqID)
    ensures HeldSince(h, i, reqID)
  {
    C.HeldStays(g.initial, g.log, h.log, g.sent[i], g.saves[i].snapshot.view);
  }

  /** Whatever the cluster does, what was read stays part of its history. */
  lemma GroundedStays(g: Ground, h: Ground, jobs: seq<Job>, inbox: seq<Reply>)
    requires g.log <= h.log && g.last <= h.last && h == g.(log := h.log, last := h.last) && Grounded(g, jobs, inbox)
    ensures Grounded(h, jobs, inbox)
  {
    hide Guarded, Read, HeldSince, C.SeenBetween;
    forall d | d in h.saves ensures Read(h.target, h.initial, h.log, d.snapshot.version, d.base) && Guarded(d) {
      ReadStays(g.target, g.initial, g.log, h.log, d.snapshot.version, d.base);
    }
    forall j | j in jobs ensures JobGrounded(h, j) {
      if !j.dryRun {
        var i :| 0 <= i < |g.saves| && SaveIs(g, i, j);
        assert SaveIs(h, i, j);
      }
    }
    forall r | r in inbox ensures ReplyGrounded(h, r) { ReplyStays(g, h, r); }
  }

  lemma ReplyStays(g: Ground, h: Ground, r: Reply)
    requires g.log <= h.log && h == g.(log := h.log, last := h.last) && ReplyGrounded(g, r)
    ensures ReplyGrounded(h, r)
  {
    hide HeldSince;
    if r.outcome.Conflicting? {
      SeenStays(g.initial, g.log, h.log, 0, C.Present(r.outcome.current.version, r.outcome.current.view));
    }
    if r.outcome.Good? && !r.job.dryRun {
      var i :| 0 <= i < |g.saves| && HeldSince(g, i, r.job.reqID);
      HeldSinceStays(g, h, i, r.job.reqID);
    }
  }

  /** A further dry run does not disturb what is in flight. */
  lemma RunKeeps(g: Ground, runs: map<nat, Snapshot>, jobs: seq<Job>, inbox: seq<Reply>)
    requires Grounded(g, jobs, inbox) && KeepsRuns(g.runs, runs)
    ensures Grounded(g.(runs := runs), jobs, inbox)
  {
    hide Guarded, Read, C.HeldBetween, C.SeenBetween;
    var h := g.(runs := runs);
    forall j | j in jobs ensures JobGrounded(h, j) {
      if !j.dryRun {
        var i :| 0 <= i < |g.saves| && SaveIs(g, i, j);
        assert SaveIs(h, i, j);
      }
    }
    forall r | r in inbox ensures ReplyGrounded(h, r) {
      if r.outcome.Good? && !r.job.dryRun {
        var i :| 0 <= i < |g.saves| && HeldSince(g, i, r.job.reqID);
        assert HeldSince(h, i, r.job.reqID);
      }
    }
  }

  /** Nor does a further dispatch. */
  lemma DispatchKeeps(g: Ground, jobs: seq<Job>, inbox: seq<Reply>, d: Dispatch)
    requires Grounded(g, jobs, inbox)
    requires Read(g.target, g.initial, g.log, d.snapshot.version, d.base) && Guarded(d)
    ensures Grounded(g.(saves := g.saves + [d], sent := g.sent + [|g.log|]), jobs, inbox)
  {
    hide Guarded, Read, C.HeldBetween, C.SeenBetween;
    var h := g.(saves := g.saves + [d], sent := g.sent + [|g.log|]);
    forall j | j in jobs ensures JobGrounded(h, j) {
      if !j.dryRun {
        var i :| 0 <= i < |g.saves| && SaveIs(g, i, j);
        assert SaveIs(h, i, j);
      }
    }
    forall r | r in inbox ensures ReplyGrounded(h, r) {
      if r.outcome.Good? && !r.job.dryRun {
        var i :| 0 <= i < |g.saves| && HeldSince(g, i, r.job.reqID);
        assert HeldSince(h, i, r.job.reqID);
      }
    }
  }

  lemma JobDone(g: Ground, jobs: seq<Job>, inbox: seq<Reply>, k: nat, r: Reply)
    requires Grounded(g, jobs, inbox) && k < |jobs| && ReplyGrounded(g, r)
    ensures Grounded(g, jobs[..k] + jobs[k + 1..], inbox + [r])
  {
    hide ReadAll, JobGrounded, ReplyGrounded;
  }

  lemma JobAdded(g: Ground, jobs: seq<Job>, inbox: seq<Reply>, j: Job)
    requires Grounded(g, jobs, inbox) && JobGrounded(g, j)
    ensures Grounded(g, jobs + [j], inbox)
  {
    hide ReadAll, JobGrounded, ReplyGrounded;
  }

  lemma ReplyTaken(g: Ground, jobs: seq<Job>, inbox: seq<Reply>, k: nat)
    requires Grounded(g, jobs, inbox) && k < |inbox|
    ensures Grounded(g, jobs, inbox[..k] + inbox[k + 1..])
  {
    hide ReadAll, JobGrounded, ReplyGrounded;
  }

  lemma AccountedKeeps(target: Target, from: nat, sends: seq<C.Request>, saves: seq<Dispatch>, d: Dispatch)
    requires Accounted(target, from, sends, saves)
    ensures Accounted(target, from, sends, saves + [d])
  {
    hide RequestOf;
    forall i | from <= i < |sends| ensures exists e :: e in saves + [d] && sends[i] == RequestOf(target, e.snapshot) {
      assert exists e :: e in saves && sends[i] == RequestOf(target, e.snapshot);
      var e :| e in saves && sends[i] == RequestOf(target, e.snapshot);
      assert e in saves + [d];
    }
  }

  lemma AccountedSends(target: Target, from: nat, sends: seq<C.Request>, more: seq<C.Request>, saves: seq<Dispatch>,
                       s: Snapshot, limit: nat)
    requires Accounted(target, from, sends, saves) && Carried(saves, s)
    requires S.OnlyRepeats(sends, more, RequestOf(target, s), limit)
    ensures Accounted(target, from, more, saves)
  {
    forall i | from <= i < |more| ensures exists d :: d in saves && more[i] == RequestOf(target, d.snapshot) {
      if i < |sends| { assert more[i] == sends[i]; }
    }
  }

  /** A save that the server answered with success was held after its dispatch. */
  lemma SaveConfirmed(g: Ground, h: Ground, job: Job)
    requires SavedAs(g, job) && h == g.(log := h.log, last := h.last)
    requires C.HeldBetween(h.initial, h.log, |g.log|, job.snapshot.view)
    ensures Confirmed(h, job.reqID)
  {
    var i :| 0 <= i < |g.saves| && SaveIs(g, i, job);
    S.HeldSooner(h.initial, h.log, g.sent[i], |g.log|, job.snapshot.view);
    assert HeldSince(h, i, job.reqID);
  }

  /** What stands behind the flow: its last save was held since it went out, once the flow has
      reported success; before that, the values it edits were read. */
  ghost predicate Solid(g: Ground, saved: bool, version: nat, base: View) {
    if saved then Reported(g) else Read(g.target, g.initial, g.log, version, base)
  }

  /** The object held what the last save carried, at some moment after its dispatch. */
  ghost predicate Reported(g: Ground) {
    && g.saves != [] && |g.sent| == |g.saves|
    && C.HeldBetween(g.initial, g.log, g.sent[|g.sent| - 1], g.saves[|g.saves| - 1].snapshot.view)
  }

  lemma SolidStays(g: Ground, h: Ground, saved: bool, version: nat, base: View)
    requires g.log <= h.log && h == g.(log := h.log, last := h.last) && Solid(g, saved, version, base)
    ensures Solid(h, saved, version, base)
  {
    if saved {
      C.HeldStays(g.initial, g.log, h.log, g.sent[|g.sent| - 1], g.saves[|g.saves| - 1].snapshot.view);
    } else {
      ReadStays(g.target, g.initial, g.log, h.log, version, base);
    }
  }

  // ---------------------------------------------------------------- runs

  class Session {
    const server: C.Server
    const flow: Flow
    var jobs: seq<Job>
    var inbox: seq<Reply>
    /** Every key handed to the flow, every reply, and for every save how long the history of
        the object was when it was dispatched. */
    ghost var presses: seq<Press>
    ghost var answers: seq<Answer>
    ghost var sent: seq<nat>
    /** How many writes had been sent when the flow opened, and how long the history was. */
    ghost const sentBefore: nat
    ghost const openedAt: nat

    ghost function Standing(): Ground
      reads this`sent, server, flow`saves, flow`dryRuns
    {
      Ground(flow.target, server.initial, server.log, server.last, flow.saves, sent, flow.dryRuns)
    }

    ghost predicate InFlight()
      reads this`jobs, this`inbox, this`sent, server, flow`saves, flow`dryRuns
    {
      && Grounded(Standing(), jobs, inbox)
      && Accounted(flow.target, sentBefore, server.sends, flow.saves)
      && openedAt <= |server.log|
      && forall i | 0 <= i < |sent| :: openedAt <= sent[i] <= |server.log|
    }

    /** The flow edits values that were read, and ends saved only when its save was held. */
    ghost predicate OnSolidGround()
      reads this`sent, server, flow`saves, flow`dryRuns, flow`saved, flow`base, flow`res, flow.res
    {
      Solid(Standing(), flow.saved, flow.res.version, flow.base)
    }

    /** Whatever the flow took for agreement, for the typed word and for a check, the user
        pressed or a reply said. */
    ghost predicate Witnessed()
      reads this`presses, this`answers, flow`agreed, flow`saves, flow`phase, flow`done
      reads flow`accepted, flow`gateSkippedDryRun, flow`checked, flow.gate
    {
      && Agreements(presses, answers, flow.agreed, flow.saves)
      && (flow.phase == CommitGate && !flow.done ==>
            Gated(presses, answers, flow.gate.keys, flow.accepted, flow.gateSkippedDryRun, flow.checked))
    }

    ghost predicate Valid()
      reads this, server
      reads flow, flow.res, flow.shared, flow.loader, flow.loader.ids, flow.gate, flow.ring
    {
      server.Valid() && flow.Valid() && InFlight() && OnSolidGround() && Witnessed()
    }

    constructor (server: C.Server, flow: Flow)
      requires server.Valid() && flow.Valid() && !flow.saved && flow.phase != CommitGate
      requires flow.saves == [] && flow.agreed == []
      requires Read(flow.target, server.initial, server.log, flow.res.version, flow.base)
      ensures Valid() && this.server == server && this.flow == flow
      ensures sentBefore == |server.sends| && openedAt == |server.log| && presses == [] && answers == []
    {
      this.server, this.flow, jobs, inbox, presses, answers, sent := server, flow, [], [], [], [], [];
      sentBefore, openedAt := |server.sends|, |server.log|;
    }

    /** Other writers act, and requests sent earlier arrive. */
    method Others()
      requires Valid()
      modifies server
      ensures Valid()
    {
      hide Flow.Valid, Grounded, Solid, Accounted, Witnessed;
      ghost var g := Standing();
      server.Interference();
      ClusterMoved(g);
    }

    lemma ClusterMoved(g: Ground)
      requires g.log <= server.log && g.last <= server.last && Standing() == g.(log := server.log, last := server.last)
      requires Grounded(g, jobs, inbox) && Solid(g, flow.saved, flow.res.version, flow.base)
      ensures Grounded(Standing(), jobs, inbox) && OnSolidGround()
    {
      hide Grounded, Solid;
      GroundedStays(g, Standing(), jobs, inbox);
      SolidStays(g, Standing(), flow.saved, flow.res.version, flow.base);
    }

    // -------------------------------------------------------------- requests

    /** The runtime carries out one of the requests. Its reply, which waits to be delivered, is
        what the server's answers come to. */
    method CarryOut(k: nat)
      requires Valid() && k < |jobs|
      modifies this`jobs, this`inbox, server
      ensures Valid() && jobs == old(jobs)[..k] + old(jobs)[k + 1..] && old(server.trace) <= server.trace
      ensures |inbox| == |old(inbox)| + 1 && inbox[..|old(inbox)|] == old(inbox)
      ensures var r := inbox[|old(inbox)|]; r.job == old(jobs)[k] && Answered(r, old(server.trace), |old(server.log)|)
    {
      hide Flow.Valid, C.Server.Valid, Grounded, OnSolidGround, Accounted, JobGrounded, ReplyGrounded, Witnessed, Told, Met;
      var job := jobs[k];
      JobOnGround(k);
      var outcome := Perform(job);
      JobDone(Standing(), jobs, inbox, k, Reply(job, outcome));
      jobs, inbox := jobs[..k] + jobs[k + 1..], inbox + [Reply(job, outcome)];
    }

    /** The reply says what the server said to its request after these events. */
    ghost predicate Answered(r: Reply, before: seq<C.Event>, from: nat)
      requires before <= server.trace
      reads server
    {
      && Told(flow.target, r.job, S.Since(before, server.trace), r.outcome)
      && Met(flow.target, server.initial, server.log, from, r.job, r.outcome)
    }

    lemma JobOnGround(k: nat)
      requires InFlight() && k < |jobs|
      ensures JobGrounded(Standing(), jobs[k])
    {
      hide JobGrounded, Accounted;
    }

    method Perform(job: Job) returns (outcome: Outcome)
      requires Valid() && JobGrounded(Standing(), job)
      modifies server
      ensures Valid() && ReplyGrounded(Standing(), Reply(job, outcome))
      ensures old(server.trace) <= server.trace && Answered(Reply(job, outcome), old(server.trace), |old(server.log)|)
    {
      hide Flow.Valid, C.Server.Valid, Grounded, Solid, Accounted, SavedAs, RunAs, Confirmed, Witnessed, Resource.View, Told, Met;
      ghost var g := Standing();
      var res := Load(job.snapshot);
      if job.dryRun {
        outcome := DryRun(res, job);
      } else {
        outcome := Save(res, job);
      }
      ClusterMoved(g);
    }

    method Load(s: Snapshot) returns (res: Resource)
      ensures fresh(res) && res.Valid() && res.version == s.version && res.View() == s.view
    {
      res := new Resource(server.kind, s.version, s.view, map[]);
      assert map[] + s.view == s.view;
    }

    method DryRun(res: Resource, job: Job) returns (outcome: Outcome)
      requires server.Valid() && res.Valid() && (flow.target != NewResource ==> res.version <= server.last)
      requires Accounted(flow.target, sentBefore, server.sends, flow.saves) && job.dryRun && RunAs(flow.dryRuns, job)
      requires job.snapshot == Snapshot(res.version, res.View())
      modifies server
      ensures server.Valid() && server.Evolves() && Accounted(flow.target, sentBefore, server.sends, flow.saves)
      ensures ReplyGrounded(Standing(), Reply(job, outcome))
      ensures old(server.trace) <= server.trace && Answered(Reply(job, outcome), old(server.trace), |old(server.log)|)
    {
      hide Accounted, RunAs, C.Server.Valid, C.AdmittedBetween, S.DryRunFollowsFrom, S.DryCreateFollowsFrom;
      var result;
      if flow.target == NewResource {
        result := S.DryRunCreate(server, res);
      } else {
        result := S.DryRunSave(server, res);
      }
      match result {
        case Accepts => outcome := Good;
        case Rejects => outcome := Denied;
        case Unsupported => outcome := Missing;
        case DryRunConflict(current) =>
          S.SeenSooner(server.initial, server.log, 0, |old(server.log)|, C.Present(current.version, current.View()));
          outcome := Conflicting(Snapshot(current.version, current.View()));
        case DryRunFailed => outcome := Bad;
      }
    }

    method Save(res: Resource, job: Job) returns (outcome: Outcome)
      requires server.Valid() && res.Valid() && (flow.target != NewResource ==> res.version <= server.last)
      requires Accounted(flow.target, sentBefore, server.sends, flow.saves)
      requires !job.dryRun && SavedAs(Standing(), job) && job.snapshot == Snapshot(res.version, res.View())
      modifies server
      ensures server.Valid() && server.Evolves() && Accounted(flow.target, sentBefore, server.sends, flow.saves)
      ensures ReplyGrounded(Standing(), Reply(job, outcome))
      ensures old(server.trace) <= server.trace && Answered(Reply(job, outcome), old(server.trace), |old(server.log)|)
    {
      hide Accounted, SavedAs, Confirmed, Carried, S.FollowsFrom, S.CreateFollowsFrom, C.Server.Valid, Resource.View;
      ghost var g := Standing();
      var result := Submit(res, job);
      match result {
        case Succeeded =>
          SaveConfirmed(g, Standing(), job);
          outcome := Good;
        case Conflict(cluster) =>
          S.SeenSooner(server.initial, server.log, 0, |old(server.log)|, C.Present(cluster.version, cluster.View()));
          outcome := Conflicting(Snapshot(cluster.version, cluster.View()));
        case Forbidden => outcome := Denied;
        case Failed => outcome := Bad;
      }
    }

    /** Calls the client: a new resource is created, any other is updated. */
    method Submit(res: Resource, job: Job) returns (result: S.SaveResult)
      requires server.Valid() && res.Valid() && (flow.target != NewResource ==> res.version <= server.last)
      requires Accounted(flow.target, sentBefore, server.sends, flow.saves)
      requires SavedAs(Standing(), job) && job.snapshot == Snapshot(res.version, res.View())
      modifies server
      ensures server.Valid() && server.Evolves() && Accounted(flow.target, sentBefore, server.sends, flow.saves)
      ensures S.Truthful(server.initial, server.log, |old(server.log)|, result, res)
      ensures result.Conflict? ==> fresh(result.cluster) && flow.target != NewResource
      ensures old(server.trace) <= server.trace
      ensures flow.target == NewResource ==>
                S.CreateFollowsFrom(S.Since(old(server.trace), server.trace), job.snapshot.view, S.VerdictOf(result))
      ensures flow.target != NewResource ==>
                S.FollowsFrom(S.Since(old(server.trace), server.trace), job.snapshot.version, job.snapshot.view, S.VerdictOf(result))
    {
      hide Accounted, SavedAs, Carried, S.OnlyRepeats, S.FollowsFrom, S.CreateFollowsFrom, S.VerdictOf, C.Server.Valid,
           C.HeldBetween, Resource.View;
      JobCarried(job);
      if flow.target == NewResource {
        result := S.Create(server, res);
        AccountedSends(flow.target, sentBefore, old(server.sends), server.sends, flow.saves, job.snapshot, 1);
      } else {
        result := S.Save(server, res);
        AccountedSends(flow.target, sentBefore, old(server.sends), server.sends, flow.saves, job.snapshot, S.MAX_ATTEMPTS);
      }
    }

    lemma JobCarried(job: Job)
      requires SavedAs(Standing(), job)
      ensures Carried(flow.saves, job.snapshot)
    {
      var i :| 0 <= i < |flow.saves| && SaveIs(Standing(), i, job);
      assert flow.saves[i] in flow.saves;
    }

    // -------------------------------------------------------------- messages

    /** The flow takes one message; what it asks for becomes a request to carry out, with the
        values the flow holds. */
    method Hand(msg: Message) returns (cmd: Command)
      requires Valid() && !flow.done && flow.Deliverable(msg) && Supported(msg)
      modifies this`jobs, this`presses, this`sent, flow, flow.res, flow.loader, flow.loader.ids, flow.gate, flow.ring
      ensures Valid() && flow.Moved(old(flow.res), old(flow.base), ClusterIn(msg))
      ensures jobs == old(jobs) + if cmd.SubmitDryRun? then [Job(cmd.reqID, flow.Now(), true)]
                                  else if cmd.SubmitSave? then [Job(cmd.reqID, flow.Now(), false)] else []
      ensures msg.Pressed? ==> flow.KeyLed(msg.key, old(flow.phase), WordTyped(old(flow.gate.keys)), cmd)
      ensures flow.ReplyLed(msg, old(flow.Awaits(msg)), old(flow.res))
      ensures !msg.Pressed? && !msg.EditorFinished? && !old(flow.Awaits(msg)) ==> unchanged(flow)
    {
      hide Flow.Valid, C.Server.Valid, Grounded, Accounted, Solid, Witnessed, KeepsRuns, Supported,
           Flow.Deliverable, ClusterIn, Resource.View, Flow.ReplyLed, Flow.Awaits, Flow.Moved, Flow.KeyLed, WordTyped;
      ghost var before := Standing();
      cmd := Feed(msg);
      ghost var g := before.(runs := flow.dryRuns);
      RunKeeps(before, flow.dryRuns, jobs, inbox);
      match cmd {
        case SubmitDryRun(reqID, snapshot, _) =>
          var job := Job(reqID, Snapshot(snapshot.version, snapshot.View()), true);
          Submitted(job);
          jobs := jobs + [job];
        case SubmitSave(reqID, snapshot, _) =>
          var job := Job(reqID, Snapshot(snapshot.version, snapshot.View()), false);
          Saving(g, job);
          jobs, sent := jobs + [job], sent + [|server.log|];
        case _ =>
      }
    }

    method Feed(msg: Message) returns (cmd: Command)
      requires Valid() && !flow.done && flow.Deliverable(msg) && Supported(msg)
      modifies this`presses, flow, flow.res, flow.loader, flow.loader.ids, flow.gate, flow.ring
      ensures flow.Valid() && OnSolidGround() && Witnessed() && flow.Moved(old(flow.res), old(flow.base), ClusterIn(msg))
      ensures KeepsRuns(old(flow.dryRuns), flow.dryRuns)
      ensures if cmd.SubmitSave? then OneMore(old(flow.saves), cmd) else flow.saves == old(flow.saves)
      ensures cmd.SubmitDryRun? ==> !flow.saved && flow.ChecksNow(cmd)
      ensures msg.Pressed? ==> flow.KeyLed(msg.key, old(flow.phase), WordTyped(old(flow.gate.keys)), cmd)
      ensures flow.ReplyLed(msg, old(flow.Awaits(msg)), old(flow.res))
      ensures !msg.Pressed? && !msg.EditorFinished? && !old(flow.Awaits(msg)) ==> unchanged(flow)
    {
      hide Flow.Valid, C.Server.Valid, InFlight, Confirmed, KeepsRuns, Solid, OnSolidGround, OneMore, Agreements, Gated,
           CheckedAt, Took, GateTook, Flow.ShownEdit, Flow.ChecksNow, Flow.Deliverable, Flow.ReplyLed, Flow.Awaits, Flow.Moved,
           Flow.KeyLed, WordTyped;
      ghost var g := Standing();
      ghost var p := Press(if msg.Pressed? then msg.key else OtherKey, flow.phase, flow.ShownEdit());
      ghost var was := Consent(flow.agreed, flow.saves, flow.gate.keys, flow.accepted, flow.gateSkippedDryRun, flow.checked);
      cmd := Tell(msg, p, was);
      Witnesses(msg, p, was);
      if flow.phase == CommitGate && !flow.done { GateWitnessed(g, msg, p, was); }
      presses := PressesAfter(msg, p);
    }

    /** The flow takes the message, which is all that changes what it has on record. */
    method Tell(msg: Message, ghost p: Press, ghost was: Consent) returns (cmd: Command)
      requires Valid() && !flow.done && flow.Deliverable(msg) && Supported(msg)
      requires p == Press(if msg.Pressed? then msg.key else OtherKey, flow.phase, flow.ShownEdit())
      requires was == Consent(flow.agreed, flow.saves, flow.gate.keys, flow.accepted, flow.gateSkippedDryRun, flow.checked)
      modifies flow, flow.res, flow.loader, flow.loader.ids, flow.gate, flow.ring
      ensures flow.Valid() && OnSolidGround() && flow.Moved(old(flow.res), old(flow.base), ClusterIn(msg))
      ensures KeepsRuns(old(flow.dryRuns), flow.dryRuns) && Took(msg, p, was)
      ensures flow.phase == CommitGate && !flow.done ==> GateTook(msg, p, was)
      ensures if cmd.SubmitSave? then OneMore(old(flow.saves), cmd) else flow.saves == old(flow.saves)
      ensures cmd.SubmitDryRun? ==> !flow.saved && flow.ChecksNow(cmd)
      ensures msg.Pressed? ==> flow.KeyLed(msg.key, old(flow.phase), WordTyped(old(flow.gate.keys)), cmd)
      ensures flow.ReplyLed(msg, old(flow.Awaits(msg)), old(flow.res))
      ensures !msg.Pressed? && !msg.EditorFinished? && !old(flow.Awaits(msg)) ==> unchanged(flow)
    {
      hide Flow.Valid, C.Server.Valid, InFlight, Read, Confirmed, Solid, KeepsRuns, LastRemembers, Witnessed,
           CheckedAt, Flow.LastSaveIs, Flow.Moved, Flow.ShownEdit, Flow.CheckedBy, Flow.ChecksNow, Resource.View,
           Flow.ReplyLed, Flow.Awaits, Flow.KeyLed, Flow.EditorLed, WordTyped;
      flow.UnsavedAtGate();
      SentForEach();
      ghost var g := Standing();
      cmd := flow.Update(msg);
      SolidAfter(g, msg, old(flow.saved), old(flow.res), old(flow.base));
    }

    /** What changed in the record of consent: a diff agreed to, or a save confirmed. */
    ghost predicate Took(msg: Message, p: Press, was: Consent)
      reads flow`agreed, flow`saves
    {
      && (flow.agreed == was.agreed
          || (msg.Pressed? && AcceptsDiff(p.key, p.phase) && flow.agreed == was.agreed + [p.shown]))
      && (flow.saves == was.saves
          || (msg == Pressed(Enter) && p.phase == CommitGate && p.shown == was.edit && SavedAlso(was)))
    }

    /** The gate was open and is, with at most one more key typed into it; or the message has
        opened it: a Y past an unsupported dry run, or an accepting reply. */
    ghost predicate GateTook(msg: Message, p: Press, was: Consent)
      reads flow`accepted, flow`gateSkippedDryRun, flow`checked, flow`dryRuns, flow.gate
      reads flow`original, flow`edited, flow`originalMap, flow`editedMap
    {
      && (msg.Pressed? ==> p.shown == flow.ShownEdit())
      && if p.phase == CommitGate then
           && flow.gate.keys == (if msg.Pressed? then was.typed + [msg.key] else was.typed)
           && flow.accepted == was.edit && flow.gateSkippedDryRun == was.skipped && flow.checked == was.checked
         else
           && flow.gate.keys == []
           && if flow.gateSkippedDryRun then msg == Pressed(Char('Y')) && p.phase == DryRunUnsupported
              else flow.CheckedBy(msg)
    }

    /** Success is reported only for the last save, and only when it was held. */
    lemma SuccessReported(g: Ground, reqID: nat)
      requires flow.Valid() && flow.LastSaveIs(reqID) && g.saves == flow.saves && |g.sent| == |g.saves| && Confirmed(g, reqID)
      ensures Reported(g)
    {
      hide Flow.Valid, C.HeldBetween;
      flow.SavesHaveOwnIds();
      var i :| 0 <= i < |g.saves| && HeldSince(g, i, reqID);
      assert i == |g.saves| - 1;
    }

    /** The flow moves only to values that were read, and reports only a save that was held. */
    lemma SolidAfter(g: Ground, msg: Message, wasSaved: bool, res: Resource, base: View)
      requires flow.Valid() && Solid(g, wasSaved, res.version, base) && flow.Moved(res, base, ClusterIn(msg))
      requires ClusterIn(msg) == Some(flow.res) ==> Read(g.target, g.initial, g.log, flow.res.version, flow.res.View())
      requires Standing() == g.(saves := flow.saves, runs := flow.dryRuns) && |g.sent| == |g.saves|
      requires (wasSaved ==> flow.saved) && (flow.saved ==> flow.saves == g.saves)
      requires flow.saved && !wasSaved ==> msg.SaveDone? && flow.LastSaveIs(msg.reqID) && Confirmed(g, msg.reqID)
      ensures OnSolidGround()
    {
      hide Flow.Valid, Read, Confirmed, C.HeldBetween, Flow.LastSaveIs, ClusterIn, Resource.View;
      if flow.saved && !wasSaved { SuccessReported(g, msg.reqID); }
    }

    /** What opens the gate on a reply is that reply's acceptance. */
    lemma CheckStands(g: Ground, msg: Message)
      requires msg.DryRunDone? && msg.dryRun == DryRunOK ==>
                 msg.reqID in g.runs && CheckedAt(answers, |presses|, g.runs[msg.reqID])
      requires KeepsRuns(g.runs, flow.dryRuns) && flow.CheckedBy(msg)
      ensures !msg.Pressed? && flow.checked.Some? && CheckedAt(answers, |presses|, flow.checked.value)
    {
      hide CheckedAt;
    }

    ghost function PressesAfter(msg: Message, p: Press): seq<Press>
      reads this`presses
    {
      if msg.Pressed? then presses + [p] else presses
    }

    /** What the flow takes from one message for agreement is the key that was pressed, and for
        a check the reply that came. */
    lemma Witnesses(msg: Message, p: Press, was: Consent)
      requires Agreements(presses, answers, was.agreed, was.saves) && (msg.Pressed? ==> p.key == msg.key)
      requires p.phase == CommitGate ==> Gated(presses, answers, was.typed, was.edit, was.skipped, was.checked)
      requires Took(msg, p, was)
      ensures Agreements(PressesAfter(msg, p), answers, flow.agreed, flow.saves)
    {
      hide Agreements, AcceptsDiff, Gated;
      if msg.Pressed? { PressAgrees(presses, answers, p, was.agreed, was.saves, flow.agreed, flow.saves); }
    }

    lemma GateWitnessed(g: Ground, msg: Message, p: Press, was: Consent)
      requires flow.Valid() && !flow.done && flow.phase == CommitGate
      requires Agreements(PressesAfter(msg, p), answers, flow.agreed, flow.saves) && (msg.Pressed? ==> p.key == msg.key)
      requires msg.DryRunDone? && msg.dryRun == DryRunOK ==>
                 msg.reqID in g.runs && CheckedAt(answers, |presses|, g.runs[msg.reqID])
      requires p.phase == CommitGate ==> Gated(presses, answers, was.typed, was.edit, was.skipped, was.checked)
      requires KeepsRuns(g.runs, flow.dryRuns) && GateTook(msg, p, was)
      ensures Gated(PressesAfter(msg, p), answers, flow.gate.keys, flow.accepted, flow.gateSkippedDryRun, flow.checked)
    {
      hide Flow.Valid, AcceptedBy, Gated, CheckedAt, KeepsRuns, Flow.ShownEdit, Flow.CheckedBy;
      flow.GateStands();
      if p.phase == CommitGate {
        if msg.Pressed? { GatedMore(presses, answers, p, was.typed, was.edit, was.skipped, was.checked); }
      } else {
        if !flow.gateSkippedDryRun { CheckStands(g, msg); }
        var more := PressesAfter(msg, p);
        assert more[..|more|] == more;
        GateOpens(more, answers, flow.accepted, flow.gateSkippedDryRun, flow.checked);
      }
    }

    ghost predicate SavedAlso(was: Consent)
      reads flow`saves
    {
      exists d :: flow.saves == was.saves + [d]
        && d.edit == was.edit && d.typed == was.typed && d.skippedDryRun == was.skipped && d.checked == was.checked
    }

    ghost predicate OneMore(before: seq<Dispatch>, cmd: Command)
      reads flow`saves, flow`base, flow`saved, flow`res, flow.res, if cmd.SubmitSave? then {cmd.snapshot} else {}
    {
      && cmd.SubmitSave? && !flow.saved && flow.CarriesNow(cmd.snapshot)
      && |flow.saves| == |before| + 1 && flow.saves[..|before|] == before
      && var d := flow.saves[|before|]; d.reqID == cmd.reqID && d.snapshot == flow.Now() && d.base == flow.base
    }

    /** What a message claims about the cluster is so. */
    ghost predicate Supported(msg: Message)
      reads this`sent, this`presses, this`answers, server, flow`saves, flow`dryRuns
      reads if ClusterIn(msg).Some? then {ClusterIn(msg).value} else {}
    {
      && (ClusterIn(msg).Some? ==> var c := ClusterIn(msg).value;
          Read(flow.target, server.initial, server.log, c.version, c.View()))
      && (msg.SaveDone? && msg.save == SaveSucceeded ==> Confirmed(Standing(), msg.reqID))
      && (msg.DryRunDone? && msg.dryRun == DryRunOK ==>
            msg.reqID in flow.dryRuns && CheckedAt(answers, |presses|, flow.dryRuns[msg.reqID]))
    }

    lemma Submitted(job: Job)
      requires server.Valid() && OnSolidGround() && !flow.saved && Grounded(Standing(), jobs, inbox)
      requires job.dryRun && job.snapshot == flow.Now() && RunAs(flow.dryRuns, job)
      ensures Grounded(Standing(), jobs + [job], inbox)
    {
      hide Grounded;
      if flow.target != NewResource {
        SeenVersionIsOld(server.initial, server.log, server.last, flow.res.version, flow.base);
      }
      JobAdded(Standing(), jobs, inbox, job);
    }

    lemma Saving(g: Ground, job: Job)
      requires server.Valid() && flow.Valid() && Solid(Standing(), flow.saved, flow.res.version, flow.base) && !flow.saved
      requires !job.dryRun && job.snapshot == flow.Now()
      requires Grounded(g, jobs, inbox) && Accounted(flow.target, sentBefore, server.sends, g.saves)
      requires g == Standing().(saves := g.saves)
      requires |flow.saves| == |g.saves| + 1 && flow.saves[..|g.saves|] == g.saves
      requires var d := flow.saves[|g.saves|]; d.reqID == job.reqID && d.snapshot == job.snapshot && d.base == flow.base
      ensures Grounded(Standing().(sent := sent + [|server.log|]), jobs + [job], inbox)
      ensures Accounted(flow.target, sentBefore, server.sends, flow.saves)
      ensures Solid(Standing().(sent := sent + [|server.log|]), flow.saved, flow.res.version, flow.base)
    {
      hide Flow.Valid, Grounded, Accounted, Guarded, Read, Reported, JobGrounded;
      var d := flow.saves[|g.saves|];
      assert flow.saves == g.saves + [d];
      flow.SavesAreGuarded();
      DispatchKeeps(g, jobs, inbox, d);
      AccountedKeeps(flow.target, sentBefore, server.sends, g.saves, d);
      var h := g.(saves := flow.saves, sent := sent + [|server.log|]);
      GroundedSent(g, jobs, inbox);
      SavedJob(g, h, job);
      JobAdded(h, jobs, inbox, job);
    }

    lemma SentForEach()
      requires InFlight()
      ensures |sent| == |flow.saves|
    {
    }

    lemma GroundedSent(g: Ground, jobs: seq<Job>, inbox: seq<Reply>)
      requires Grounded(g, jobs, inbox)
      ensures |g.sent| == |g.saves|
    {
    }

    lemma SavedJob(g: Ground, h: Ground, job: Job)
      requires server.Valid() && |g.sent| == |g.saves| && h == g.(saves := flow.saves, sent := g.sent + [|g.log|])
      requires g == Standing().(saves := g.saves) && |flow.saves| == |g.saves| + 1
      requires flow.saves[|g.saves|].reqID == job.reqID && flow.saves[|g.saves|].snapshot == job.snapshot == flow.Now() && !job.dryRun
      requires Read(flow.target, server.initial, server.log, flow.res.version, flow.base)
      ensures JobGrounded(h, job)
    {
      assert SaveIs(h, |g.saves|, job);
      if flow.target != NewResource {
        SeenVersionIsOld(server.initial, server.log, server.last, flow.res.version, flow.base);
      }
    }

    /** The message a reply reaches the flow as. */
    method MessageOf(r: Reply) returns (msg: Message)
      requires ReplyGrounded(Standing(), r)
      requires r.job.dryRun && r.outcome.Good? ==> CheckedAt(answers, |presses|, r.job.snapshot)
      ensures flow.Deliverable(msg) && Supported(msg)
      ensures ClusterIn(msg).Some? ==> fresh(ClusterIn(msg).value)
      ensures Carries(msg, r)
    {
      hide Confirmed, CheckedAt, Resource.View, C.SeenBetween;
      var cluster := None;
      if r.outcome.Conflicting? {
        var c := Load(r.outcome.current);
        cluster := Some(c);
      }
      msg := if r.job.dryRun then DryRunDone(r.job.reqID, DryRunAnswer(r.outcome, cluster))
             else SaveDone(r.job.reqID, SaveAnswer(r.outcome, cluster));
    }

    /** The message is this reply, with the object of a conflict made anew. */
    ghost predicate Carries(msg: Message, r: Reply)
      reads if ClusterIn(msg).Some? then {ClusterIn(msg).value} else {}
    {
      && msg == (if r.job.dryRun then DryRunDone(r.job.reqID, DryRunAnswer(r.outcome, ClusterIn(msg)))
                 else SaveDone(r.job.reqID, SaveAnswer(r.outcome, ClusterIn(msg))))
      && if r.outcome.Conflicting? then
           ClusterIn(msg).Some? && var c := ClusterIn(msg).value; Snapshot(c.version, c.View()) == r.outcome.current
         else ClusterIn(msg).None?
    }

    /** The flow waits for this reply. */
    ghost predicate Expects(r: Reply)
      reads flow`phase, flow.loader
    {
      && flow.loader.pending && r.job.reqID == flow.loader.reqID
      && flow.phase == if r.job.dryRun then EditFlow.DryRun else EditFlow.Saving
    }

    /** Where the reply the flow waited for has led it. */
    ghost predicate AnswerLed(r: Reply, was: Resource)
      reads flow`res, flow.res, flow`base, flow`phase, flow`applied, flow`saved, flow`done
    {
      && (flow.saved <==> !r.job.dryRun && r.outcome.Good?)
      && (flow.done ==> flow.saved)
      && match r.outcome
         case Good => flow.res == was && (r.job.dryRun ==> flow.phase == CommitGate && flow.applied)
         case Conflicting(current) =>
           && Snapshot(flow.res.version, flow.res.View()) == current && flow.base == current.view
           && !flow.applied && (flow.phase == EditFlow.Conflict || flow.phase == BinaryCollision)
         case Denied => flow.res == was && flow.phase == if r.job.dryRun then DryRunRejected else Forbidden
         case Missing => flow.res == was && flow.phase == if r.job.dryRun then DryRunUnsupported else Diff
         case Bad => flow.res == was && flow.phase == Diff
    }

    lemma InboxGrounded(k: nat)
      requires InFlight() && k < |inbox|
      ensures ReplyGrounded(Standing(), inbox[k])
    {
      hide Accounted, ReplyGrounded;
    }

    /** Takes a waiting reply, which is on record from now on. */
    method TakeReply(k: nat) returns (r: Reply)
      requires Valid() && k < |inbox|
      modifies this`inbox, this`answers
      ensures Valid() && ReplyGrounded(Standing(), r) && r == old(inbox)[k]
      ensures inbox == old(inbox)[..k] + old(inbox)[k + 1..]
      ensures r.job.dryRun && r.outcome.Good? ==> CheckedAt(answers, |presses|, r.job.snapshot)
    {
      hide Flow.Valid, C.Server.Valid, Grounded, Accounted, OnSolidGround, ReplyGrounded, Agreements, Gated;
      InboxGrounded(k);
      ReplyTaken(Standing(), jobs, inbox, k);
      r := inbox[k];
      inbox := inbox[..k] + inbox[k + 1..];
      AgreementsStay(presses, presses, answers, answers + [Answer(r, |presses|)], flow.agreed, flow.saves);
      if flow.phase == CommitGate && !flow.done {
        GatedStays(presses, answers, answers + [Answer(r, |presses|)], flow.gate.keys, flow.accepted, flow.gateSkippedDryRun, flow.checked);
      }
      answers := answers + [Answer(r, |presses|)];
      assert answers[|answers| - 1] == Answer(r, |presses|);
    }

    /** One of the waiting replies arrives: the one the flow waits for leads it on, any other
        changes nothing. */
    method Deliver(k: nat)
      requires Valid() && !flow.done && k < |inbox|
      modifies this, flow, flow.res, flow.loader, flow.loader.ids, flow.gate, flow.ring
      ensures Valid() && (flow.res == old(flow.res) || fresh(flow.res))
      ensures if old(Expects(inbox[k])) then AnswerLed(old(inbox)[k], old(flow.res)) else unchanged(flow)
    {
      hide Supported, Flow.Deliverable, ReplyGrounded, CheckedAt, Carries, AnswerLed, Flow.ReplyLed, Expects, Flow.Awaits,
           Flow.Valid, C.Server.Valid, InFlight, OnSolidGround, Witnessed;
      var r := TakeReply(k);
      var msg := MessageOf(r);
      ghost var was, expected := flow.res, Expects(r);
      ExpectsIs(msg, r);
      var _ := Hand(msg);
      if expected { Arrived(msg, r, was, old(flow.base)); }
    }

    lemma ExpectsIs(msg: Message, r: Reply)
      requires Carries(msg, r)
      ensures !msg.Pressed? && !msg.EditorFinished? && (flow.Awaits(msg) <==> Expects(r))
    {
    }

    lemma Arrived(msg: Message, r: Reply, was: Resource, base: View)
      requires Carries(msg, r) && flow.ReplyLed(msg, true, was) && flow.Moved(was, base, ClusterIn(msg))
      requires ClusterIn(msg) != Some(was)
      ensures AnswerLed(r, was)
    {
    }

    // -------------------------------------------------------------- whole runs

    /** Every write of the flow that took effect, whenever it landed, is a diff the user
        accepted by Y and then, past an accepted dry run of exactly these values or by Y past
        an unsupported one, confirmed by the typed word with that diff on show; and it is
        applied to the values it was shown against. */
    ghost predicate LandedAsAccepted()
      reads this, server, flow`saves
    {
      sentBefore <= |server.sends| &&
      forall i | 0 <= i < |server.log| && server.log[i].author.Ours? && server.log[i].author.request !in server.sends[..sentBefore] ::
        exists d :: d in flow.saves && LandedOne(flow.target, presses, answers, server.log[i], d)
    }

    lemma SavesLandAsAccepted()
      requires Valid()
      ensures LandedAsAccepted()
    {
      forall i | 0 <= i < |server.log| && server.log[i].author.Ours? && server.log[i].author.request !in server.sends[..sentBefore]
        ensures exists d :: d in flow.saves && LandedOne(flow.target, presses, answers, server.log[i], d)
      {
        var k :| 0 <= k < |server.sends| && server.sends[k] == server.log[i].author.request;
        var d :| d in flow.saves && server.sends[k] == RequestOf(flow.target, d.snapshot);
        SaveLandsAsAccepted(server.initial, server.log, server.last, i, flow.target, d);
        flow.SavesAreGuarded();
      }
    }

    /** One step of anybody: the user, the editor, the runtime, the cluster. */
    method Step()
      requires Valid()
      modifies this, server, flow, flow.res, flow.loader, flow.loader.ids, flow.gate, flow.ring
      ensures Valid() && (flow.res == old(flow.res) || fresh(flow.res))
    {
      hide Flow.Valid, C.Server.Valid, InFlight, OnSolidGround, Witnessed, Read, Confirmed, CheckedAt, Resource.View;
      if * {
        Others();
      } else if * {
        if jobs != [] {
          var k :| 0 <= k < |jobs|;
          CarryOut(k);
        }
      } else if !flow.done {
        if * {
          var key: KeyPress :| true;
          var _ := Hand(Pressed(key));
        } else if * {
          var outcome: EditorOutcome :| true;
          if flow.phase == Editing { var _ := Hand(EditorFinished(outcome)); }
        } else if inbox != [] {
          var k :| 0 <= k < |inbox|;
          Deliver(k);
        }
      }
    }

    /** Any run, of any length. Saves land only as accepted; when the flow has reported
        success, the cluster held what its last save carried, after that save was dispatched; a flow that ends without success leaves the
        parent's resource as it was. */
    method Run(steps: nat)
      requires Valid()
      modifies this, server, flow, flow.res, flow.loader, flow.loader.ids, flow.gate, flow.ring
      ensures Valid() && LandedAsAccepted()
      ensures flow.saved ==> Reported(Standing()) && sent[|sent| - 1] >= openedAt
      ensures flow.done && !flow.saved && Reversible(flow.target, flow.key, flow.sharedView) ==> flow.shared.View() == flow.sharedView
    {
      for n := 0 to steps
        invariant Valid() && (flow.res == old(flow.res) || fresh(flow.res))
      {
        Step();
      }
      SavesLandAsAccepted();
      if flow.done && !flow.saved && Reversible(flow.target, flow.key, flow.sharedView) { flow.LeavesAsOpened(); }
    }
  }

  ghost predicate LandedOne(target: Target, presses: seq<Press>, answers: seq<Answer>, c: C.Commit, d: Dispatch) {
    Guarded(d) && ConfirmedBy(presses, answers, d) && if target == NewResource then Created(c, d) else Landed(c, d)
  }

  function DryRunAnswer(outcome: Outcome, cluster: Option<Resource>): DryRunReply {
    match outcome
    case Good => DryRunOK
    case Conflicting(_) => EditFlow.DryRunConflict(cluster)
    case Denied => Rejected
    case Missing => EditFlow.Unsupported
    case Bad => EditFlow.DryRunFailed
  }

  function SaveAnswer(outcome: Outcome, cluster: Option<Resource>): SaveReply {
    match outcome
    case Good => SaveSucceeded
    case Conflicting(_) => EditFlow.SaveConflict(cluster)
    case Denied => SaveForbidden
    case _ => SaveFailed
  }
}
