/** Collecting a namespace's references: the listings one after the other, and all of them at
    once with their pages arriving in any order. Both build the same index. */
module RefsCollect {
  import opened Values
  import opened RefWalk
  import opened RefIndex
  import opened Sequences
  import opened Loader

  /** What is listed, page by page. */
  datatype Source = OfWorkloads(kind: string) | Pods | Accounts | Existing(kind: string)

  datatype Page = Page(workloads: seq<Workload>, pods: seq<Pod>, accounts: seq<ServiceAccount>, names: seq<string>)

  /** How a listing ends: with its last page, with an error, or because it was cancelled. */
  datatype Ending = Whole | Unlistable | Interrupted

  datatype Feed = Feed(pages: seq<Page>, ending: Ending)

  type Feeds = Source -> Feed

  /** The answer to one request. `next` is where to go on; 0 after the last page. */
  datatype Reply = Got(page: Page, next: nat) | Failure | Canceled

  function Fetch(feed: Feed, token: nat): Reply {
    if token < |feed.pages| then
      Got(feed.pages[token], if token + 1 < |feed.pages| || feed.ending != Whole then token + 1 else 0)
    else if feed.ending == Interrupted then Canceled
    else Failure
  }

  predicate IsSource(s: Source, existence: bool) {
    match s
    case OfWorkloads(kind) => kind in WORKLOAD_KINDS
    case Existing(kind) => existence && (kind == KIND_SECRET || kind == KIND_CONFIG_MAP)
    case _ => true
  }

  function SourceName(s: Source): string {
    match s
    case Pods => "pods"
    case Accounts => "serviceaccounts"
    case Existing(kind) => if kind == KIND_SECRET then "secrets" else "configmaps"
    case OfWorkloads(kind) =>
      if kind == "Deployment" then "deployments"
      else if kind == "StatefulSet" then "statefulsets"
      else if kind == "DaemonSet" then "daemonsets"
      else if kind == "Job" then "jobs"
      else if kind == "CronJob" then "cronjobs"
      else "workloads"
  }

  /** What is listed, as its kind is written. */
  function KindOf(s: Source): string {
    match s case Pods => "Pod" case Accounts => "ServiceAccount" case Existing(kind) => kind case OfWorkloads(kind) => kind
  }

  function LowerChar(c: char): char { if 'A' <= c <= 'Z' then c - 'A' + 'a' else c }

  function Lower(s: string): (r: string)
    ensures |r| == |s| && forall i | 0 <= i < |s| :: r[i] == LowerChar(s[i])
  {
    seq(|s|, i requires 0 <= i < |s| => LowerChar(s[i]))
  }

  /** A listing goes by the plural of its kind in lower case. */
  lemma SourceNamed(s: Source)
    requires IsSource(s, true)
    ensures SourceName(s) == Lower(KindOf(s)) + "s"
  {
    hide Lower;
    LowerOf("Pod", "pod");
    LowerOf("ServiceAccount", "serviceaccount");
    LowerOf(KIND_SECRET, "secret");
    LowerOf(KIND_CONFIG_MAP, "configmap");
    LowerOf("Deployment", "deployment");
    LowerOf("StatefulSet", "statefulset");
    LowerOf("DaemonSet", "daemonset");
    LowerOf("Job", "job");
    LowerOf("CronJob", "cronjob");
    hide LowerChar;
  }

  lemma LowerOf(s: string, lower: string)
    requires |lower| == |s| && forall i | 0 <= i < |s| :: lower[i] == LowerChar(s[i])
    ensures Lower(s) == lower
  {
  }

  /** No two listings go by the same name. */
  lemma SourceNamesDiffer(s: Source, t: Source)
    requires IsSource(s, true) && IsSource(t, true) && SourceName(s) == SourceName(t)
    ensures s == t
  {
    assert "jobs"[0] != "pods"[0];
    assert "daemonsets"[0] != "configmaps"[0];
  }

  // ---------------------------------------------------------------- what pages amount to

  function WorkloadsOn(page: Page): seq<IndexedWorkload> { Gather(IndexWorkload, page.workloads) }

  function PodsOn(page: Page): seq<IndexedPod> { Gather(IndexPod, page.pods) }

  function AccountsOn(pages: seq<Page>): map<string, ServiceAccount> {
    if pages == [] then map[] else WithAccounts(AccountsOn(pages[..|pages| - 1]), pages[|pages| - 1].accounts)
  }

  function NamesOn(pages: seq<Page>): set<string> {
    if pages == [] then {} else NamesOn(pages[..|pages| - 1]) + NonEmpty(pages[|pages| - 1].names)
  }

  function OfKind(workloads: seq<IndexedWorkload>, kind: string): seq<IndexedWorkload> {
    if workloads == [] then []
    else
      var w := workloads[|workloads| - 1];
      OfKind(workloads[..|workloads| - 1], kind) + (if w.workload.kind == kind then [w] else [])
  }

  function Known(c: Contents, kind: string): set<string> { if kind in c.existing then c.existing[kind] else {} }

  /** What one page adds to an index. */
  function Absorb(c: Contents, s: Source, page: Page, last: bool): Contents {
    match s
    case OfWorkloads(_) => c.(workloads := c.workloads + WorkloadsOn(page))
    case Pods => c.(pods := c.pods + PodsOn(page))
    case Accounts => c.(accounts := WithAccounts(c.accounts, page.accounts))
    case Existing(kind) => c.(known := c.known + (if last then {kind} else {}),
                              existing := c.existing[kind := Known(c, kind) + NonEmpty(page.names)])
  }

  /** How many pages of each listing have arrived. */
  type Progress = map<Source, nat>

  function Taken(taken: Progress, s: Source): nat { if s in taken then taken[s] else 0 }

  /** The pages of `s` that have arrived. */
  function Arrived(feeds: Feeds, taken: Progress, s: Source): seq<Page> {
    if Taken(taken, s) <= |feeds(s).pages| then feeds(s).pages[..Taken(taken, s)] else feeds(s).pages
  }

  /** The index holds what has arrived, each listing in its own order. */
  ghost predicate Holds(c: Contents, feeds: Feeds, taken: Progress) {
    && (forall w | w in c.workloads :: w.workload.kind in WORKLOAD_KINDS)
    && (forall kind | kind in WORKLOAD_KINDS :: OfKind(c.workloads, kind) == Gather(WorkloadsOn, Arrived(feeds, taken, OfWorkloads(kind))))
    && c.pods == Gather(PodsOn, Arrived(feeds, taken, Pods))
    && c.accounts == AccountsOn(Arrived(feeds, taken, Accounts))
    && (forall kind :: Known(c, kind) == NamesOn(Arrived(feeds, taken, Existing(kind))))
  }

  /** Listings that have not ended are the open ones. */
  ghost predicate Counted(feeds: Feeds, existence: bool, taken: Progress, open: set<Source>) {
    && (forall s | s in open :: IsSource(s, existence))
    && (forall s :: Taken(taken, s) <= |feeds(s).pages|)
    && (forall s | s in open :: Taken(taken, s) < |feeds(s).pages| || feeds(s).ending != Whole)
    && (forall s | IsSource(s, existence) && s !in open :: Taken(taken, s) == |feeds(s).pages| && feeds(s).ending != Interrupted)
    && (forall s | !IsSource(s, existence) :: Taken(taken, s) == 0)
  }

  predicate Failed(s: Source, feeds: Feeds, existence: bool, open: set<Source>) {
    IsSource(s, existence) && s !in open && feeds(s).ending == Unlistable
  }

  /** The listings that failed are reported, each once. */
  ghost predicate Reported(failed: seq<string>, feeds: Feeds, existence: bool, open: set<Source>) {
    && (forall i, j | 0 <= i < j < |failed| :: failed[i] != failed[j])
    && (forall name | name in failed :: exists s :: Failed(s, feeds, existence, open) && SourceName(s) == name)
    && (forall s | Failed(s, feeds, existence, open) :: SourceName(s) in failed)
  }

  /** Existence is known of the kinds whose listing ended with its last page. */
  ghost predicate Established(known: set<string>, feeds: Feeds, existence: bool, open: set<Source>) {
    forall kind :: kind in known <==>
      IsSource(Existing(kind), existence) && Existing(kind) !in open && feeds(Existing(kind)).ending == Whole
  }

  ghost predicate Consistent(c: Contents, feeds: Feeds, existence: bool, taken: Progress, open: set<Source>) {
    && Holds(c, feeds, taken)
    && Counted(feeds, existence, taken, open)
    && Reported(c.failed, feeds, existence, open)
    && Established(c.known, feeds, existence, open)
  }

  /** What every listing serves: workloads of the kind asked for, and at least one page
      unless it fails. */
  ghost predicate Served(feeds: Feeds) {
    && (forall s :: feeds(s).ending == Whole ==> feeds(s).pages != [])
    && (forall kind, i, w | 0 <= i < |feeds(OfWorkloads(kind)).pages| && w in feeds(OfWorkloads(kind)).pages[i].workloads ::
          w.kind == kind)
  }

  // ---------------------------------------------------------------- one more page

  lemma {:induction false} OfKindAppend(s: seq<IndexedWorkload>, t: seq<IndexedWorkload>, kind: string)
    ensures OfKind(s + t, kind) == OfKind(s, kind) + OfKind(t, kind)
  {
    if t == [] {
      assert s + t == s;
    } else {
      var init := t[..|t| - 1];
      assert (s + t)[..|s + t| - 1] == s + init;
      OfKindAppend(s, init, kind);
    }
  }

  lemma {:induction false} AllOfKind(s: seq<IndexedWorkload>, kind: string)
    ensures (forall w | w in s :: w.workload.kind == kind) ==> OfKind(s, kind) == s
    ensures (forall w | w in s :: w.workload.kind != kind) ==> OfKind(s, kind) == []
  {
    if s != [] {
      AllOfKind(s[..|s| - 1], kind);
      assert s == s[..|s| - 1] + [s[|s| - 1]];
    }
  }

  lemma WorkloadsOnPage(page: Page, w: IndexedWorkload)
    requires w in WorkloadsOn(page)
    ensures w.workload in page.workloads
  {
    InGather(IndexWorkload, page.workloads, w);
  }

  /** Only the listing a page belongs to moves on. */
  lemma ArrivedNext(feeds: Feeds, taken: Progress, s: Source, t: Source)
    requires Taken(taken, s) < |feeds(s).pages|
    ensures var next := taken[s := Taken(taken, s) + 1];
            Arrived(feeds, next, t) ==
            if t == s then Arrived(feeds, taken, s) + [feeds(s).pages[Taken(taken, s)]] else Arrived(feeds, taken, t)
  {
  }

  lemma GatherMore<T, U>(f: T -> seq<U>, s: seq<T>, t: T)
    ensures Gather(f, s + [t]) == Gather(f, s) + f(t)
  {
    assert (s + [t])[..|s|] == s;
  }

  lemma AbsorbHolds(c: Contents, feeds: Feeds, existence: bool, taken: Progress, s: Source, last: bool)
    requires Served(feeds) && Holds(c, feeds, taken) && IsSource(s, existence)
    requires Taken(taken, s) < |feeds(s).pages|
    ensures Holds(Absorb(c, s, feeds(s).pages[Taken(taken, s)], last), feeds, taken[s := Taken(taken, s) + 1])
  {
    hide WorkloadsOn, PodsOn, AccountsOn, NamesOn, Gather, OfKind, Taken, Arrived, WithAccounts, NonEmpty;
    var page, next := feeds(s).pages[Taken(taken, s)], taken[s := Taken(taken, s) + 1];
    var d := Absorb(c, s, page, last);
    forall t { ArrivedNext(feeds, taken, s, t); }
    match s
    case OfWorkloads(kind) =>
      forall w | w in WorkloadsOn(page) ensures w.workload.kind == kind { WorkloadsOnPage(page, w); }
      forall k | k in WORKLOAD_KINDS
        ensures OfKind(d.workloads, k) == Gather(WorkloadsOn, Arrived(feeds, next, OfWorkloads(k)))
      {
        OfKindAppend(c.workloads, WorkloadsOn(page), k);
        AllOfKind(WorkloadsOn(page), k);
        GatherMore(WorkloadsOn, Arrived(feeds, taken, s), page);
      }
    case Pods => GatherMore(PodsOn, Arrived(feeds, taken, s), page);
    case Accounts => OneMoreAccountPage(Arrived(feeds, taken, s), page);
    case Existing(kind) => OneMoreNamePage(Arrived(feeds, taken, s), page);
  }

  lemma OneMoreAccountPage(pages: seq<Page>, page: Page)
    ensures AccountsOn(pages + [page]) == WithAccounts(AccountsOn(pages), page.accounts)
  {
    assert (pages + [page])[..|pages|] == pages;
  }

  lemma OneMoreNamePage(pages: seq<Page>, page: Page)
    ensures NamesOn(pages + [page]) == NamesOn(pages) + NonEmpty(page.names)
  {
    assert (pages + [page])[..|pages|] == pages;
  }

  // ---------------------------------------------------------------- one listing further

  lemma NothingYet(feeds: Feeds, existence: bool, open: set<Source>)
    requires Served(feeds) && forall s :: s in open <==> IsSource(s, existence)
    ensures Consistent(EMPTY, feeds, existence, map[], open)
  {
    hide IsSource, SourceName;
  }

  lemma Advance(feeds: Feeds, existence: bool, taken: Progress, open: set<Source>, s: Source)
    requires Counted(feeds, existence, taken, open) && s in open && Fetch(feeds(s), Taken(taken, s)).Got?
    ensures var reply, next := Fetch(feeds(s), Taken(taken, s)), taken[s := Taken(taken, s) + 1];
            && Counted(feeds, existence, next, if reply.next == 0 then open - {s} else open)
            && (reply.next != 0 ==> reply.next == Taken(next, s))
  {
    hide IsSource;
    var next := taken[s := Taken(taken, s) + 1];
    assert forall t :: Taken(next, t) == if t == s then Taken(taken, s) + 1 else Taken(taken, t);
    hide Taken;
  }

  lemma NothingReported(failed: seq<string>, feeds: Feeds, existence: bool, open: set<Source>, s: Source)
    requires Reported(failed, feeds, existence, open) && feeds(s).ending != Unlistable
    ensures Reported(failed, feeds, existence, open - {s})
  {
    hide IsSource, SourceName;
    assert forall t :: Failed(t, feeds, existence, open) <==> Failed(t, feeds, existence, open - {s});
    hide Failed;
  }

  lemma OneReported(failed: seq<string>, feeds: Feeds, existence: bool, open: set<Source>, s: Source)
    requires Reported(failed, feeds, existence, open)
    requires s in open && IsSource(s, existence) && feeds(s).ending == Unlistable
    ensures Reported(failed + [SourceName(s)], feeds, existence, open - {s})
  {
    if SourceName(s) in failed {
      var t :| Failed(t, feeds, existence, open) && SourceName(t) == SourceName(s);
      SourceNamesDiffer(s, t);
    }
    hide IsSource, SourceName;
    assert forall t :: Failed(t, feeds, existence, open - {s}) <==> Failed(t, feeds, existence, open) || t == s;
    hide Failed;
    forall name | name in failed + [SourceName(s)]
      ensures exists t :: Failed(t, feeds, existence, open - {s}) && SourceName(t) == name
    {
      if name in failed {
        var t :| Failed(t, feeds, existence, open) && SourceName(t) == name;
        assert Failed(t, feeds, existence, open - {s});
      } else {
        assert Failed(s, feeds, existence, open - {s});
      }
    }
  }

  lemma OneEstablished(c: Contents, feeds: Feeds, existence: bool, open: set<Source>, s: Source, page: Page)
    requires Established(c.known, feeds, existence, open) && s in open && IsSource(s, existence) && feeds(s).ending == Whole
    ensures Established(Absorb(c, s, page, true).known, feeds, existence, open - {s})
  {
    hide IsSource;
  }

  /** A page arrives, and the listing goes on or ends. */
  lemma PageArrives(c: Contents, feeds: Feeds, existence: bool, taken: Progress, open: set<Source>, s: Source)
    requires Served(feeds) && Consistent(c, feeds, existence, taken, open) && s in open
    requires Fetch(feeds(s), Taken(taken, s)).Got?
    ensures IsSource(s, existence)
    ensures var reply, next := Fetch(feeds(s), Taken(taken, s)), taken[s := Taken(taken, s) + 1];
            && Consistent(Absorb(c, s, reply.page, reply.next == 0), feeds, existence, next, if reply.next == 0 then open - {s} else open)
            && (reply.next != 0 ==> reply.next == Taken(next, s))
  {
    hide IsSource, Served, Holds, Reported, Established;
    var reply := Fetch(feeds(s), Taken(taken, s));
    AbsorbHolds(c, feeds, existence, taken, s, reply.next == 0);
    Advance(feeds, existence, taken, open, s);
    hide Counted;
    if reply.next == 0 {
      NothingReported(c.failed, feeds, existence, open, s);
      OneEstablished(c, feeds, existence, open, s, reply.page);
    } else {
      assert Absorb(c, s, reply.page, false).known == c.known;
    }
  }

  lemma ListingFails(c: Contents, feeds: Feeds, existence: bool, taken: Progress, open: set<Source>, s: Source)
    requires Consistent(c, feeds, existence, taken, open) && s in open
    requires Fetch(feeds(s), Taken(taken, s)).Failure?
    ensures feeds(s).ending == Unlistable
    ensures Consistent(c.(failed := c.failed + [SourceName(s)]), feeds, existence, taken, open - {s})
  {
    hide Counted;
    hide IsSource, SourceName, Reported, Holds, Established;
    FailedCounted(feeds, existence, taken, open, s);
    OneReported(c.failed, feeds, existence, open, s);
    StillHolds(c, feeds, taken, SourceName(s));
    StillEstablished(c.known, feeds, existence, open, s);
  }

  lemma FailedCounted(feeds: Feeds, existence: bool, taken: Progress, open: set<Source>, s: Source)
    requires Counted(feeds, existence, taken, open) && s in open && Fetch(feeds(s), Taken(taken, s)).Failure?
    ensures IsSource(s, existence) && feeds(s).ending == Unlistable && Counted(feeds, existence, taken, open - {s})
  {
    hide IsSource;
  }

  lemma StillHolds(c: Contents, feeds: Feeds, taken: Progress, name: string)
    requires Holds(c, feeds, taken)
    ensures Holds(c.(failed := c.failed + [name]), feeds, taken)
  {
    hide OfKind, Gather, AccountsOn, NamesOn, Arrived;
    assert forall kind :: Known(c.(failed := c.failed + [name]), kind) == Known(c, kind);
  }

  lemma StillEstablished(known: set<string>, feeds: Feeds, existence: bool, open: set<Source>, s: Source)
    requires Established(known, feeds, existence, open) && s in open && feeds(s).ending == Unlistable
    ensures Established(known, feeds, existence, open - {s})
  {
    hide IsSource;
  }

  /** Once nothing is open, each listing has arrived in full, and it is either whole or
      reported as not listable. */
  lemma ListedOrReported(c: Contents, feeds: Feeds, existence: bool, taken: Progress, s: Source)
    requires Consistent(c, feeds, existence, taken, {}) && IsSource(s, existence)
    ensures Arrived(feeds, taken, s) == feeds(s).pages && feeds(s).ending != Interrupted
    ensures feeds(s).ending == Whole <==> SourceName(s) !in c.failed
  {
    hide SourceName, Holds;
    assert feeds(s).ending == Unlistable ==> Failed(s, feeds, existence, {});
    if SourceName(s) in c.failed {
      var t :| Failed(t, feeds, existence, {}) && SourceName(t) == SourceName(s);
      SourceNamesDiffer(s, t);
    }
  }

  // ---------------------------------------------------------------- one after the other

  /** Lists one source to its end. */
  method CollectPaged(index: RefIndex, feeds: Feeds, s: Source, ghost taken: Progress, ghost open: set<Source>)
    returns (ok: bool, ghost after: Progress)
    requires index.Valid() && Served(feeds) && s in open
    requires Consistent(index.State(), feeds, false, taken, open) && Taken(taken, s) == 0
    modifies index
    ensures ok <==> feeds(s).ending != Interrupted
    ensures index.Valid() && (ok ==> Consistent(index.State(), feeds, false, after, open - {s}))
    ensures forall t | t != s :: Taken(after, t) == Taken(taken, t)
  {
    hide Consistent, Served;
    after := taken;
    var token := 0;
    while true
      invariant index.Valid() && Consistent(index.State(), feeds, false, after, open)
      invariant token == Taken(after, s) <= |feeds(s).pages|
      invariant forall t | t != s :: Taken(after, t) == Taken(taken, t)
      decreases |feeds(s).pages| - token
    {
      var reply := Fetch(feeds(s), token);
      match reply
      case Canceled => return false, after;
      case Failure =>
        ListingFails(index.State(), feeds, false, after, open, s);
        index.AddSourceError(SourceName(s));
        return true, after;
      case Got(page, next) =>
        PageArrives(index.State(), feeds, false, after, open, s);
        match s {
          case OfWorkloads(_) => index.AddWorkloads(page.workloads);
          case Pods => index.AddPods(page.pods);
          case Accounts => index.AddServiceAccounts(page.accounts);
        }
        after := after[s := token + 1];
        if next == 0 { return true, after; }
        token := next;
    }
  }

  /** The listings from the `i`-th kind of workload on. */
  ghost function From(i: nat, existence: bool): (rest: set<Source>)
    requires i <= |WORKLOAD_KINDS|
    ensures i == 0 ==> forall s :: s in rest <==> IsSource(s, existence)
  {
    (set j | i <= j < |WORKLOAD_KINDS| :: OfWorkloads(WORKLOAD_KINDS[j])) + {Pods, Accounts}
    + (if existence then {Existing(KIND_SECRET), Existing(KIND_CONFIG_MAP)} else {})
  }

  lemma KindsDiffer()
    ensures forall i, j | 0 <= i < j < |WORKLOAD_KINDS| :: WORKLOAD_KINDS[i] != WORKLOAD_KINDS[j]
  {
    var lengths := [10, 11, 9, 3, 7];
    assert forall i | 0 <= i < |WORKLOAD_KINDS| :: |WORKLOAD_KINDS[i]| == lengths[i];
  }

  lemma OneKindLess(i: nat, existence: bool)
    requires i < |WORKLOAD_KINDS|
    ensures From(i + 1, existence) == From(i, existence) - {OfWorkloads(WORKLOAD_KINDS[i])}
    ensures OfWorkloads(WORKLOAD_KINDS[i]) in From(i, existence)
  {
    KindsDiffer();
  }

  /** Lists everything in turn. Cancellation is the only way to get no index: a request that
      fails once the collection is cancelled interrupts its listing, and a cancellation that no
      request noticed counts at the end. */
  method CollectNamespaceRefs(feeds: Feeds, cancelled: bool) returns (result: Option<RefIndex>, ghost taken: Progress)
    requires Served(feeds)
    ensures result.None? <==> cancelled || exists s :: IsSource(s, false) && feeds(s).ending == Interrupted
    ensures result.Some? ==> fresh(result.value) && result.value.Valid()
    ensures result.Some? ==> Consistent(result.value.State(), feeds, false, taken, {})
  {
    hide Consistent, Served;
    var index := new RefIndex();
    taken := map[];
    ghost var open := From(0, false);
    NothingYet(feeds, false, open);
    for i := 0 to |WORKLOAD_KINDS|
      invariant fresh(index) && index.Valid() && Consistent(index.State(), feeds, false, taken, open)
      invariant open == From(i, false)
      invariant forall s | s in open :: Taken(taken, s) == 0
    {
      var s := OfWorkloads(WORKLOAD_KINDS[i]);
      OneKindLess(i, false);
      var ok;
      ok, taken := CollectPaged(index, feeds, s, taken, open);
      if !ok { return None, taken; }
      open := open - {s};
    }
    var ok;
    ok, taken := CollectPaged(index, feeds, Pods, taken, open);
    if !ok { return None, taken; }
    ok, taken := CollectPaged(index, feeds, Accounts, taken, open - {Pods});
    if !ok { return None, taken; }
    assert open - {Pods} - {Accounts} == {};
    forall s | IsSource(s, false) ensures feeds(s).ending != Interrupted {
      ListedOrReported(index.State(), feeds, false, taken, s);
    }
    if cancelled { return None, taken; }
    result := Some(index);
  }

  // ---------------------------------------------------------------- all at once

  datatype Request = Request(reqID: nat, source: Source, token: nat)

  datatype Message = Message(reqID: nat, source: Source, reply: Reply)

  class RefsCollector {
    const ids: RequestIds
    const loader: Loader
    const existence: bool
    var index: RefIndex
    var pendingSrc: int
    var complete: bool
    var cancelled: bool

    ghost predicate Valid()
      reads this, index, loader, ids
    {
      loader.ids == ids && loader.Valid() && index.Valid()
    }

    constructor (ids: RequestIds, existence: bool)
      ensures this.ids == ids && this.existence == existence
      ensures Valid() && fresh(loader) && fresh(index) && !loader.pending && !complete && !cancelled
    {
      this.ids, this.existence := ids, existence;
      loader := new Loader(ids);
      index := new RefIndex();
      pendingSrc, complete, cancelled := 0, false, false;
    }

    /** Starts over with an empty index and asks for the first page of every listing. */
    method StartCollect() returns (requests: seq<Request>)
      requires Valid()
      modifies this, loader, ids
      ensures Valid() && fresh(index) && index.State() == EMPTY
      ensures loader.pending && loader.reqID == ids.last == old(ids.last) + 1
      ensures !complete && !cancelled && pendingSrc == |requests|
      ensures forall i, j | 0 <= i < j < |requests| :: requests[i].source != requests[j].source
      ensures forall r | r in requests :: r == Request(loader.reqID, r.source, 0) && IsSource(r.source, existence)
      ensures forall s | IsSource(s, existence) :: Request(loader.reqID, s, 0) in requests
    {
      hide IsSource;
      var reqID := loader.Start();
      index := new RefIndex();
      complete, cancelled := false, false;
      pendingSrc := |WORKLOAD_KINDS| + 2;
      if existence { pendingSrc := pendingSrc + 2; }
      requests := [];
      KindsDiffer();
      for i := 0 to |WORKLOAD_KINDS|
        invariant |requests| == i
        invariant forall j | 0 <= j < i :: requests[j] == Request(reqID, OfWorkloads(WORKLOAD_KINDS[j]), 0)
      {
        requests := requests + [Request(reqID, OfWorkloads(WORKLOAD_KINDS[i]), 0)];
      }
      ghost var first := requests;
      requests := requests + [Request(reqID, Pods, 0), Request(reqID, Accounts, 0)];
      if existence {
        requests := requests + [Request(reqID, Existing(KIND_SECRET), 0), Request(reqID, Existing(KIND_CONFIG_MAP), 0)];
      }
      EverySourceAsked(requests, reqID, existence);
    }

    /** Takes the reply to a request of the collection under way. The result is the next
        request of that listing, and whether the collection is over. */
    method HandleRefsPage(msg: Message) returns (next: Option<Request>, done: bool)
      requires Valid()
      requires msg.reqID == loader.reqID && loader.pending ==> IsSource(msg.source, existence)
      modifies this`pendingSrc, this`complete, this`cancelled, loader, index
      ensures Valid() && loader.reqID == old(loader.reqID)
      ensures msg.reqID != old(loader.reqID) || !old(loader.pending) ==>
                && next == None && !done && loader.pending == old(loader.pending)
                && index.State() == old(index.State()) && pendingSrc == old(pendingSrc)
                && complete == old(complete) && cancelled == old(cancelled)
      ensures msg.reqID == old(loader.reqID) && old(loader.pending) ==>
                match msg.reply
                case Canceled => next == None && done && cancelled && !loader.pending
                                 && index.State() == old(index.State()) && complete == old(complete)
                case Failure => next == None && cancelled == old(cancelled) && Counts(old(pendingSrc), old(complete), done)
                                && index.State() == old(index.State()).(failed := old(index.State()).failed + [SourceName(msg.source)])
                case Got(page, token) =>
                  && cancelled == old(cancelled)
                  && index.State() == Absorb(old(index.State()), msg.source, page, token == 0)
                  && (if token != 0 then
                        && next == Some(Request(msg.reqID, msg.source, token)) && !done
                        && pendingSrc == old(pendingSrc) && complete == old(complete) && loader.pending
                      else next == None && Counts(old(pendingSrc), old(complete), done))
    {
      hide SourceName, IsSource;
      if msg.reqID != loader.reqID || !loader.pending { return None, false; }
      match msg.reply
      case Canceled =>
        var _ := loader.Finish(msg.reqID);
        cancelled := true;
        return None, true;
      case Failure =>
        index.AddSourceError(SourceName(msg.source));
        done := FinishSource(msg.reqID);
        return None, done;
      case Got(page, token) =>
        next := if token != 0 then Some(Request(msg.reqID, msg.source, token)) else None;
        TakePage(msg.source, page, token == 0);
        if token != 0 { return next, false; }
        done := FinishSource(msg.reqID);
    }

    /** One listing fewer is open; with the last one the collection is complete. */
    ghost predicate Counts(pendingBefore: int, completeBefore: bool, done: bool)
      reads this, loader
    {
      && pendingSrc == pendingBefore - 1
      && done == (pendingSrc == 0) && loader.pending == !done
      && complete == (completeBefore || done)
    }

    method FinishSource(reqID: nat) returns (done: bool)
      requires loader.pending && loader.reqID == reqID
      modifies this`pendingSrc, this`complete, loader
      ensures loader.reqID == old(loader.reqID) && Counts(old(pendingSrc), old(complete), done)
    {
      pendingSrc := pendingSrc - 1;
      if pendingSrc == 0 {
        var _ := loader.Finish(reqID);
        complete := true;
        return true;
      }
      done := false;
    }

    method TakePage(source: Source, page: Page, last: bool)
      requires index.Valid() && IsSource(source, existence)
      modifies index
      ensures index.Valid() && index.State() == Absorb(old(index.State()), source, page, last)
    {
      match source
      case OfWorkloads(_) => index.AddWorkloads(page.workloads);
      case Pods => index.AddPods(page.pods);
      case Accounts => index.AddServiceAccounts(page.accounts);
      case Existing(kind) => index.AddExisting(kind, page.names, last);
    }
  }

  lemma EverySourceAsked(requests: seq<Request>, reqID: nat, existence: bool)
    requires |requests| == |WORKLOAD_KINDS| + 2 + (if existence then 2 else 0)
    requires forall j | 0 <= j < |WORKLOAD_KINDS| :: requests[j] == Request(reqID, OfWorkloads(WORKLOAD_KINDS[j]), 0)
    requires requests[5] == Request(reqID, Pods, 0) && requests[6] == Request(reqID, Accounts, 0)
    requires existence ==>
               requests[7] == Request(reqID, Existing(KIND_SECRET), 0) && requests[8] == Request(reqID, Existing(KIND_CONFIG_MAP), 0)
    ensures forall i, j | 0 <= i < j < |requests| :: requests[i].source != requests[j].source
    ensures forall r | r in requests :: r == Request(reqID, r.source, 0) && IsSource(r.source, existence)
    ensures forall s | IsSource(s, existence) :: Request(reqID, s, 0) in requests
  {
    KindsDiffer();
    forall s | IsSource(s, existence) ensures Request(reqID, s, 0) in requests {
      match s
      case OfWorkloads(kind) =>
        var j :| 0 <= j < |WORKLOAD_KINDS| && WORKLOAD_KINDS[j] == kind;
        assert requests[j] in requests;
      case Pods => assert requests[5] in requests;
      case Accounts => assert requests[6] in requests;
      case Existing(kind) => assert requests[7] in requests && requests[8] in requests;
    }
  }

  /** Of each open listing exactly the next page is on its way. */
  ghost predicate Awaited(inFlight: set<Request>, reqID: nat, open: set<Source>, taken: Progress) {
    && (forall r | r in inFlight && r.reqID == reqID :: r.source in open && r.token == Taken(taken, r.source))
    && (forall s | s in open :: Request(reqID, s, Taken(taken, s)) in inFlight)
  }

  /** A collection under way has open listings, and counts them. */
  ghost predicate Underway(c: Contents, feeds: Feeds, existence: bool, taken: Progress, open: set<Source>,
                           inFlight: set<Request>, reqID: nat, pendingSrc: int) {
    && open != {} && pendingSrc == |open|
    && Consistent(c, feeds, existence, taken, open) && Awaited(inFlight, reqID, open, taken)
  }

  lemma InFlightIsNext(c: Contents, feeds: Feeds, existence: bool, taken: Progress, open: set<Source>,
                       inFlight: set<Request>, pendingSrc: int, r: Request)
    requires Underway(c, feeds, existence, taken, open, inFlight, r.reqID, pendingSrc) && r in inFlight
    ensures r.source in open && r.token == Taken(taken, r.source) && IsSource(r.source, existence)
  {
    hide IsSource, Holds, Reported, Established;
  }

  function Onward(taken: Progress, s: Source): Progress { taken[s := Taken(taken, s) + 1] }

  lemma PageNext(c: Contents, feeds: Feeds, existence: bool, taken: Progress, open: set<Source>,
                 inFlight: set<Request>, pendingSrc: int, r: Request, more: Request)
    requires Served(feeds) && Underway(c, feeds, existence, taken, open, inFlight, r.reqID, pendingSrc) && r in inFlight
    requires Fetch(feeds(r.source), r.token).Got? && Fetch(feeds(r.source), r.token).next != 0
    requires more == Request(r.reqID, r.source, Fetch(feeds(r.source), r.token).next)
    ensures Underway(Absorb(c, r.source, Fetch(feeds(r.source), r.token).page, false), feeds, existence,
                     Onward(taken, r.source), open, inFlight - {r} + {more}, r.reqID, pendingSrc)
  {
    hide Served, Consistent, IsSource, Absorb;
    InFlightIsNext(c, feeds, existence, taken, open, inFlight, pendingSrc, r);
    PageArrives(c, feeds, existence, taken, open, r.source);
  }

  lemma PageLast(c: Contents, feeds: Feeds, existence: bool, taken: Progress, open: set<Source>,
                 inFlight: set<Request>, pendingSrc: int, r: Request)
    requires Served(feeds) && Underway(c, feeds, existence, taken, open, inFlight, r.reqID, pendingSrc) && r in inFlight
    requires Fetch(feeds(r.source), r.token).Got? && Fetch(feeds(r.source), r.token).next == 0
    ensures var d := Absorb(c, r.source, Fetch(feeds(r.source), r.token).page, true);
            && Consistent(d, feeds, existence, Onward(taken, r.source), open - {r.source})
            && (pendingSrc - 1 == 0 <==> open - {r.source} == {})
            && (pendingSrc - 1 != 0 ==>
                  Underway(d, feeds, existence, Onward(taken, r.source), open - {r.source}, inFlight - {r}, r.reqID, pendingSrc - 1))
  {
    hide Served, Consistent, IsSource, Absorb;
    InFlightIsNext(c, feeds, existence, taken, open, inFlight, pendingSrc, r);
    PageArrives(c, feeds, existence, taken, open, r.source);
    assert |open - {r.source}| == |open| - 1;
  }

  lemma ListingGone(c: Contents, feeds: Feeds, existence: bool, taken: Progress, open: set<Source>,
                    inFlight: set<Request>, pendingSrc: int, r: Request)
    requires Underway(c, feeds, existence, taken, open, inFlight, r.reqID, pendingSrc) && r in inFlight
    requires Fetch(feeds(r.source), r.token).Failure?
    ensures var d := c.(failed := c.failed + [SourceName(r.source)]);
            && Consistent(d, feeds, existence, taken, open - {r.source})
            && (pendingSrc - 1 == 0 <==> open - {r.source} == {})
            && (pendingSrc - 1 != 0 ==> Underway(d, feeds, existence, taken, open - {r.source}, inFlight - {r}, r.reqID, pendingSrc - 1))
  {
    hide Consistent, IsSource, SourceName;
    InFlightIsNext(c, feeds, existence, taken, open, inFlight, pendingSrc, r);
    ListingFails(c, feeds, existence, taken, open, r.source);
    assert |open - {r.source}| == |open| - 1;
  }

  /** A collector at work: the requests it sent are answered one at a time, in any order, and
      the user starts over or stops when they like. */
  class Collection {
    const ids: RequestIds
    const collector: RefsCollector
    var feeds: Feeds
    var inFlight: set<Request>
    ghost var taken: Progress
    ghost var open: set<Source>

    ghost predicate Valid()
      reads this, collector, collector.index, collector.loader, ids
    {
      && collector.ids == ids && collector.Valid() && Served(feeds)
      && (forall r | r in inFlight :: r.reqID <= ids.last)
      && (collector.loader.pending ==>
            !collector.complete && Underway(collector.index.State(), feeds, collector.existence, taken, open, inFlight,
                                            collector.loader.reqID, collector.pendingSrc))
      && (collector.complete ==> Consistent(collector.index.State(), feeds, collector.existence, taken, {}))
    }

    constructor (ids: RequestIds, existence: bool, feeds: Feeds)
      requires Served(feeds)
      ensures Valid() && this.ids == ids && fresh(collector) && fresh(collector.loader) && fresh(collector.index)
      ensures collector.existence == existence && !collector.complete
    {
      hide Served;
      this.ids, this.feeds := ids, feeds;
      collector := new RefsCollector(ids, existence);
      inFlight, taken, open := {}, map[], {};
    }

    /** Collects what the listings serve now. */
    method Start(serving: Feeds)
      requires Valid() && Served(serving)
      modifies this, collector, collector.loader, ids
      ensures Valid() && feeds == serving && fresh(collector.index) && collector.loader.pending
    {
      hide Served, Consistent, IsSource, RefsCollector.Valid, SourceName;
      feeds := serving;
      var requests := collector.StartCollect();
      inFlight := inFlight + (set r | r in requests);
      taken, open := map[], SourcesOf(requests);
      AllAreOpen(requests, collector.loader.reqID, collector.existence);
      NothingYet(feeds, collector.existence, open);
    }

    predicate Current(r: Request)
      reads collector, collector.loader
    {
      r.reqID == collector.loader.reqID && collector.loader.pending
    }

    /** A reply to a request of an earlier collection, or of one that was stopped, whatever it
        says. */
    method Ignore(r: Request, reply: Reply)
      requires Valid() && r in inFlight && !Current(r)
      modifies this`inFlight, collector, collector.loader, collector.index
      ensures Valid() && feeds == old(feeds) && collector.index == old(collector.index)
      ensures collector.index.State() == old(collector.index.State())
    {
      hide Served, Consistent, IsSource, SourceName;
      inFlight := inFlight - {r};
      var _, _ := collector.HandleRefsPage(Message(r.reqID, r.source, reply));
    }

    /** A page that is not the last: the next one is asked for. */
    method DeliverPage(r: Request)
      requires Valid() && r in inFlight && Current(r)
      requires Fetch(feeds(r.source), r.token).Got? && Fetch(feeds(r.source), r.token).next != 0
      modifies this`inFlight, this`taken, collector, collector.loader, collector.index
      ensures Valid() && collector.index == old(collector.index)
    {
      hide Served, Underway, Consistent, IsSource, SourceName, Fetch, Absorb;
      ghost var c, pendingSrc := collector.index.State(), collector.pendingSrc;
      InFlightIsNext(c, feeds, collector.existence, taken, open, inFlight, pendingSrc, r);
      var reply := Fetch(feeds(r.source), r.token);
      PageNext(c, feeds, collector.existence, taken, open, inFlight, pendingSrc, r, Request(r.reqID, r.source, reply.next));
      inFlight := inFlight - {r};
      var more, _ := collector.HandleRefsPage(Message(r.reqID, r.source, reply));
      taken, inFlight := Onward(taken, r.source), inFlight + {more.value};
    }

    /** The last page of a listing. */
    method DeliverLast(r: Request)
      requires Valid() && r in inFlight && Current(r)
      requires Fetch(feeds(r.source), r.token).Got? && Fetch(feeds(r.source), r.token).next == 0
      modifies this`inFlight, this`taken, this`open, collector, collector.loader, collector.index
      ensures Valid() && collector.index == old(collector.index)
    {
      hide Served, Underway, Consistent, IsSource, SourceName, Fetch, Absorb;
      ghost var c, pendingSrc := collector.index.State(), collector.pendingSrc;
      InFlightIsNext(c, feeds, collector.existence, taken, open, inFlight, pendingSrc, r);
      PageLast(c, feeds, collector.existence, taken, open, inFlight, pendingSrc, r);
      inFlight := inFlight - {r};
      var _, _ := collector.HandleRefsPage(Message(r.reqID, r.source, Fetch(feeds(r.source), r.token)));
      taken, open := Onward(taken, r.source), open - {r.source};
    }

    method DeliverFailure(r: Request)
      requires Valid() && r in inFlight && Current(r) && Fetch(feeds(r.source), r.token).Failure?
      modifies this`inFlight, this`open, collector, collector.loader, collector.index
      ensures Valid() && collector.index == old(collector.index)
    {
      hide Served, Underway, Consistent, SourceName, IsSource, Fetch;
      ghost var c, pendingSrc := collector.index.State(), collector.pendingSrc;
      InFlightIsNext(c, feeds, collector.existence, taken, open, inFlight, pendingSrc, r);
      ListingGone(c, feeds, collector.existence, taken, open, inFlight, pendingSrc, r);
      inFlight := inFlight - {r};
      var _, _ := collector.HandleRefsPage(Message(r.reqID, r.source, Failure));
      open := open - {r.source};
    }

    method DeliverCancelled(r: Request)
      requires Valid() && r in inFlight && Current(r)
      modifies this`inFlight, collector, collector.loader, collector.index
      ensures Valid() && collector.index == old(collector.index)
    {
      hide Served, Underway, Consistent, IsSource, SourceName;
      InFlightIsNext(collector.index.State(), feeds, collector.existence, taken, open, inFlight, collector.pendingSrc, r);
      inFlight := inFlight - {r};
      var _, _ := collector.HandleRefsPage(Message(r.reqID, r.source, Canceled));
    }

    /** The reply to a request of the collection under way: what the listing serves. */
    method Deliver(r: Request)
      requires Valid() && r in inFlight && Current(r)
      modifies this, collector, collector.loader, collector.index
      ensures Valid() && feeds == old(feeds) && collector.index == old(collector.index)
    {
      hide Valid, Fetch;
      match Fetch(feeds(r.source), r.token)
      case Got(_, next) => if next == 0 { DeliverLast(r); } else { DeliverPage(r); }
      case Failure => DeliverFailure(r);
      case Canceled => DeliverCancelled(r);
    }

    method Stop()
      requires Valid()
      modifies collector.loader
      ensures Valid() && !collector.loader.pending
    {
      hide Consistent, Served;
      var _ := collector.loader.Stop();
    }

    /** Any run at all. While a collection is under way some reply is still to come, and a
        complete index is consistent with everything that was served. */
    method Run(servings: seq<Feeds>)
      requires Valid() && forall i | 0 <= i < |servings| :: Served(servings[i])
      modifies this, collector, collector.loader, collector.index, ids
      ensures Valid()
      ensures collector.loader.pending ==> exists r :: r in inFlight && Current(r)
      ensures collector.complete ==> Consistent(collector.index.State(), feeds, collector.existence, taken, {})
    {
      hide Consistent, Served;
      var steps: nat :| true;
      for i := 0 to steps
        invariant Valid() && (collector.index == old(collector.index) || fresh(collector.index))
      {
        if
        case inFlight != {} =>
          var r :| r in inFlight;
          if Current(r) { Deliver(r); } else {
            var reply: Reply := *;
            Ignore(r, reply);
          }
        case servings != [] =>
          var k: nat :| k < |servings|;
          Start(servings[k]);
        case true => Stop();
      }
      if collector.loader.pending {
        ghost var s :| s in open;
        assert Current(Request(collector.loader.reqID, s, Taken(taken, s)));
      }
    }
  }

  // ---------------------------------------------------------------- both ways agree

  /** Names are unique within each listing of workloads. */
  ghost predicate UniqueListings(feeds: Feeds) {
    forall kind | kind in WORKLOAD_KINDS :: UniqueNames(Gather(WorkloadsOn, feeds(OfWorkloads(kind)).pages))
  }

  lemma {:induction false} InOfKind(workloads: seq<IndexedWorkload>, kind: string, w: IndexedWorkload)
    ensures w in OfKind(workloads, kind) <==> w in workloads && w.workload.kind == kind
  {
    if workloads != [] {
      InOfKind(workloads[..|workloads| - 1], kind, w);
      assert workloads == workloads[..|workloads| - 1] + [workloads[|workloads| - 1]];
    }
  }

  /** Names unique within every kind are unique in whatever order the kinds were mixed. */
  lemma {:induction false} MixedUnique(workloads: seq<IndexedWorkload>)
    requires forall w | w in workloads :: w.workload.kind in WORKLOAD_KINDS
    requires forall kind | kind in WORKLOAD_KINDS :: UniqueNames(OfKind(workloads, kind))
    ensures UniqueNames(workloads)
  {
    if workloads != [] {
      var init, last := workloads[..|workloads| - 1], workloads[|workloads| - 1];
      assert workloads == init + [last];
      forall kind | kind in WORKLOAD_KINDS ensures UniqueNames(OfKind(init, kind)) {
        PrefixUnique(OfKind(init, kind), OfKind(workloads, kind));
      }
      MixedUnique(init);
      assert last in workloads;
      forall w | w in init && w.workload.kind == last.workload.kind ensures w.workload.name != last.workload.name {
        InOfKind(init, last.workload.kind, w);
        LastUnique(OfKind(init, last.workload.kind), last, w);
      }
    }
  }

  lemma LastUnique(init: seq<IndexedWorkload>, last: IndexedWorkload, w: IndexedWorkload)
    requires UniqueNames(init + [last]) && w in init && w.workload.kind == last.workload.kind
    ensures w.workload.name != last.workload.name
  {
    var i :| 0 <= i < |init| && init[i] == w;
    assert (init + [last])[i] == w && (init + [last])[|init|] == last;
  }

  lemma PrefixUnique(s: seq<IndexedWorkload>, t: seq<IndexedWorkload>)
    requires s <= t && UniqueNames(t)
    ensures UniqueNames(s)
  {
  }

  lemma ArrivedAlike(c: Contents, d: Contents, feeds: Feeds, existence: bool, taken: Progress, inTurn: Progress)
    requires Consistent(c, feeds, existence, taken, {}) && Consistent(d, feeds, false, inTurn, {})
    ensures forall s | IsSource(s, false) :: Arrived(feeds, taken, s) == feeds(s).pages == Arrived(feeds, inTurn, s)
    ensures forall s | IsSource(s, false) :: SourceName(s) in c.failed <==> SourceName(s) in d.failed
  {
    hide SourceName, Consistent, Arrived;
    forall s | IsSource(s, false)
      ensures Arrived(feeds, taken, s) == feeds(s).pages == Arrived(feeds, inTurn, s)
      ensures SourceName(s) in c.failed <==> SourceName(s) in d.failed
    {
      ListedOrReported(c, feeds, existence, taken, s);
      ListedOrReported(d, feeds, false, inTurn, s);
    }
  }

  lemma HoldsAlike(c: Contents, d: Contents, feeds: Feeds, taken: Progress, inTurn: Progress)
    requires UniqueListings(feeds) && Holds(c, feeds, taken) && Holds(d, feeds, inTurn)
    requires forall s | IsSource(s, false) :: Arrived(feeds, taken, s) == feeds(s).pages == Arrived(feeds, inTurn, s)
    ensures SameConsumers(c, d)
  {
    hide UniqueNames, Arrived, OfKind, Gather, WorkloadsOn, PodsOn, AccountsOn, NamesOn, Known;
    MixedUnique(c.workloads);
    MixedUnique(d.workloads);
    forall w ensures w in c.workloads <==> w in d.workloads {
      InOfKind(c.workloads, w.workload.kind, w);
      InOfKind(d.workloads, w.workload.kind, w);
    }
  }

  /** However the pages arrived, the answers are those of the listings taken in turn, and the
      same listings are reported as not listable. */
  lemma CollectorsAgree(c: Contents, d: Contents, feeds: Feeds, existence: bool, taken: Progress, inTurn: Progress, id: Id)
    requires UniqueListings(feeds)
    requires Consistent(c, feeds, existence, taken, {}) && Consistent(d, feeds, false, inTurn, {})
    ensures WorkloadsAnswer(c) == WorkloadsAnswer(d)
    ensures OrphanNames(c) == OrphanNames(d) && OrphanRefs(c) == OrphanRefs(d)
    ensures ConsumersAnswer(c, id) == ConsumersAnswer(d, id)
    ensures forall s | IsSource(s, false) :: SourceName(s) in c.failed <==> SourceName(s) in d.failed
  {
    hide SourceName, IsSource, WorkloadsAnswer, OrphanNames, OrphanRefs, ConsumersAnswer, UniqueListings, SameConsumers,
         Arrived, Holds, Counted, Reported, Established;
    ArrivedAlike(c, d, feeds, existence, taken, inTurn);
    HoldsAlike(c, d, feeds, taken, inTurn);
    AnswersAgree(c, d, id);
  }

  /** A resource is called missing exactly when its kind has been listed to the last page and
      no page named it. */
  lemma MissingIff(c: Contents, feeds: Feeds, existence: bool, taken: Progress, open: set<Source>, kind: string, name: string)
    requires Consistent(c, feeds, existence, taken, open)
    ensures Absent(c, kind, name) <==>
              && IsSource(Existing(kind), existence) && Existing(kind) !in open
              && feeds(Existing(kind)).ending == Whole && name !in NamesOn(feeds(Existing(kind)).pages)
  {
    hide Reported, NamesOn;
    var s := Existing(kind);
    if kind in c.known {
      assert Arrived(feeds, taken, s) == feeds(s).pages;
      assert Known(c, kind) == NamesOn(feeds(s).pages);
    }
  }

  lemma {:induction false} NamesOnMeans(pages: seq<Page>, name: string)
    ensures name in NamesOn(pages) <==> name != "" && exists i | 0 <= i < |pages| :: name in pages[i].names
  {
    if pages != [] {
      var init := pages[..|pages| - 1];
      NamesOnMeans(init, name);
      if i :| 0 <= i < |init| && name in init[i].names { assert name in pages[i].names; }
      if i :| 0 <= i < |pages| && name in pages[i].names { assert i < |init| ==> name in init[i].names; }
    }
  }

  function SourcesOf(requests: seq<Request>): set<Source> { set r | r in requests :: r.source }

  /** The first requests open every listing, one request each. */
  lemma AllAreOpen(requests: seq<Request>, reqID: nat, existence: bool)
    requires forall i, j | 0 <= i < j < |requests| :: requests[i].source != requests[j].source
    requires forall r | r in requests :: r == Request(reqID, r.source, 0) && IsSource(r.source, existence)
    requires forall s | IsSource(s, existence) :: Request(reqID, s, 0) in requests
    ensures forall s :: s in SourcesOf(requests) <==> IsSource(s, existence)
    ensures SourcesOf(requests) != {} && |SourcesOf(requests)| == |requests|
  {
    CountSources(requests);
    assert IsSource(Pods, existence);
    hide IsSource;
    forall s ensures s in SourcesOf(requests) <==> IsSource(s, existence) {
      if IsSource(s, existence) { assert Request(reqID, s, 0).source in SourcesOf(requests); }
    }
  }

  lemma {:induction false} CountSources(requests: seq<Request>)
    requires forall i, j | 0 <= i < j < |requests| :: requests[i].source != requests[j].source
    ensures |SourcesOf(requests)| == |requests|
  {
    if requests != [] {
      var init, last := requests[..|requests| - 1], requests[|requests| - 1];
      CountSources(init);
      assert requests == init + [last];
      assert SourcesOf(requests) == SourcesOf(init) + {last.source};
    }
  }
}
