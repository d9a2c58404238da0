/** One namespace's consumers of Secrets and ConfigMaps, and the questions asked about them. */
module RefIndex {
  import opened Values
  import opened Resources
  import opened RefWalk
  import opened Sequences
  import opened Sorting
  import Natsort

  const WORKLOAD_KINDS := ["Deployment", "StatefulSet", "DaemonSet", "Job", "CronJob"]

  datatype Workload = Workload(kind: string, name: string, spec: PodSpec)

  datatype Owner = Owner(kind: string, name: string)

  datatype Pod = Pod(name: string, spec: PodSpec, controller: Option<Owner>)

  datatype IndexedWorkload = IndexedWorkload(workload: Workload, refs: seq<Ref>, saName: string)

  datatype IndexedPod = IndexedPod(name: string, refs: seq<Ref>, saName: string, ownerKind: string, ownerName: string)

  datatype WorkloadEntry = WorkloadEntry(workload: Workload, refs: seq<ResourceRef>)

  datatype Consumer = Consumer(kind: string, name: string, ref: ResourceRef)

  type Accounts = map<string, ServiceAccount>

  /** What an index holds. */
  datatype Contents = Contents(workloads: seq<IndexedWorkload>, pods: seq<IndexedPod>, accounts: Accounts,
                               existing: map<string, set<string>>, known: set<string>, failed: seq<string>)

  const EMPTY := Contents([], [], map[], map[], {}, [])

  // ---------------------------------------------------------------- what is added

  function IndexWorkload(w: Workload): seq<IndexedWorkload> {
    [IndexedWorkload(w, Occurrences(w.spec), AccountName(Some(w.spec)))]
  }

  function IndexPod(p: Pod): seq<IndexedPod> {
    [IndexedPod(p.name, Occurrences(p.spec), AccountName(Some(p.spec)),
                if p.controller.Some? then p.controller.value.kind else "",
                if p.controller.Some? then p.controller.value.name else "")]
  }

  /** The accounts by name; one listed again replaces the earlier one. */
  function WithAccounts(accounts: Accounts, more: seq<ServiceAccount>): Accounts {
    if more == [] then accounts
    else
      var before, a := WithAccounts(accounts, more[..|more| - 1]), more[|more| - 1];
      if a.name == "" then before else before[a.name := a]
  }

  function NonEmpty(names: seq<string>): set<string> { set n | n in names && n != "" }

  // ---------------------------------------------------------------- what is answered

  /** The references of a consumer together with those of the account it runs as. */
  function Joined(refs: seq<Ref>, saName: string, accounts: Accounts): seq<Ref> {
    refs + (if saName in accounts then AccountOccurrences(accounts[saName]) else [])
  }

  function KindIndex(kind: string): (i: nat)
    ensures i <= |WORKLOAD_KINDS| && (i < |WORKLOAD_KINDS| ==> WORKLOAD_KINDS[i] == kind)
    ensures i == |WORKLOAD_KINDS| ==> kind !in WORKLOAD_KINDS
  {
    if kind == "Deployment" then 0
    else if kind == "StatefulSet" then 1
    else if kind == "DaemonSet" then 2
    else if kind == "Job" then 3
    else if kind == "CronJob" then 4
    else 5
  }

  predicate WorkloadLess(a: WorkloadEntry, b: WorkloadEntry) {
    if KindIndex(a.workload.kind) != KindIndex(b.workload.kind) then KindIndex(a.workload.kind) < KindIndex(b.workload.kind)
    else Natsort.CompareChars(a.workload.name, b.workload.name) < 0
  }

  ghost function EntryFor(w: IndexedWorkload, accounts: Accounts): WorkloadEntry {
    WorkloadEntry(w.workload, Aggregated(Joined(w.refs, w.saName, accounts)))
  }

  ghost function EntriesFor(workloads: seq<IndexedWorkload>, accounts: Accounts): (entries: seq<WorkloadEntry>)
    ensures |entries| == |workloads| && forall i | 0 <= i < |entries| :: entries[i] == EntryFor(workloads[i], accounts)
  {
    seq(|workloads|, i requires 0 <= i < |workloads| => EntryFor(workloads[i], accounts))
  }

  /** The workloads with everything they refer to, in order of kind and name. */
  ghost function WorkloadsAnswer(c: Contents): seq<WorkloadEntry> { Sort(WorkloadLess, EntriesFor(c.workloads, c.accounts)) }

  predicate HashChar(c: char) { c in "bcdfghjklm" || c in "npqrstvwxz" || c in "2456789" }

  predicate TemplateHash(s: string) { s != "" && forall c | c in s :: HashChar(c) }

  /** The characters of generated names: letters that are no vowels and no y, and digits but
      for 0, 1 and 3. */
  predicate GeneratedChar(c: char) {
    ('a' <= c <= 'z' && c !in ['a', 'e', 'i', 'o', 'u', 'y']) || ('0' <= c <= '9' && c !in ['0', '1', '3'])
  }

  lemma HashChars(s: string)
    ensures TemplateHash(s) <==> s != "" && forall c | c in s :: GeneratedChar(c)
  {
    hide HashChar, GeneratedChar;
    forall c | c in s ensures HashChar(c) <==> GeneratedChar(c) { HashCharIs(c); }
  }

  lemma HashCharIs(c: char)
    ensures HashChar(c) <==> GeneratedChar(c)
  {
  }

  /** The owner is a workload of the index, or a ReplicaSet that one of its Deployments made. */
  ghost predicate Covered(workloads: seq<IndexedWorkload>, ownerKind: string, ownerName: string) {
    if ownerKind == "ReplicaSet" then
      exists w, hash :: w in workloads && w.workload.kind == "Deployment" && TemplateHash(hash)
                        && ownerName == w.workload.name + "-" + hash
    else
      && (ownerKind == "StatefulSet" || ownerKind == "DaemonSet" || ownerKind == "Job")
      && exists w :: w in workloads && w.workload.kind == ownerKind && w.workload.name == ownerName
  }

  ghost predicate CoversPod(workloads: seq<IndexedWorkload>, pod: IndexedPod) {
    Covered(workloads, pod.ownerKind, pod.ownerName)
  }

  /** The pods no workload of the index accounts for. */
  ghost function Loose(pods: seq<IndexedPod>, workloads: seq<IndexedWorkload>): seq<IndexedPod> {
    if pods == [] then []
    else
      var pod := pods[|pods| - 1];
      Loose(pods[..|pods| - 1], workloads) + (if CoversPod(workloads, pod) then [] else [pod])
  }

  function RefsOfPods(pods: seq<IndexedPod>, accounts: Accounts): seq<Ref> {
    if pods == [] then []
    else
      var pod := pods[|pods| - 1];
      RefsOfPods(pods[..|pods| - 1], accounts) + Joined(pod.refs, pod.saName, accounts)
  }

  /** The names of the pods that refer to something. */
  function NamesOfPods(pods: seq<IndexedPod>, accounts: Accounts): seq<string> {
    if pods == [] then []
    else
      var pod := pods[|pods| - 1];
      NamesOfPods(pods[..|pods| - 1], accounts) + (if Joined(pod.refs, pod.saName, accounts) == [] then [] else [pod.name])
  }

  ghost function OrphanNames(c: Contents): seq<string> {
    Sort(Natsort.CharsLess, NamesOfPods(Loose(c.pods, c.workloads), c.accounts))
  }

  ghost function OrphanRefs(c: Contents): seq<ResourceRef> {
    Aggregated(RefsOfPods(Loose(c.pods, c.workloads), c.accounts))
  }

  function Find(refs: seq<ResourceRef>, id: Id): Option<ResourceRef> {
    if refs == [] then None
    else if IdOf(refs[0]) == id then Some(refs[0])
    else Find(refs[1..], id)
  }

  function Seen(kind: string, name: string, found: Option<ResourceRef>): seq<Consumer> {
    if found.Some? then [Consumer(kind, name, found.value)] else []
  }

  function WorkloadConsumers(entries: seq<WorkloadEntry>, id: Id): seq<Consumer> {
    if entries == [] then []
    else
      var e := entries[|entries| - 1];
      WorkloadConsumers(entries[..|entries| - 1], id) + Seen(e.workload.kind, e.workload.name, Find(e.refs, id))
  }

  ghost function PodConsumers(pods: seq<IndexedPod>, accounts: Accounts, id: Id): seq<Consumer> {
    if pods == [] then []
    else
      var pod := pods[|pods| - 1];
      PodConsumers(pods[..|pods| - 1], accounts, id)
      + Seen("Pod", pod.name, Find(Aggregated(Joined(pod.refs, pod.saName, accounts)), id))
  }

  ghost function AccountConsumers(names: seq<string>, accounts: Accounts, id: Id): seq<Consumer>
    requires forall n | n in names :: n in accounts
  {
    if names == [] then []
    else
      var name := names[|names| - 1];
      AccountConsumers(names[..|names| - 1], accounts, id)
      + Seen("ServiceAccount", name, Find(Aggregated(AccountOccurrences(accounts[name])), id))
  }

  predicate NameLess(a: Consumer, b: Consumer) { Natsort.CharsLess(a.name, b.name) }

  ghost function AccountNames(accounts: Accounts): (names: seq<string>)
    ensures Lists(Natsort.CharsLess, names, accounts.Keys)
  {
    Natsort.CharsLessIsStrictTotal();
    Listed(Natsort.CharsLess, accounts.Keys)
  }

  /** Everything that refers to a resource: workloads, loose pods, accounts, each in order. */
  ghost function ConsumersAnswer(c: Contents, id: Id): seq<Consumer> {
    WorkloadConsumers(WorkloadsAnswer(c), id)
    + Sort(NameLess, PodConsumers(Loose(c.pods, c.workloads), c.accounts, id))
    + AccountConsumers(AccountNames(c.accounts), c.accounts, id)
  }

  /** Known absence. */
  predicate Absent(c: Contents, kind: string, name: string) {
    kind in c.known && !(kind in c.existing && name in c.existing[kind])
  }

  /** Every account is kept under its own name. */
  ghost predicate OwnNames(accounts: Accounts) { forall n | n in accounts :: accounts[n].name == n }

  // ---------------------------------------------------------------- the index

  class RefIndex {
    var workloads: seq<IndexedWorkload>
    var pods: seq<IndexedPod>
    var serviceAccounts: Accounts
    var existing: map<string, set<string>>
    var existenceKnown: map<string, bool>
    var failedSources: seq<string>

    function State(): Contents
      reads this
    {
      Contents(workloads, pods, serviceAccounts, existing,
               (set k | k in existenceKnown && existenceKnown[k]), failedSources)
    }

    ghost predicate Valid()
      reads this
    {
      OwnNames(serviceAccounts)
    }

    constructor ()
      ensures Valid() && State() == EMPTY
    {
      workloads, pods, serviceAccounts := [], [], map[];
      existing, existenceKnown, failedSources := map[], map[], [];
    }

    method AddWorkload(w: Workload)
      modifies this
      ensures State() == old(State()).(workloads := old(State()).workloads + IndexWorkload(w))
      ensures |workloads| == |old(workloads)| + 1 && var x := workloads[|old(workloads)|];
                x.workload == w && x.refs == Occurrences(w.spec) && x.saName == AccountName(Some(w.spec))
    {
      var refs, saName := WalkPodSpec(Some(w.spec));
      workloads := workloads + [IndexedWorkload(w, refs, saName)];
    }

    method AddPod(pod: Option<Pod>)
      modifies this
      ensures State() == if pod.Some? then old(State()).(pods := old(State()).pods + IndexPod(pod.value)) else old(State())
      ensures pod.Some? ==> |pods| == |old(pods)| + 1 && var x, p := pods[|old(pods)|], pod.value;
                && x.name == p.name && x.refs == Occurrences(p.spec) && x.saName == AccountName(Some(p.spec))
                && Owner(x.ownerKind, x.ownerName) == if p.controller.Some? then p.controller.value else Owner("", "")
    {
      if pod.None? { return; }
      var p := pod.value;
      var refs, saName := WalkPodSpec(Some(p.spec));
      var ownerKind, ownerName := "", "";
      if p.controller.Some? {
        ownerKind, ownerName := p.controller.value.kind, p.controller.value.name;
      }
      pods := pods + [IndexedPod(p.name, refs, saName, ownerKind, ownerName)];
    }

    method AddServiceAccount(account: Option<ServiceAccount>)
      requires Valid()
      modifies this
      ensures Valid()
      ensures State() == if account.Some? then old(State()).(accounts := WithAccounts(old(State()).accounts, [account.value]))
                         else old(State())
      ensures serviceAccounts == if account.Some? && account.value.name != "" then old(serviceAccounts)[account.value.name := account.value]
                                 else old(serviceAccounts)
    {
      if account.None? || account.value.name == "" { return; }
      serviceAccounts := serviceAccounts[account.value.name := account.value];
    }

    method AddWorkloads(items: seq<Workload>)
      modifies this
      ensures State() == old(State()).(workloads := old(State()).workloads + Gather(IndexWorkload, items))
    {
      for i := 0 to |items|
        invariant State() == old(State()).(workloads := old(State()).workloads + Gather(IndexWorkload, items[..i]))
      {
        GatherStep(IndexWorkload, items, i);
        AddWorkload(items[i]);
      }
      GatherAll(IndexWorkload, items);
    }

    method AddPods(items: seq<Pod>)
      modifies this
      ensures State() == old(State()).(pods := old(State()).pods + Gather(IndexPod, items))
    {
      for i := 0 to |items|
        invariant State() == old(State()).(pods := old(State()).pods + Gather(IndexPod, items[..i]))
      {
        GatherStep(IndexPod, items, i);
        AddPod(Some(items[i]));
      }
      GatherAll(IndexPod, items);
    }

    method AddServiceAccounts(items: seq<ServiceAccount>)
      requires Valid()
      modifies this
      ensures Valid() && State() == old(State()).(accounts := WithAccounts(old(State()).accounts, items))
    {
      for i := 0 to |items|
        invariant Valid() && State() == old(State()).(accounts := WithAccounts(old(State()).accounts, items[..i]))
      {
        assert items[..i + 1][..i] == items[..i];
        AddServiceAccount(Some(items[i]));
      }
      assert items[..|items|] == items;
    }

    method AddExisting(kind: string, names: seq<string>, complete: bool)
      modifies this
      ensures kind != KIND_SECRET && kind != KIND_CONFIG_MAP ==> State() == old(State())
      ensures kind == KIND_SECRET || kind == KIND_CONFIG_MAP ==>
                var was := old(State());
                State() == was.(known := was.known + (if complete then {kind} else {}),
                                existing := was.existing[kind := (if kind in was.existing then was.existing[kind] else {})
                                                                 + NonEmpty(names)])
    {
      if kind != KIND_SECRET && kind != KIND_CONFIG_MAP { return; }
      if complete { existenceKnown := existenceKnown[kind := true]; }
      if kind !in existing { existing := existing[kind := {}]; }
      ghost var before, start := existing, existing[kind];
      for i := 0 to |names|
        modifies this`existing
        invariant kind in existing && existing[kind] == start + NonEmpty(names[..i])
        invariant existing - {kind} == before - {kind}
      {
        assert names[..i + 1] == names[..i] + [names[i]];
        if names[i] != "" { existing := existing[kind := existing[kind] + {names[i]}]; }
      }
      assert names[..|names|] == names;
      UpdateOf(before, existing, kind);
    }

    method AddSourceError(source: string)
      modifies this
      ensures State() == old(State()).(failed := old(State()).failed + [source])
    {
      failedSources := failedSources + [source];
    }

    method PodCovered(pod: IndexedPod) returns (covered: bool)
      ensures covered == CoversPod(workloads, pod)
    {
      if pod.ownerKind == "StatefulSet" || pod.ownerKind == "DaemonSet" || pod.ownerKind == "Job" {
        for i := 0 to |workloads|
          invariant forall w | w in workloads[..i] :: !(w.workload.kind == pod.ownerKind && w.workload.name == pod.ownerName)
        {
          if workloads[i].workload.kind == pod.ownerKind && workloads[i].workload.name == pod.ownerName { return true; }
        }
        assert workloads[..|workloads|] == workloads;
        return false;
      }
      if pod.ownerKind == "ReplicaSet" {
        for i := 0 to |workloads|
          invariant forall w | w in workloads[..i] :: !(w.workload.kind == "Deployment" && Made(w.workload.name, pod.ownerName))
        {
          var w := workloads[i];
          if w.workload.kind != "Deployment" { continue; }
          if Made(w.workload.name, pod.ownerName) {
            MadeMeans(w.workload.name, pod.ownerName);
            return true;
          }
        }
        assert workloads[..|workloads|] == workloads;
        forall w, hash | w in workloads && w.workload.kind == "Deployment" && TemplateHash(hash)
          ensures pod.ownerName != w.workload.name + "-" + hash
        {
          MadeMeans(w.workload.name, pod.ownerName);
        }
        return false;
      }
      covered := false;
    }

    method WithServiceAccount(refs: seq<Ref>, name: string) returns (joined: seq<Ref>)
      ensures joined == Joined(refs, name, serviceAccounts)
    {
      joined := refs;
      if name in serviceAccounts {
        var more := ServiceAccountRefs(Some(serviceAccounts[name]));
        joined := joined + more;
      }
    }

    method Workloads() returns (entries: seq<WorkloadEntry>)
      ensures entries == WorkloadsAnswer(State())
    {
      hide Joined, Aggregated, WorkloadLess;
      entries := [];
      for i := 0 to |workloads|
        invariant |entries| == i
        invariant forall j | 0 <= j < i :: entries[j] == EntryFor(workloads[j], serviceAccounts)
      {
        var w := workloads[i];
        var refs := WithServiceAccount(w.refs, w.saName);
        var aggregated := AggregateRefs(refs);
        entries := entries + [WorkloadEntry(w.workload, aggregated)];
      }
      assert entries == EntriesFor(workloads, serviceAccounts);
      entries := Sort(WorkloadLess, entries);
    }

    method Orphans() returns (names: seq<string>, refs: seq<ResourceRef>)
      ensures names == OrphanNames(State()) && refs == OrphanRefs(State())
    {
      hide CoversPod, Joined, Aggregated, NamesOfPods, RefsOfPods, Loose;
      names := [];
      var all := [];
      NoPods(workloads, serviceAccounts, ("", ""));
      for i := 0 to |pods|
        invariant names == NamesOfPods(Loose(pods[..i], workloads), serviceAccounts)
        invariant all == RefsOfPods(Loose(pods[..i], workloads), serviceAccounts)
      {
        LooseStep(pods, workloads, i);
        var covered := PodCovered(pods[i]);
        if covered { continue; }
        var podRefs := WithServiceAccount(pods[i].refs, pods[i].saName);
        OnePodMore(Loose(pods[..i], workloads), pods[i], serviceAccounts, ("", ""));
        if |podRefs| == 0 { continue; }
        names, all := names + [pods[i].name], all + podRefs;
      }
      assert pods[..|pods|] == pods;
      names := Sort(Natsort.CharsLess, names);
      refs := AggregateRefs(all);
    }

    method LoosePodConsumers(id: Id) returns (consumers: seq<Consumer>)
      ensures consumers == PodConsumers(Loose(pods, workloads), serviceAccounts, id)
    {
      hide CoversPod, Joined, Aggregated, PodConsumers, Loose;
      consumers := [];
      NoPods(workloads, serviceAccounts, id);
      for i := 0 to |pods|
        invariant consumers == PodConsumers(Loose(pods[..i], workloads), serviceAccounts, id)
      {
        LooseStep(pods, workloads, i);
        var covered := PodCovered(pods[i]);
        if covered { continue; }
        var refs := WithServiceAccount(pods[i].refs, pods[i].saName);
        var aggregated := AggregateRefs(refs);
        OnePodMore(Loose(pods[..i], workloads), pods[i], serviceAccounts, id);
        consumers := consumers + Seen("Pod", pods[i].name, Find(aggregated, id));
      }
      assert pods[..|pods|] == pods;
    }

    method MatchingWorkloads(id: Id) returns (consumers: seq<Consumer>)
      ensures consumers == WorkloadConsumers(WorkloadsAnswer(State()), id)
    {
      hide WorkloadConsumers, WorkloadsAnswer, Seen, Find;
      var entries := Workloads();
      consumers := [];
      NoConsumers(entries, id);
      for i := 0 to |entries|
        invariant consumers == WorkloadConsumers(entries[..i], id)
      {
        ConsumersStep(entries, i, id);
        var e := entries[i];
        consumers := consumers + Seen(e.workload.kind, e.workload.name, Find(e.refs, id));
      }
      assert entries[..|entries|] == entries;
    }

    /** The accounts are visited in any order, and sorted at the end. */
    method MatchingAccounts(id: Id) returns (consumers: seq<Consumer>)
      requires Valid()
      ensures consumers == AccountConsumers(AccountNames(serviceAccounts), serviceAccounts, id)
    {
      hide Aggregated;
      var names := MapKeys(serviceAccounts);
      consumers := [];
      for i := 0 to |names|
        invariant consumers == AccountConsumers(names[..i], serviceAccounts, id)
      {
        assert names[..i + 1][..i] == names[..i];
        assert names[i] in names;
        var account := serviceAccounts[names[i]];
        var refs := ServiceAccountRefs(Some(account));
        var aggregated := AggregateRefs(refs);
        consumers := consumers + Seen("ServiceAccount", account.name, Find(aggregated, id));
      }
      assert names[..|names|] == names;
      AccountOrderIrrelevant(names, serviceAccounts, id);
      consumers := Sort(NameLess, consumers);
    }

    method ConsumersOf(kind: string, name: string) returns (consumers: seq<Consumer>)
      requires Valid()
      ensures consumers == ConsumersAnswer(State(), (kind, name))
    {
      consumers := MatchingWorkloads((kind, name));
      var loose := LoosePodConsumers((kind, name));
      consumers := consumers + Sort(NameLess, loose);
      var more := MatchingAccounts((kind, name));
      consumers := consumers + more;
    }

    method Missing(kind: string, name: string) returns (missing: bool)
      ensures missing == Absent(State(), kind, name)
    {
      if !(kind in existenceKnown && existenceKnown[kind]) { return false; }
      missing := !(kind in existing && name in existing[kind]);
    }
  }

  lemma UpdateOf<K, V>(before: map<K, V>, after: map<K, V>, key: K)
    requires key in after && after - {key} == before - {key}
    ensures after == before[key := after[key]]
  {
    forall k ensures k in after <==> k in before[key := after[key]] {
      assert k in after - {key} <==> k in before - {key};
    }
    forall k | k in after ensures after[k] == before[key := after[key]][k] {
      if k != key { assert (after - {key})[k] == (before - {key})[k]; }
    }
  }

  lemma LooseStep(pods: seq<IndexedPod>, workloads: seq<IndexedWorkload>, i: nat)
    requires i < |pods|
    ensures Loose(pods[..i + 1], workloads) ==
            if CoversPod(workloads, pods[i]) then Loose(pods[..i], workloads) else Loose(pods[..i], workloads) + [pods[i]]
  {
    assert pods[..i + 1][..i] == pods[..i];
  }

  lemma NoPods(workloads: seq<IndexedWorkload>, accounts: Accounts, id: Id)
    ensures Loose([], workloads) == []
    ensures NamesOfPods([], accounts) == [] && RefsOfPods([], accounts) == [] && PodConsumers([], accounts, id) == []
  {
  }

  lemma OnePodMore(pods: seq<IndexedPod>, pod: IndexedPod, accounts: Accounts, id: Id)
    ensures RefsOfPods(pods + [pod], accounts) == RefsOfPods(pods, accounts) + Joined(pod.refs, pod.saName, accounts)
    ensures NamesOfPods(pods + [pod], accounts) ==
            if Joined(pod.refs, pod.saName, accounts) == [] then NamesOfPods(pods, accounts)
            else NamesOfPods(pods, accounts) + [pod.name]
    ensures PodConsumers(pods + [pod], accounts, id) ==
            PodConsumers(pods, accounts, id) + Seen("Pod", pod.name, Find(Aggregated(Joined(pod.refs, pod.saName, accounts)), id))
  {
    hide Joined, Aggregated, Find;
    assert (pods + [pod])[..|pods|] == pods;
  }

  /** The owner is the name of the Deployment, a dash and a pod template hash. */
  predicate Made(deployment: string, owner: string) {
    deployment + "-" <= owner && TemplateHash(owner[|deployment| + 1..])
  }

  lemma MadeMeans(deployment: string, owner: string)
    ensures Made(deployment, owner) <==> exists hash :: TemplateHash(hash) && owner == deployment + "-" + hash
  {
    if Made(deployment, owner) {
      var hash := owner[|deployment| + 1..];
      assert owner == deployment + "-" + hash;
    }
    forall hash | TemplateHash(hash) && owner == deployment + "-" + hash ensures Made(deployment, owner) {
      assert owner[|deployment| + 1..] == hash;
    }
  }

  // ---------------------------------------------------------------- order of accounts

  lemma {:induction false} InAccountConsumers(names: seq<string>, accounts: Accounts, id: Id, x: Consumer)
    requires forall n | n in names :: n in accounts
    ensures x in AccountConsumers(names, accounts, id) <==>
              x.name in names && Seen("ServiceAccount", x.name, Find(Aggregated(AccountOccurrences(accounts[x.name])), id)) == [x]
  {
    hide Aggregated, Find;
    if names != [] {
      InAccountConsumers(names[..|names| - 1], accounts, id, x);
      assert names == names[..|names| - 1] + [names[|names| - 1]];
    }
  }

  lemma {:induction false} AccountConsumersComparable(names: seq<string>, accounts: Accounts, id: Id)
    requires forall n | n in names :: n in accounts
    requires forall i, j | 0 <= i < j < |names| :: names[i] != names[j]
    ensures Comparable(NameLess, AccountConsumers(names, accounts, id))
  {
    hide Aggregated, Find;
    if names != [] {
      var init, last := names[..|names| - 1], names[|names| - 1];
      AccountConsumersComparable(init, accounts, id);
      forall x | x in AccountConsumers(init, accounts, id) ensures Natsort.CharsLess(x.name, last) || Natsort.CharsLess(last, x.name) {
        InAccountConsumers(init, accounts, id, x);
        Natsort.CharsLessIsStrictTotal();
      }
    }
  }

  lemma {:induction false} AccountConsumersSorted(names: seq<string>, accounts: Accounts, id: Id)
    requires forall n | n in names :: n in accounts
    requires StrictlySorted(Natsort.CharsLess, names)
    ensures StrictlySorted(NameLess, AccountConsumers(names, accounts, id))
  {
    hide Aggregated, Find, Natsort.CharsLess;
    if names != [] {
      var init, last := names[..|names| - 1], names[|names| - 1];
      AccountConsumersSorted(init, accounts, id);
      forall x | x in AccountConsumers(init, accounts, id) ensures Natsort.CharsLess(x.name, last) {
        InAccountConsumers(init, accounts, id, x);
      }
    }
  }

  lemma AccountOrderIrrelevant(names: seq<string>, accounts: Accounts, id: Id)
    requires forall n :: n in names <==> n in accounts
    requires forall i, j | 0 <= i < j < |names| :: names[i] != names[j]
    ensures Sort(NameLess, AccountConsumers(names, accounts, id)) == AccountConsumers(AccountNames(accounts), accounts, id)
  {
    hide AccountConsumers, Aggregated, Find;
    var listed := AccountNames(accounts);
    var unsorted, sorted := AccountConsumers(names, accounts, id), AccountConsumers(listed, accounts, id);
    Natsort.CharsLessIsStrictTotal();
    AccountConsumersComparable(names, accounts, id);
    SortStrictly(NameLess, unsorted);
    AccountConsumersSorted(listed, accounts, id);
    forall x ensures x in unsorted <==> x in sorted {
      InAccountConsumers(names, accounts, id, x);
      InAccountConsumers(listed, accounts, id, x);
    }
    StrictlySortedUnique(NameLess, Sort(NameLess, unsorted), sorted);
  }

  // ---------------------------------------------------------------- order of workloads

  /** Names are unique within a kind, and the kinds are the ones the index knows. */
  ghost predicate UniqueNames(workloads: seq<IndexedWorkload>) {
    && (forall w | w in workloads :: w.workload.kind in WORKLOAD_KINDS)
    && forall i, j | 0 <= i < j < |workloads| ::
         workloads[i].workload.kind != workloads[j].workload.kind || workloads[i].workload.name != workloads[j].workload.name
  }

  lemma WorkloadLessIsStrictWeak()
    ensures StrictWeak(WorkloadLess)
  {
    hide KindIndex;
    forall x, y ensures WorkloadLess(x, y) ==> !WorkloadLess(y, x) {
      Natsort.CharsAntisymmetric(x.workload.name, y.workload.name);
    }
    forall x, y, z | WorkloadLess(x, z) ensures WorkloadLess(x, y) || WorkloadLess(y, z) {
      if KindIndex(x.workload.kind) == KindIndex(z.workload.kind) {
        Natsort.CharsSplit(x.workload.name, y.workload.name, z.workload.name);
      }
    }
  }

  lemma EntriesComparable(workloads: seq<IndexedWorkload>, accounts: Accounts)
    requires UniqueNames(workloads)
    ensures Comparable(WorkloadLess, EntriesFor(workloads, accounts))
  {
    hide Aggregated;
    forall i, j | 0 <= i < j < |workloads|
      ensures WorkloadLess(EntriesFor(workloads, accounts)[i], EntriesFor(workloads, accounts)[j])
           || WorkloadLess(EntriesFor(workloads, accounts)[j], EntriesFor(workloads, accounts)[i])
    {
      var v, w := workloads[i].workload, workloads[j].workload;
      assert workloads[i] in workloads && workloads[j] in workloads;
      Natsort.CharsAntisymmetric(v.name, w.name);
    }
  }

  lemma SameEntries(workloads: seq<IndexedWorkload>, others: seq<IndexedWorkload>, accounts: Accounts)
    requires forall w :: w in workloads <==> w in others
    ensures forall e :: e in EntriesFor(workloads, accounts) <==> e in EntriesFor(others, accounts)
  {
    hide EntryFor;
    var s, t := EntriesFor(workloads, accounts), EntriesFor(others, accounts);
    forall e ensures e in s <==> e in t {
      if e in s {
        var i :| 0 <= i < |s| && s[i] == e;
        assert workloads[i] in others;
      }
      if e in t {
        var i :| 0 <= i < |t| && t[i] == e;
        assert others[i] in workloads;
      }
    }
  }

  /** The answer about workloads does not depend on the order they were added in. */
  lemma WorkloadOrderIrrelevant(c: Contents, d: Contents)
    requires UniqueNames(c.workloads) && UniqueNames(d.workloads)
    requires forall w :: w in c.workloads <==> w in d.workloads
    requires c.accounts == d.accounts
    ensures WorkloadsAnswer(c) == WorkloadsAnswer(d)
  {
    hide EntryFor, EntriesFor, WorkloadLess, UniqueNames, Comparable, StrictWeak, StrictlySorted;
    var s, t := EntriesFor(c.workloads, c.accounts), EntriesFor(d.workloads, d.accounts);
    WorkloadLessIsStrictWeak();
    EntriesComparable(c.workloads, c.accounts);
    EntriesComparable(d.workloads, d.accounts);
    SortStrictly(WorkloadLess, s);
    SortStrictly(WorkloadLess, t);
    SameEntries(c.workloads, d.workloads, c.accounts);
    StrictlySortedUnique(WorkloadLess, Sort(WorkloadLess, s), Sort(WorkloadLess, t));
  }

  lemma {:induction false} LooseSame(pods: seq<IndexedPod>, workloads: seq<IndexedWorkload>, others: seq<IndexedWorkload>)
    requires forall w :: w in workloads <==> w in others
    ensures Loose(pods, workloads) == Loose(pods, others)
  {
    hide TemplateHash;
    if pods != [] { LooseSame(pods[..|pods| - 1], workloads, others); }
  }

  /** Two indexes that differ in nothing but the order of their workloads answer alike. */
  ghost predicate SameConsumers(c: Contents, d: Contents) {
    && UniqueNames(c.workloads) && UniqueNames(d.workloads)
    && (forall w :: w in c.workloads <==> w in d.workloads)
    && c.pods == d.pods && c.accounts == d.accounts
  }

  lemma AnswersAgree(c: Contents, d: Contents, id: Id)
    requires SameConsumers(c, d)
    ensures WorkloadsAnswer(c) == WorkloadsAnswer(d)
    ensures OrphanNames(c) == OrphanNames(d) && OrphanRefs(c) == OrphanRefs(d)
    ensures ConsumersAnswer(c, id) == ConsumersAnswer(d, id)
  {
    hide WorkloadsAnswer, UniqueNames, Aggregated, PodConsumers, AccountConsumers, WorkloadConsumers, CoversPod;
    WorkloadOrderIrrelevant(c, d);
    LooseSame(c.pods, c.workloads, d.workloads);
  }

  // ---------------------------------------------------------------- who consumes

  /** `x` is the consumer of that kind and name, seen through those of `refs` that point at `id`. */
  ghost predicate Sees(x: Consumer, kind: string, name: string, refs: seq<Ref>, id: Id) {
    x.kind == kind && x.name == name && Mentions(refs, id) && IsEntry(x.ref, id, Collected(refs, id))
  }

  lemma {:induction false} FindFirst(entries: seq<ResourceRef>, id: Id)
    ensures Find(entries, id).None? ==> forall i | 0 <= i < |entries| :: IdOf(entries[i]) != id
    ensures Find(entries, id).Some? ==> exists i | 0 <= i < |entries| :: entries[i] == Find(entries, id).value && IdOf(entries[i]) == id
  {
    if entries != [] && IdOf(entries[0]) != id {
      FindFirst(entries[1..], id);
      if Find(entries[1..], id).Some? {
        var i :| 0 <= i < |entries| - 1 && entries[1..][i] == Find(entries[1..], id).value && IdOf(entries[1..][i]) == id;
        assert entries[i + 1] == Find(entries, id).value;
      }
      forall i | 0 < i < |entries| && Find(entries, id).None? ensures IdOf(entries[i]) != id {
        assert entries[i] == entries[1..][i - 1];
      }
    }
  }

  lemma SeenIff(x: Consumer, kind: string, name: string, refs: seq<Ref>, id: Id)
    ensures x in Seen(kind, name, Find(Aggregated(refs), id)) <==> Sees(x, kind, name, refs, id)
  {
    hide Target, Collected, TagsInOrder, IsListing, StrictlySorted;
    var entries := Aggregated(refs);
    FindFirst(entries, id);
    InGather(Target, refs, id);
    assert Mentions(refs, id) <==> id in Gather(Target, refs) by {
      TargetIsOne(refs, id);
    }
    if Mentions(refs, id) && IsEntry(x.ref, id, Collected(refs, id)) {
      EntryUnique(x.ref, Find(entries, id).value, id, Collected(refs, id));
    }
  }

  lemma TargetIsOne(refs: seq<Ref>, id: Id)
    ensures Mentions(refs, id) <==> exists r :: r in refs && id in Target(r)
  {
    forall r ensures id in Target(r) <==> Target(r) == [id] {}
  }

  lemma {:induction false} InLoose(pods: seq<IndexedPod>, workloads: seq<IndexedWorkload>, pod: IndexedPod)
    ensures pod in Loose(pods, workloads) <==> pod in pods && !CoversPod(workloads, pod)
  {
    hide CoversPod;
    if pods != [] {
      InLoose(pods[..|pods| - 1], workloads, pod);
      assert pods == pods[..|pods| - 1] + [pods[|pods| - 1]];
    }
  }

  lemma {:induction false} InPodConsumers(pods: seq<IndexedPod>, accounts: Accounts, id: Id, x: Consumer)
    ensures x in PodConsumers(pods, accounts, id) <==>
              exists p :: p in pods && Sees(x, "Pod", p.name, Joined(p.refs, p.saName, accounts), id)
  {
    hide Sees, Joined, Seen, Find, Aggregated;
    if pods != [] {
      var init, last := pods[..|pods| - 1], pods[|pods| - 1];
      InPodConsumers(init, accounts, id, x);
      SeenIff(x, "Pod", last.name, Joined(last.refs, last.saName, accounts), id);
      assert pods == init + [last];
    }
  }

  lemma {:induction false} InWorkloadConsumers(entries: seq<WorkloadEntry>, id: Id, x: Consumer)
    ensures x in WorkloadConsumers(entries, id) <==>
              exists e :: e in entries && x in Seen(e.workload.kind, e.workload.name, Find(e.refs, id))
  {
    hide Seen, Find;
    if entries != [] {
      InWorkloadConsumers(entries[..|entries| - 1], id, x);
      assert entries == entries[..|entries| - 1] + [entries[|entries| - 1]];
    }
  }

  lemma NoConsumers(entries: seq<WorkloadEntry>, id: Id)
    ensures WorkloadConsumers(entries[..0], id) == []
  {
  }

  lemma ConsumersStep(entries: seq<WorkloadEntry>, i: nat, id: Id)
    requires i < |entries|
    ensures WorkloadConsumers(entries[..i + 1], id) ==
            WorkloadConsumers(entries[..i], id) + Seen(entries[i].workload.kind, entries[i].workload.name, Find(entries[i].refs, id))
  {
    hide Seen, Find;
    assert entries[..i + 1][..i] == entries[..i];
  }

  ghost predicate WorkloadSees(c: Contents, id: Id, x: Consumer) {
    exists w :: w in c.workloads && Sees(x, w.workload.kind, w.workload.name, Joined(w.refs, w.saName, c.accounts), id)
  }

  ghost predicate PodSees(c: Contents, id: Id, x: Consumer) {
    exists p :: p in c.pods && !CoversPod(c.workloads, p) && Sees(x, "Pod", p.name, Joined(p.refs, p.saName, c.accounts), id)
  }

  ghost predicate AccountSees(c: Contents, id: Id, x: Consumer) {
    x.name in c.accounts && Sees(x, "ServiceAccount", x.name, AccountOccurrences(c.accounts[x.name]), id)
  }

  lemma EntrySees(w: IndexedWorkload, accounts: Accounts, id: Id, x: Consumer)
    ensures var e := EntryFor(w, accounts);
      x in Seen(e.workload.kind, e.workload.name, Find(e.refs, id)) <==>
      Sees(x, w.workload.kind, w.workload.name, Joined(w.refs, w.saName, accounts), id)
    ensures EntryFor(w, accounts).workload == w.workload
  {
    hide Sees, Joined, Seen, Find, Aggregated;
    SeenIff(x, w.workload.kind, w.workload.name, Joined(w.refs, w.saName, accounts), id);
  }

  lemma InWorkloadsPart(c: Contents, id: Id, x: Consumer)
    ensures x in WorkloadConsumers(WorkloadsAnswer(c), id) <==> WorkloadSees(c, id, x)
  {
    hide Sees, Joined, Seen, Find, EntryFor, EntriesFor, WorkloadConsumers, WorkloadLess;
    var entries := EntriesFor(c.workloads, c.accounts);
    SameElements(Sort(WorkloadLess, entries), entries);
    InWorkloadConsumers(WorkloadsAnswer(c), id, x);
    if WorkloadSees(c, id, x) {
      var w :| w in c.workloads && Sees(x, w.workload.kind, w.workload.name, Joined(w.refs, w.saName, c.accounts), id);
      var i :| 0 <= i < |c.workloads| && c.workloads[i] == w;
      EntrySees(w, c.accounts, id, x);
      assert entries[i] in entries;
    }
    if e :| e in WorkloadsAnswer(c) && x in Seen(e.workload.kind, e.workload.name, Find(e.refs, id)) {
      var i :| 0 <= i < |entries| && entries[i] == e;
      EntrySees(c.workloads[i], c.accounts, id, x);
      assert c.workloads[i] in c.workloads;
    }
  }

  /** The consumers of a resource are the workloads whose references, joined with those of
      their accounts, point at it, the loose pods likewise, and the accounts themselves. */
  lemma ConsumersIff(c: Contents, id: Id, x: Consumer)
    ensures x in ConsumersAnswer(c, id) <==> WorkloadSees(c, id, x) || PodSees(c, id, x) || AccountSees(c, id, x)
  {
    hide Sees, Joined, Find, Aggregated, CoversPod, WorkloadConsumers, PodConsumers, AccountConsumers, WorkloadsAnswer, WorkloadSees;
    InWorkloadsPart(c, id, x);
    var loose := Loose(c.pods, c.workloads);
    SameElements(Sort(NameLess, PodConsumers(loose, c.accounts, id)), PodConsumers(loose, c.accounts, id));
    InPodConsumers(loose, c.accounts, id, x);
    forall p { InLoose(c.pods, c.workloads, p); }
    InAccountConsumers(AccountNames(c.accounts), c.accounts, id, x);
    if x.name in c.accounts { SeenIff(x, "ServiceAccount", x.name, AccountOccurrences(c.accounts[x.name]), id); }
  }

  // ---------------------------------------------------------------- what the answers mean

  /** The references of a consumer are its own and, when its account is known, the account's. */
  lemma JoinedHas(refs: seq<Ref>, saName: string, accounts: Accounts, r: Ref)
    ensures r in Joined(refs, saName, accounts) <==> r in refs || (saName in accounts && Carries(accounts[saName], r))
  {
    hide AccountOccurrences, Carries;
    if saName in accounts { AccountOccursIff(accounts[saName], r); }
  }

  /** A pod of this spec uses the resource, or the account it runs as carries it. */
  ghost predicate Uses(spec: PodSpec, accounts: Accounts, id: Id) {
    var saName := if spec.serviceAccountName == "" then "default" else spec.serviceAccountName;
    PodNames(spec, id) || (saName in accounts && AccountCarries(accounts[saName], id))
  }

  lemma MentionedByEither(refs: seq<Ref>, saName: string, accounts: Accounts, id: Id)
    ensures Mentions(Joined(refs, saName, accounts), id) <==>
            Mentions(refs, id) || (saName in accounts && AccountCarries(accounts[saName], id))
  {
    hide AccountOccurrences, AccountCarries, Target;
    if saName in accounts {
      AccountMentions(accounts[saName], id);
      var more := AccountOccurrences(accounts[saName]);
      if Mentions(refs + more, id) {
        var r :| r in refs + more && Target(r) == [id];
      }
      if Mentions(refs, id) {
        var r :| r in refs && Target(r) == [id];
        assert r in refs + more;
      }
      if Mentions(more, id) {
        var r :| r in more && Target(r) == [id];
        assert r in refs + more;
      }
    } else {
      assert refs + [] == refs;
    }
  }

  /** A workload consumes a resource, through its own pods or their account, exactly when its
      spec uses it; a pod likewise. */
  lemma ConsumesIff(w: Workload, p: Pod, accounts: Accounts, id: Id)
    ensures var x := IndexWorkload(w)[0]; Mentions(Joined(x.refs, x.saName, accounts), id) <==> Uses(w.spec, accounts, id)
    ensures var x := IndexPod(p)[0]; Mentions(Joined(x.refs, x.saName, accounts), id) <==> Uses(p.spec, accounts, id)
  {
    hide Occurrences, Joined, PodNames, AccountCarries, Mentions;
    MentionedByEither(Occurrences(w.spec), AccountName(Some(w.spec)), accounts, id);
    MentionedByEither(Occurrences(p.spec), AccountName(Some(p.spec)), accounts, id);
    PodMentions(w.spec, id);
    PodMentions(p.spec, id);
  }

  /** The pod is one that no workload accounts for. */
  ghost predicate Orphaned(c: Contents, p: IndexedPod) { p in c.pods && !CoversPod(c.workloads, p) }

  /** The orphans listed are the names of the loose pods that refer to something, in order, and
      the references are those of the loose pods and of their accounts. */
  lemma OrphansIff(c: Contents)
    ensures forall name :: name in OrphanNames(c) <==>
              exists p :: Orphaned(c, p) && p.name == name && Joined(p.refs, p.saName, c.accounts) != []
    ensures Sorted(Natsort.CharsLess, OrphanNames(c))
    ensures exists refs :: IsAggregation(OrphanRefs(c), refs) &&
              forall r :: r in refs <==> exists p :: Orphaned(c, p) && r in Joined(p.refs, p.saName, c.accounts)
  {
    hide CoversPod, Joined, Aggregated, IsAggregation;
    var loose := Loose(c.pods, c.workloads);
    forall p ensures p in loose <==> Orphaned(c, p) { InLoose(c.pods, c.workloads, p); }
    var names := NamesOfPods(loose, c.accounts);
    Natsort.CharsLessIsStrictTotal();
    SortSorts(Natsort.CharsLess, names);
    SameElements(OrphanNames(c), names);
    forall name { InNamesOfPods(loose, c.accounts, name); }
    forall r { InRefsOfPods(loose, c.accounts, r); }
    assert IsAggregation(OrphanRefs(c), RefsOfPods(loose, c.accounts));
  }

  lemma {:induction false} InNamesOfPods(pods: seq<IndexedPod>, accounts: Accounts, name: string)
    ensures name in NamesOfPods(pods, accounts) <==>
            exists p :: p in pods && p.name == name && Joined(p.refs, p.saName, accounts) != []
  {
    hide Joined;
    if pods != [] {
      InNamesOfPods(pods[..|pods| - 1], accounts, name);
      assert pods == pods[..|pods| - 1] + [pods[|pods| - 1]];
    }
  }

  lemma {:induction false} InRefsOfPods(pods: seq<IndexedPod>, accounts: Accounts, r: Ref)
    ensures r in RefsOfPods(pods, accounts) <==> exists p :: p in pods && r in Joined(p.refs, p.saName, accounts)
  {
    hide Joined;
    if pods != [] {
      InRefsOfPods(pods[..|pods| - 1], accounts, r);
      assert pods == pods[..|pods| - 1] + [pods[|pods| - 1]];
    }
  }

  /** One entry for every workload, with the references of its pods and of their account; by
      kind in the order of the known kinds, and by name within a kind. */
  lemma WorkloadsListed(c: Contents)
    ensures |WorkloadsAnswer(c)| == |c.workloads|
    ensures forall e :: e in WorkloadsAnswer(c) <==> exists w :: w in c.workloads && IsEntryFor(e, w, c.accounts)
    ensures forall i, j | 0 <= i < j < |WorkloadsAnswer(c)| ::
              var v, w := WorkloadsAnswer(c)[i].workload, WorkloadsAnswer(c)[j].workload;
              && KindIndex(v.kind) <= KindIndex(w.kind)
              && (KindIndex(v.kind) == KindIndex(w.kind) ==> Natsort.CompareChars(v.name, w.name) <= 0)
  {
    hide EntryFor, KindIndex, IsEntryFor;
    var entries := EntriesFor(c.workloads, c.accounts);
    WorkloadLessIsStrictWeak();
    SortSorts(WorkloadLess, entries);
    SameElements(WorkloadsAnswer(c), entries);
    SameLength(WorkloadsAnswer(c), entries);
    forall e ensures e in entries <==> exists w :: w in c.workloads && IsEntryFor(e, w, c.accounts) {
      forall w { EntryForIff(e, w, c.accounts); }
      if e in entries {
        var i :| 0 <= i < |entries| && entries[i] == e;
        assert c.workloads[i] in c.workloads;
      }
      if w :| w in c.workloads && IsEntryFor(e, w, c.accounts) {
        var i :| 0 <= i < |c.workloads| && c.workloads[i] == w;
        assert entries[i] == e;
      }
    }
    forall i, j | 0 <= i < j < |WorkloadsAnswer(c)|
      ensures Natsort.CompareChars(WorkloadsAnswer(c)[i].workload.name, WorkloadsAnswer(c)[j].workload.name) <= 0
           || KindIndex(WorkloadsAnswer(c)[i].workload.kind) != KindIndex(WorkloadsAnswer(c)[j].workload.kind)
    {
      Natsort.CharsAntisymmetric(WorkloadsAnswer(c)[i].workload.name, WorkloadsAnswer(c)[j].workload.name);
    }
  }

  ghost predicate IsEntryFor(e: WorkloadEntry, w: IndexedWorkload, accounts: Accounts) {
    e.workload == w.workload && IsAggregation(e.refs, Joined(w.refs, w.saName, accounts))
  }

  lemma EntryForIff(e: WorkloadEntry, w: IndexedWorkload, accounts: Accounts)
    ensures IsEntryFor(e, w, accounts) <==> e == EntryFor(w, accounts)
  {
    hide IsAggregation, Aggregated, Joined;
    var refs := Joined(w.refs, w.saName, accounts);
    if IsEntryFor(e, w, accounts) { AggregationCanonical(e.refs, Aggregated(refs), refs, refs); }
  }

  lemma SameLength<T>(s: seq<T>, t: seq<T>)
    requires multiset(s) == multiset(t)
    ensures |s| == |t|
  {
    assert |s| == |multiset(s)| && |t| == |multiset(t)|;
  }

  predicate KindNameLess(a: Consumer, b: Consumer) {
    if KindIndex(a.kind) != KindIndex(b.kind) then KindIndex(a.kind) < KindIndex(b.kind)
    else Natsort.CompareChars(a.name, b.name) < 0
  }

  lemma {:induction false} WorkloadConsumersSorted(entries: seq<WorkloadEntry>, id: Id)
    requires Sorted(WorkloadLess, entries)
    ensures Sorted(KindNameLess, WorkloadConsumers(entries, id))
  {
    hide KindIndex, Find;
    if entries != [] {
      var init, e := entries[..|entries| - 1], entries[|entries| - 1];
      WorkloadConsumersSorted(init, id);
      forall x, y | x in WorkloadConsumers(init, id) && y in Seen(e.workload.kind, e.workload.name, Find(e.refs, id))
        ensures !KindNameLess(y, x)
      {
        InWorkloadConsumers(init, id, x);
        var d :| d in init && x in Seen(d.workload.kind, d.workload.name, Find(d.refs, id));
        var k :| 0 <= k < |init| && init[k] == d;
        assert !WorkloadLess(e, entries[k]);
      }
    }
  }

  lemma {:induction false} ArePods(pods: seq<IndexedPod>, accounts: Accounts, id: Id)
    ensures forall x | x in PodConsumers(pods, accounts, id) :: x.kind == "Pod"
  {
    hide Joined, Aggregated, Find;
    if pods != [] { ArePods(pods[..|pods| - 1], accounts, id); }
  }

  lemma {:induction false} AreAccounts(names: seq<string>, accounts: Accounts, id: Id)
    requires forall n | n in names :: n in accounts
    ensures forall x | x in AccountConsumers(names, accounts, id) :: x.kind == "ServiceAccount"
  {
    hide Aggregated, Find;
    if names != [] { AreAccounts(names[..|names| - 1], accounts, id); }
  }

  /** First the workloads by kind and name, then the pods by name, then the accounts by name. */
  ghost predicate InOrder(workloads: seq<Consumer>, pods: seq<Consumer>, accounts: seq<Consumer>) {
    && Sorted(KindNameLess, workloads)
    && Sorted(NameLess, pods) && (forall x | x in pods :: x.kind == "Pod")
    && StrictlySorted(NameLess, accounts) && (forall x | x in accounts :: x.kind == "ServiceAccount")
  }

  lemma ConsumersOrdered(c: Contents, id: Id)
    ensures exists workloads, pods, accounts ::
              ConsumersAnswer(c, id) == workloads + pods + accounts && InOrder(workloads, pods, accounts)
  {
    hide WorkloadConsumers, PodConsumers, AccountConsumers, WorkloadLess, NameLess, KindNameLess, EntriesFor;
    var entries := EntriesFor(c.workloads, c.accounts);
    WorkloadLessIsStrictWeak();
    SortSorts(WorkloadLess, entries);
    WorkloadConsumersSorted(WorkloadsAnswer(c), id);
    var loose, names := Loose(c.pods, c.workloads), AccountNames(c.accounts);
    var pods := PodConsumers(loose, c.accounts, id);
    NameLessIsStrictWeak();
    SortSorts(NameLess, pods);
    SameElements(Sort(NameLess, pods), pods);
    ArePods(loose, c.accounts, id);
    AccountConsumersSorted(names, c.accounts, id);
    AreAccounts(names, c.accounts, id);
    assert InOrder(WorkloadConsumers(WorkloadsAnswer(c), id), Sort(NameLess, pods), AccountConsumers(names, c.accounts, id));
  }

  lemma NameLessIsStrictWeak()
    ensures StrictWeak(NameLess)
  {
    hide Natsort.CharsLess;
    Natsort.CharsLessIsStrictTotal();
  }
}
