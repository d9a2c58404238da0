/** The Secret and ConfigMap references of a pod, and their aggregation by resource. */
module RefWalk {
  import opened Values
  import opened Resources
  import opened Sequences
  import opened Sorting
  import Natsort

  const KIND_SECRET := "Secret"
  const KIND_CONFIG_MAP := "ConfigMap"

  datatype Tag = Env | EnvFrom | VolumeTag | Projected | Pull | SA

  const TAG_ORDER := [Env, EnvFrom, VolumeTag, Projected, Pull, SA]

  /** One occurrence of a reference. */
  datatype Ref = Ref(kind: string, name: string, key: string, tag: Tag, subPath: bool)

  /** Every occurrence that points at one resource. */
  datatype ResourceRef = ResourceRef(kind: string, name: string, tags: seq<Tag>, keys: seq<string>,
                                     subPath: bool, rolloutNeeded: bool)

  // ---------------------------------------------------------------- pods

  datatype KeySelector = KeySelector(name: string, key: string)

  datatype EnvVar = EnvVar(secret: Option<KeySelector>, configMap: Option<KeySelector>)

  /** Sources that name a Secret, a ConfigMap, or both. */
  datatype Source = Source(secret: Option<string>, configMap: Option<string>)

  datatype Mount = Mount(name: string, subPath: string, subPathExpr: string)

  datatype Container = Container(env: seq<EnvVar>, envFrom: seq<Source>, mounts: seq<Mount>)

  datatype Volume = Volume(name: string, secret: Option<string>, configMap: Option<string>, csi: Option<string>,
                           projected: seq<Source>)

  datatype PodSpec = PodSpec(containers: seq<Container>, initContainers: seq<Container>,
                             ephemeralContainers: seq<Container>, volumes: seq<Volume>,
                             imagePullSecrets: seq<string>, serviceAccountName: string)

  datatype ServiceAccount = ServiceAccount(name: string, secrets: seq<string>, imagePullSecrets: seq<string>)

  // ---------------------------------------------------------------- what a pod refers to

  /** A reference to a resource that has a name. */
  function Named(kind: string, name: Option<string>, tag: Tag): seq<Ref> {
    if name.Some? && name.value != "" then [Ref(kind, name.value, "", tag, false)] else []
  }

  function Keyed(kind: string, selector: Option<KeySelector>): seq<Ref> {
    if selector.Some? && selector.value.name != "" then [Ref(kind, selector.value.name, selector.value.key, Env, false)] else []
  }

  function VarRefs(v: EnvVar): seq<Ref> { Keyed(KIND_SECRET, v.secret) + Keyed(KIND_CONFIG_MAP, v.configMap) }

  function SourceRefs(s: Source, tag: Tag): seq<Ref> {
    Named(KIND_SECRET, s.secret, tag) + Named(KIND_CONFIG_MAP, s.configMap, tag)
  }

  function EnvFromRefs(s: Source): seq<Ref> { SourceRefs(s, EnvFrom) }

  function ProjectedRefs(s: Source): seq<Ref> { SourceRefs(s, Projected) }

  function EnvironmentRefs(c: Container): seq<Ref> { Gather(VarRefs, c.env) + Gather(EnvFromRefs, c.envFrom) }

  function VolumeRefs(v: Volume): seq<Ref> {
    Named(KIND_SECRET, v.secret, VolumeTag) + Named(KIND_CONFIG_MAP, v.configMap, VolumeTag)
    + Named(KIND_SECRET, v.csi, VolumeTag) + Gather(ProjectedRefs, v.projected)
  }

  predicate UsesSubPath(m: Mount) { m.subPath != "" || m.subPathExpr != "" }

  predicate MountsInside(mounts: seq<Mount>, volume: string) {
    exists k | 0 <= k < |mounts| :: mounts[k].name == volume && UsesSubPath(mounts[k])
  }

  /** Some container mounts the volume by a path inside it. */
  predicate MountedInside(containers: seq<Container>, volume: string) {
    exists i | 0 <= i < |containers| :: MountsInside(containers[i].mounts, volume)
  }

  function Marked(refs: seq<Ref>, subPath: bool): (r: seq<Ref>)
    ensures |r| == |refs|
  {
    seq(|refs|, i requires 0 <= i < |refs| => refs[i].(subPath := subPath))
  }

  function AllVolumeRefs(volumes: seq<Volume>, containers: seq<Container>): seq<Ref> {
    if volumes == [] then []
    else
      var v := volumes[|volumes| - 1];
      AllVolumeRefs(volumes[..|volumes| - 1], containers) + Marked(VolumeRefs(v), MountedInside(containers, v.name))
  }

  function PullRefs(name: string): seq<Ref> { Named(KIND_SECRET, Some(name), Pull) }

  function AccountRefs(name: string): seq<Ref> { Named(KIND_SECRET, Some(name), SA) }

  function Containers(spec: PodSpec): seq<Container> {
    spec.containers + spec.initContainers + spec.ephemeralContainers
  }

  /** Every reference of a pod: from the environments of its containers, from its volumes,
      with the mark of a mount by sub-path, and from its pull secrets. */
  function Occurrences(spec: PodSpec): seq<Ref> {
    Gather(EnvironmentRefs, Containers(spec)) + AllVolumeRefs(spec.volumes, Containers(spec))
    + Gather(PullRefs, spec.imagePullSecrets)
  }

  function AccountName(spec: Option<PodSpec>): string {
    if spec.None? || spec.value.serviceAccountName == "" then "default" else spec.value.serviceAccountName
  }

  // ---------------------------------------------------------------- the walk

  function OwnedBy(name: string, n: nat): (r: seq<string>)
    ensures |r| == n && forall i | 0 <= i < n :: r[i] == name
  {
    seq(n, _ => name)
  }

  /** The volume each reference of `Gather(VolumeRefs, volumes)` comes from. */
  function Owners(volumes: seq<Volume>): (r: seq<string>)
    ensures |r| == |Gather(VolumeRefs, volumes)|
  {
    if volumes == [] then []
    else
      var v := volumes[|volumes| - 1];
      Owners(volumes[..|volumes| - 1]) + OwnedBy(v.name, |VolumeRefs(v)|)
  }

  /** The recorded positions of a volume's references. */
  function At(indices: map<string, seq<nat>>, name: string): seq<nat> {
    if name in indices then indices[name] else []
  }

  ghost predicate Indexed(indices: map<string, seq<nat>>, start: nat, owners: seq<string>) {
    forall name, i: nat :: i in At(indices, name) <==> start <= i < start + |owners| && owners[i - start] == name
  }

  method AppendEnvironment(start: seq<Ref>, c: Container) returns (refs: seq<Ref>)
    ensures refs == start + EnvironmentRefs(c)
  {
    hide Gather, VarRefs, EnvFromRefs;
    refs := start;
    GatherNone(VarRefs, c.env);
    for j := 0 to |c.env|
      invariant refs == start + Gather(VarRefs, c.env[..j])
    {
      GatherStep(VarRefs, c.env, j);
      refs := refs + VarRefs(c.env[j]);
    }
    GatherAll(VarRefs, c.env);
    ghost var middle := refs;
    GatherNone(EnvFromRefs, c.envFrom);
    for j := 0 to |c.envFrom|
      invariant refs == middle + Gather(EnvFromRefs, c.envFrom[..j])
    {
      GatherStep(EnvFromRefs, c.envFrom, j);
      refs := refs + EnvFromRefs(c.envFrom[j]);
    }
    GatherAll(EnvFromRefs, c.envFrom);
  }

  method AppendEnvironments(start: seq<Ref>, containers: seq<Container>) returns (refs: seq<Ref>)
    ensures refs == start + Gather(EnvironmentRefs, containers)
  {
    hide Gather, EnvironmentRefs;
    refs := start;
    GatherNone(EnvironmentRefs, containers);
    for i := 0 to |containers|
      invariant refs == start + Gather(EnvironmentRefs, containers[..i])
    {
      GatherStep(EnvironmentRefs, containers, i);
      refs := AppendEnvironment(refs, containers[i]);
    }
    GatherAll(EnvironmentRefs, containers);
  }

  /** Appends the references of one volume and records where they are. */
  method AppendVolume(start: seq<Ref>, indices: map<string, seq<nat>>, name: string, more: seq<Ref>,
                      ghost from: nat, ghost owners: seq<string>)
    returns (refs: seq<Ref>, updated: map<string, seq<nat>>)
    requires from + |owners| == |start| && Indexed(indices, from, owners)
    ensures refs == start + more
    ensures Indexed(updated, from, owners + OwnedBy(name, |more|))
  {
    hide Indexed;
    refs, updated := start, indices;
    assert owners + OwnedBy(name, 0) == owners;
    for j := 0 to |more|
      invariant refs == start + more[..j]
      invariant Indexed(updated, from, owners + OwnedBy(name, j))
    {
      refs := refs + [more[j]];
      IndexAdded(updated, from, owners + OwnedBy(name, j), name);
      updated := updated[name := At(updated, name) + [|refs| - 1]];
      assert owners + OwnedBy(name, j) + [name] == owners + OwnedBy(name, j + 1);
    }
    assert more[..|more|] == more;
  }

  lemma IndexAdded(indices: map<string, seq<nat>>, from: nat, owners: seq<string>, name: string)
    requires Indexed(indices, from, owners)
    ensures Indexed(indices[name := At(indices, name) + [from + |owners|]], from, owners + [name])
  {
    var updated, more := indices[name := At(indices, name) + [from + |owners|]], owners + [name];
    forall n, i: nat
      ensures i in At(updated, n) <==> from <= i < from + |more| && more[i - from] == n
    {
      assert i in At(indices, n) <==> from <= i < from + |owners| && owners[i - from] == n;
    }
  }

  lemma NothingOwned(start: nat)
    ensures Owners([]) == [] && Indexed(map[], start, [])
  {
  }

  lemma OwnersStep(volumes: seq<Volume>, i: nat)
    requires i < |volumes|
    ensures Owners(volumes[..i + 1]) == Owners(volumes[..i]) + OwnedBy(volumes[i].name, |VolumeRefs(volumes[i])|)
  {
    hide VolumeRefs;
    assert volumes[..i + 1][..i] == volumes[..i];
  }

  method AppendVolumes(start: seq<Ref>, volumes: seq<Volume>) returns (refs: seq<Ref>, indices: map<string, seq<nat>>)
    ensures refs == start + Gather(VolumeRefs, volumes)
    ensures Indexed(indices, |start|, Owners(volumes))
  {
    hide Gather, VolumeRefs, Indexed, Owners;
    refs, indices := start, map[];
    GatherNone(VolumeRefs, volumes);
    NothingOwned(|start|);
    assert volumes[..0] == [];
    for i := 0 to |volumes|
      invariant refs == start + Gather(VolumeRefs, volumes[..i])
      invariant Indexed(indices, |start|, Owners(volumes[..i]))
    {
      GatherStep(VolumeRefs, volumes, i);
      OwnersStep(volumes, i);
      refs, indices := AppendVolume(refs, indices, volumes[i].name, VolumeRefs(volumes[i]), |start|, Owners(volumes[..i]));
    }
    assert volumes[..|volumes|] == volumes;
  }

  /** Marks, in place, every reference at the recorded positions. */
  method MarkAll(start: seq<Ref>, at: seq<nat>) returns (refs: seq<Ref>)
    requires forall i | i in at :: i < |start|
    ensures |refs| == |start|
    ensures forall i: nat | i < |refs| :: refs[i] == start[i].(subPath := start[i].subPath || i in at)
  {
    refs := start;
    for j := 0 to |at|
      invariant |refs| == |start|
      invariant forall i: nat | i < |refs| :: refs[i] == start[i].(subPath := start[i].subPath || i in at[..j])
    {
      assert at[j] in at && at[..j + 1] == at[..j] + [at[j]];
      refs := refs[at[j] := refs[at[j]].(subPath := true)];
    }
    assert at[..|at|] == at;
  }

  /** Position `i` belongs to a volume that some mount uses by sub-path. */
  ghost predicate Hit(from: nat, owners: seq<string>, mounts: seq<Mount>, i: nat) {
    from <= i < from + |owners| && MountsInside(mounts, owners[i - from])
  }

  lemma HitStep(from: nat, owners: seq<string>, mounts: seq<Mount>, k: nat, i: nat)
    requires k < |mounts|
    ensures Hit(from, owners, mounts[..k + 1], i) <==>
            Hit(from, owners, mounts[..k], i)
            || (UsesSubPath(mounts[k]) && from <= i < from + |owners| && owners[i - from] == mounts[k].name)
  {
    if from <= i < from + |owners| {
      var v := owners[i - from];
      if MountsInside(mounts[..k], v) {
        var o :| 0 <= o < k && mounts[..k][o].name == v && UsesSubPath(mounts[..k][o]);
        assert mounts[..k + 1][o] == mounts[..k][o];
      }
      assert mounts[..k + 1][k] == mounts[k];
    }
  }

  /** Marks every reference of a volume that one of the mounts uses by sub-path. */
  method MarkMounts(start: seq<Ref>, indices: map<string, seq<nat>>, mounts: seq<Mount>,
                    ghost from: nat, ghost owners: seq<string>)
    returns (refs: seq<Ref>)
    requires Indexed(indices, from, owners) && from + |owners| == |start|
    ensures |refs| == |start|
    ensures forall i: nat | i < |refs| :: refs[i] == start[i].(subPath := start[i].subPath || Hit(from, owners, mounts, i))
  {
    hide Hit, MountsInside;
    refs := start;
    forall i: nat ensures !Hit(from, owners, [], i) { NoHit(from, owners, i); }
    for k := 0 to |mounts|
      invariant |refs| == |start|
      invariant forall i: nat | i < |refs| ::
          refs[i] == start[i].(subPath := start[i].subPath || Hit(from, owners, mounts[..k], i))
    {
      forall i: nat { HitStep(from, owners, mounts, k, i); }
      if UsesSubPath(mounts[k]) {
        refs := MarkAll(refs, At(indices, mounts[k].name));
      }
    }
    assert mounts[..|mounts|] == mounts;
  }

  lemma NoHit(from: nat, owners: seq<string>, i: nat)
    ensures !Hit(from, owners, [], i)
  {
  }

  /** Marks every reference of a volume that a container uses by sub-path. */
  method MarkContainers(start: seq<Ref>, indices: map<string, seq<nat>>, containers: seq<Container>,
                        ghost from: nat, ghost owners: seq<string>)
    returns (refs: seq<Ref>)
    requires Indexed(indices, from, owners) && from + |owners| == |start|
    ensures |refs| == |start|
    ensures forall i: nat | i < |refs| :: refs[i] ==
              start[i].(subPath := start[i].subPath || (from <= i && MountedInside(containers, owners[i - from])))
  {
    hide Indexed, MountsInside;
    refs := start;
    for n := 0 to |containers|
      invariant |refs| == |start|
      invariant forall i: nat | i < |refs| :: refs[i] ==
                  start[i].(subPath := start[i].subPath || (from <= i && MountedInside(containers[..n], owners[i - from])))
    {
      refs := MarkMounts(refs, indices, containers[n].mounts, from, owners);
      forall v { MountedStep(containers, n, v); }
    }
    assert containers[..|containers|] == containers;
  }

  lemma MountedStep(containers: seq<Container>, n: nat, volume: string)
    requires n < |containers|
    ensures MountedInside(containers[..n + 1], volume) <==>
            MountedInside(containers[..n], volume) || MountsInside(containers[n].mounts, volume)
  {
    hide MountsInside;
    if MountedInside(containers[..n], volume) {
      var o :| 0 <= o < n && MountsInside(containers[..n][o].mounts, volume);
      assert containers[..n + 1][o] == containers[..n][o];
    }
    assert containers[..n + 1][n] == containers[n];
  }

  /** Marking the references at the end, by position, is marking each where it is made. */
  lemma {:induction false} MarkedByOwner(volumes: seq<Volume>, containers: seq<Container>)
    ensures |AllVolumeRefs(volumes, containers)| == |Gather(VolumeRefs, volumes)|
    ensures forall i | 0 <= i < |Owners(volumes)| ::
              AllVolumeRefs(volumes, containers)[i] ==
              Gather(VolumeRefs, volumes)[i].(subPath := MountedInside(containers, Owners(volumes)[i]))
  {
    hide MountedInside, VolumeRefs;
    if volumes != [] { MarkedByOwner(volumes[..|volumes| - 1], containers); }
  }

  lemma {:induction false} NoneMarked(volumes: seq<Volume>)
    ensures forall r | r in Gather(VolumeRefs, volumes) :: !r.subPath
  {
    hide Gather, VolumeRefs;
    forall r | r in Gather(VolumeRefs, volumes) ensures !r.subPath {
      InGather(VolumeRefs, volumes, r);
      var v :| v in volumes && r in VolumeRefs(v);
      VolumeUnmarked(v, r);
    }
  }

  lemma VolumeUnmarked(v: Volume, r: Ref)
    requires r in VolumeRefs(v)
    ensures !r.subPath
  {
    hide Gather;
    InGather(ProjectedRefs, v.projected, r);
  }

  /** Appends the references of the volumes, then marks those mounted by sub-path. */
  method AppendMarkedVolumes(start: seq<Ref>, volumes: seq<Volume>, containers: seq<Container>) returns (refs: seq<Ref>)
    ensures refs == start + AllVolumeRefs(volumes, containers)
  {
    hide Indexed, MountedInside, Marked, VolumeRefs;
    var indices;
    refs, indices := AppendVolumes(start, volumes);
    ghost var unmarked := refs;
    refs := MarkContainers(refs, indices, containers, |start|, Owners(volumes));
    MarkedByOwner(volumes, containers);
    NoneMarked(volumes);
    forall i | |start| <= i < |refs| ensures refs[i] == AllVolumeRefs(volumes, containers)[i - |start|] {
      assert unmarked[i] == Gather(VolumeRefs, volumes)[i - |start|];
      assert unmarked[i] in Gather(VolumeRefs, volumes);
    }
  }

  method AppendPullSecrets(start: seq<Ref>, names: seq<string>) returns (refs: seq<Ref>)
    ensures refs == start + Gather(PullRefs, names)
  {
    refs := start;
    for i := 0 to |names|
      invariant refs == start + Gather(PullRefs, names[..i])
    {
      GatherStep(PullRefs, names, i);
      refs := refs + PullRefs(names[i]);
    }
    GatherAll(PullRefs, names);
  }

  /** Walks a pod; the second result is the service account it runs as. */
  method WalkPodSpec(spec: Option<PodSpec>) returns (refs: seq<Ref>, saName: string)
    ensures refs == if spec.Some? then Occurrences(spec.value) else []
    ensures forall r :: r in refs <==> spec.Some? && Refers(spec.value, r)
    ensures saName == AccountName(spec)
    ensures saName == if spec.Some? && spec.value.serviceAccountName != "" then spec.value.serviceAccountName else "default"
  {
    hide AllVolumeRefs, EnvironmentRefs, Gather, Containers, Refers;
    if spec.None? { return [], "default"; }
    var pod := spec.value;
    refs := AppendEnvironments([], Containers(pod));
    refs := AppendMarkedVolumes(refs, pod.volumes, Containers(pod));
    refs := AppendPullSecrets(refs, pod.imagePullSecrets);
    saName := pod.serviceAccountName;
    if saName == "" { saName := "default"; }
    forall r { OccursIff(pod, r); }
  }

  /** The Secrets a service account carries. */
  function AccountOccurrences(account: ServiceAccount): seq<Ref> {
    Gather(AccountRefs, account.secrets + account.imagePullSecrets)
  }

  method ServiceAccountRefs(account: Option<ServiceAccount>) returns (refs: seq<Ref>)
    ensures refs == if account.Some? then AccountOccurrences(account.value) else []
    ensures forall r :: r in refs <==> account.Some? && Carries(account.value, r)
  {
    refs := [];
    if account.None? { return; }
    var names := account.value.secrets + account.value.imagePullSecrets;
    for i := 0 to |names|
      invariant refs == Gather(AccountRefs, names[..i])
    {
      GatherStep(AccountRefs, names, i);
      refs := refs + AccountRefs(names[i]);
    }
    GatherAll(AccountRefs, names);
    forall r { AccountOccursIff(account.value, r); }
  }

  // ---------------------------------------------------------------- aggregation

  type Id = (string, string)

  /** The resource a reference points at; a reference without a kind or a name points nowhere. */
  function Target(r: Ref): seq<Id> { if r.name == "" || r.kind == "" then [] else [(r.kind, r.name)] }

  predicate NeedsRollout(r: Ref) { r.tag == Env || r.tag == EnvFrom || r.subPath }

  predicate GivesKey(r: Ref) { r.tag == Env && r.key != "" }

  datatype Aggregate = Aggregate(tags: set<Tag>, keys: set<string>, subPath: bool, rolloutNeeded: bool)

  const NOTHING := Aggregate({}, {}, false, false)

  function Merge(a: Aggregate, r: Ref): Aggregate {
    Aggregate(a.tags + {r.tag}, if GivesKey(r) then a.keys + {r.key} else a.keys,
              a.subPath || r.subPath, a.rolloutNeeded || NeedsRollout(r))
  }

  /** What the references to `id` come to. */
  function Collected(refs: seq<Ref>, id: Id): Aggregate {
    if refs == [] then NOTHING
    else
      var before := Collected(refs[..|refs| - 1], id);
      if Target(refs[|refs| - 1]) == [id] then Merge(before, refs[|refs| - 1]) else before
  }

  /** No order and no count of occurrences: only which ones there are. */
  lemma {:induction false} CollectedMeans(refs: seq<Ref>, id: Id)
    ensures forall tag :: tag in Collected(refs, id).tags <==> exists r :: r in refs && Target(r) == [id] && r.tag == tag
    ensures forall key :: key in Collected(refs, id).keys <==>
                            exists r :: r in refs && Target(r) == [id] && GivesKey(r) && r.key == key
    ensures Collected(refs, id).subPath <==> exists r :: r in refs && Target(r) == [id] && r.subPath
    ensures Collected(refs, id).rolloutNeeded <==> exists r :: r in refs && Target(r) == [id] && NeedsRollout(r)
  {
    hide Target, NeedsRollout, GivesKey;
    if refs != [] {
      CollectedMeans(refs[..|refs| - 1], id);
      assert refs == refs[..|refs| - 1] + [refs[|refs| - 1]];
    }
  }

  lemma CollectedCanonical(refs: seq<Ref>, others: seq<Ref>, id: Id)
    requires forall r :: r in refs <==> r in others
    ensures Collected(refs, id) == Collected(others, id)
  {
    hide Target, NeedsRollout, GivesKey;
    CollectedMeans(refs, id);
    CollectedMeans(others, id);
  }

  predicate IdLess(a: Id, b: Id) {
    var c := Natsort.CompareChars(a.0, b.0);
    if c != 0 then c < 0 else Natsort.CompareChars(a.1, b.1) < 0
  }

  lemma IdLessIsStrictTotal()
    ensures StrictTotal(IdLess)
  {
    forall x: Id, y: Id ensures IdLess(x, y) ==> !IdLess(y, x)
      ensures x == y || IdLess(x, y) || IdLess(y, x)
    {
      Natsort.CharsAntisymmetric(x.0, y.0);
      Natsort.CharsAntisymmetric(x.1, y.1);
    }
    forall x: Id, y: Id, z: Id | IdLess(x, z) ensures IdLess(x, y) || IdLess(y, z) {
      IdLessSplits(x, y, z);
    }
  }

  lemma IdLessSplits(x: Id, y: Id, z: Id)
    requires IdLess(x, z)
    ensures IdLess(x, y) || IdLess(y, z)
  {
    hide Natsort.CompareChars;
    Natsort.CharsAntisymmetric(x.0, z.0);
    Natsort.CharsAntisymmetric(x.0, y.0);
    Natsort.CharsAntisymmetric(y.0, z.0);
    if x.0 != z.0 { Natsort.CharsSplit(x.0, y.0, z.0); } else { Natsort.CharsSplit(x.1, y.1, z.1); }
    if x.0 == y.0 == z.0 { Natsort.CharsSplit(x.1, y.1, z.1); }
  }

  function TagsInOrder(tags: set<Tag>): seq<Tag> { Kept(TAG_ORDER, tags) }

  function Kept(order: seq<Tag>, tags: set<Tag>): seq<Tag> {
    if order == [] then []
    else Kept(order[..|order| - 1], tags) + (if order[|order| - 1] in tags then [order[|order| - 1]] else [])
  }

  ghost predicate IsEntry(e: ResourceRef, id: Id, a: Aggregate) {
    && (e.kind, e.name) == id && e.tags == TagsInOrder(a.tags) && IsListing(e.keys, a.keys)
    && e.subPath == a.subPath && e.rolloutNeeded == a.rolloutNeeded
  }

  lemma EntryUnique(e: ResourceRef, f: ResourceRef, id: Id, a: Aggregate)
    requires IsEntry(e, id, a) && IsEntry(f, id, a)
    ensures e == f
  {
    ListingUnique(e.keys, f.keys, a.keys);
  }

  function IdOf(e: ResourceRef): Id { (e.kind, e.name) }

  predicate EntryLess(a: ResourceRef, b: ResourceRef) { IdLess(IdOf(a), IdOf(b)) }

  lemma EntryLessIsStrictWeak()
    ensures StrictWeak(EntryLess)
  {
    IdLessIsStrictTotal();
  }

  /** One entry, in order of kind and name, for every resource the references point at. */
  ghost predicate IsAggregation(entries: seq<ResourceRef>, refs: seq<Ref>) {
    && StrictlySorted(EntryLess, entries)
    && (forall i | 0 <= i < |entries| :: IsEntry(entries[i], IdOf(entries[i]), Collected(refs, IdOf(entries[i]))))
    && forall id :: id in Gather(Target, refs) <==> exists i | 0 <= i < |entries| :: IdOf(entries[i]) == id
  }

  lemma AggregationHas(entries: seq<ResourceRef>, others: seq<ResourceRef>, refs: seq<Ref>, same: seq<Ref>, i: nat)
    requires IsAggregation(entries, refs) && IsAggregation(others, same) && i < |entries|
    requires forall r :: r in refs <==> r in same
    ensures entries[i] in others
  {
    hide StrictlySorted, IsEntry, Collected, Target;
    var id := IdOf(entries[i]);
    assert id in Gather(Target, refs);
    InGather(Target, refs, id);
    InGather(Target, same, id);
    var j :| 0 <= j < |others| && IdOf(others[j]) == id;
    CollectedCanonical(refs, same, id);
    EntryUnique(entries[i], others[j], id, Collected(refs, id));
  }

  /** The aggregation is canonical: neither the order nor the number of occurrences matters. */
  lemma AggregationCanonical(entries: seq<ResourceRef>, others: seq<ResourceRef>, refs: seq<Ref>, same: seq<Ref>)
    requires IsAggregation(entries, refs) && IsAggregation(others, same)
    requires forall r :: r in refs <==> r in same
    ensures entries == others
  {
    EntryLessIsStrictWeak();
    forall e ensures e in entries <==> e in others {
      if e in entries {
        var i :| 0 <= i < |entries| && entries[i] == e;
        AggregationHas(entries, others, refs, same, i);
      }
      if e in others {
        var i :| 0 <= i < |others| && others[i] == e;
        AggregationHas(others, entries, same, refs, i);
      }
    }
    hide *;
    StrictlySortedUnique(EntryLess, entries, others);
  }

  ghost function ListingOf(keys: set<string>): (listing: seq<string>)
    ensures IsListing(listing, keys)
  {
    Natsort.LessIsStrictTotal();
    Listed(Natsort.Less, keys)
  }

  ghost function EntryOf(id: Id, a: Aggregate): (e: ResourceRef)
    ensures IsEntry(e, id, a)
  {
    ResourceRef(id.0, id.1, TagsInOrder(a.tags), ListingOf(a.keys), a.subPath, a.rolloutNeeded)
  }

  ghost function EntriesOf(ids: seq<Id>, refs: seq<Ref>): (entries: seq<ResourceRef>)
    ensures |entries| == |ids|
    ensures forall i | 0 <= i < |ids| :: IsEntry(entries[i], ids[i], Collected(refs, ids[i]))
  {
    seq(|ids|, i requires 0 <= i < |ids| => EntryOf(ids[i], Collected(refs, ids[i])))
  }

  /** The aggregation of `refs`. */
  ghost function Aggregated(refs: seq<Ref>): (entries: seq<ResourceRef>)
    ensures IsAggregation(entries, refs)
  {
    hide Collected, Target;
    var ids := Listing(IdLess, Gather(Target, refs));
    IdLessIsStrictTotal();
    ListingLists(IdLess, Gather(Target, refs));
    EntriesAggregate(ids, refs);
    EntriesOf(ids, refs)
  }

  lemma EntriesAggregate(ids: seq<Id>, refs: seq<Ref>)
    requires StrictlySorted(IdLess, ids) && forall id :: id in ids <==> id in Gather(Target, refs)
    ensures IsAggregation(EntriesOf(ids, refs), refs)
  {
    hide Collected, Target, IdLess, EntriesOf;
    var entries := EntriesOf(ids, refs);
    assert forall i | 0 <= i < |ids| :: IdOf(entries[i]) == ids[i];
    forall id ensures id in Gather(Target, refs) <==> exists i | 0 <= i < |entries| :: IdOf(entries[i]) == id {
      if id in ids {
        var i :| 0 <= i < |ids| && ids[i] == id;
        assert IdOf(entries[i]) == id;
      }
    }
  }

  /** The first loop: what each resource's references come to. */
  method Accumulate(refs: seq<Ref>) returns (byResource: map<Id, Aggregate>)
    ensures forall id :: id in byResource <==> id in Gather(Target, refs)
    ensures forall id | id in byResource :: byResource[id] == Collected(refs, id)
  {
    byResource := map[];
    for i := 0 to |refs|
      invariant forall id :: id in byResource <==> id in Gather(Target, refs[..i])
      invariant forall id | id !in byResource :: Collected(refs[..i], id) == NOTHING
      invariant forall id | id in byResource :: byResource[id] == Collected(refs[..i], id)
    {
      var r := refs[i];
      GatherStep(Target, refs, i);
      forall id { CollectedStep(refs, i, id); }
      if r.name == "" || r.kind == "" { continue; }
      var id := (r.kind, r.name);
      var entry := if id in byResource then byResource[id] else NOTHING;
      byResource := byResource[id := Merge(entry, r)];
    }
    GatherAll(Target, refs);
    assert refs[..|refs|] == refs;
  }

  lemma CollectedStep(refs: seq<Ref>, i: nat, id: Id)
    requires i < |refs|
    ensures Collected(refs[..i + 1], id) ==
            if Target(refs[i]) == [id] then Merge(Collected(refs[..i], id), refs[i]) else Collected(refs[..i], id)
  {
    assert refs[..i + 1][..i] == refs[..i];
  }

  method Tags(tags: set<Tag>) returns (listed: seq<Tag>)
    ensures listed == TagsInOrder(tags)
  {
    listed := [];
    for i := 0 to |TAG_ORDER|
      invariant listed == Kept(TAG_ORDER[..i], tags)
    {
      assert TAG_ORDER[..i + 1][..i] == TAG_ORDER[..i];
      if TAG_ORDER[i] in tags { listed := listed + [TAG_ORDER[i]]; }
    }
    assert TAG_ORDER[..|TAG_ORDER|] == TAG_ORDER;
  }

  /** Merges occurrences by resource. The map is visited in any order. */
  method AggregateRefs(refs: seq<Ref>) returns (result: seq<ResourceRef>)
    ensures result == Aggregated(refs)
  {
    hide Collected, Target, TagsInOrder, IsListing;
    var byResource := Accumulate(refs);
    var ids := MapKeys(byResource);
    result := [];
    for i := 0 to |ids|
      invariant |result| == i
      invariant forall j | 0 <= j < i :: IsEntry(result[j], ids[j], Collected(refs, ids[j]))
    {
      var entry := byResource[ids[i]];
      var tags := Tags(entry.tags);
      var keys := SortedKeys(map k | k in entry.keys :: true);
      assert (map k | k in entry.keys :: true).Keys == entry.keys;
      result := result + [ResourceRef(ids[i].0, ids[i].1, tags, keys, entry.subPath, entry.rolloutNeeded)];
    }
    SortedEntriesAggregate(ids, result, refs);
    AggregationCanonical(Sort(EntryLess, result), Aggregated(refs), refs, refs);
    result := Sort(EntryLess, result);
  }

  /** Sorting leaves no ties, since no two entries are of one resource. */
  lemma SortedEntriesAggregate(ids: seq<Id>, rows: seq<ResourceRef>, refs: seq<Ref>)
    requires forall id :: id in ids <==> id in Gather(Target, refs)
    requires forall i, j | 0 <= i < j < |ids| :: ids[i] != ids[j]
    requires |rows| == |ids|
    requires forall j | 0 <= j < |ids| :: IsEntry(rows[j], ids[j], Collected(refs, ids[j]))
    ensures IsAggregation(Sort(EntryLess, rows), refs)
  {
    hide Collected, Target, IsListing, TagsInOrder, IdLess, StrictWeak, StrictlySorted, EntryLess, Comparable, IsEntry, IdOf, Gather;
    forall j | 0 <= j < |ids| ensures IdOf(rows[j]) == ids[j] { EntryId(rows[j], ids[j], Collected(refs, ids[j])); }
    EntryLessIsStrictWeak();
    RowsComparable(ids, rows);
    SortStrictly(EntryLess, rows);
    var sorted := Sort(EntryLess, rows);
    SortedHasIds(ids, rows, sorted);
    forall i | 0 <= i < |sorted|
      ensures IsEntry(sorted[i], IdOf(sorted[i]), Collected(refs, IdOf(sorted[i])))
    {
      assert sorted[i] in rows;
    }
  }

  lemma EntryId(e: ResourceRef, id: Id, a: Aggregate)
    requires IsEntry(e, id, a)
    ensures IdOf(e) == id
  {
  }

  lemma RowsComparable(ids: seq<Id>, rows: seq<ResourceRef>)
    requires forall i, j | 0 <= i < j < |ids| :: ids[i] != ids[j]
    requires |rows| == |ids| && forall j | 0 <= j < |ids| :: IdOf(rows[j]) == ids[j]
    ensures Comparable(EntryLess, rows)
  {
    hide IdLess;
    IdLessIsStrictTotal();
  }

  lemma SortedHasIds(ids: seq<Id>, rows: seq<ResourceRef>, sorted: seq<ResourceRef>)
    requires |rows| == |ids| && forall j | 0 <= j < |ids| :: IdOf(rows[j]) == ids[j]
    requires forall e :: e in sorted <==> e in rows
    ensures forall id :: id in ids <==> exists i | 0 <= i < |sorted| :: IdOf(sorted[i]) == id
  {
    hide IdOf;
    forall id ensures id in ids <==> exists i | 0 <= i < |sorted| :: IdOf(sorted[i]) == id {
      if id in ids {
        var i :| 0 <= i < |ids| && ids[i] == id;
        assert IdOf(rows[i]) == id && rows[i] in sorted;
      }
      if i :| 0 <= i < |sorted| && IdOf(sorted[i]) == id {
        assert sorted[i] in rows;
      }
    }
  }

  // ---------------------------------------------------------------- what a pod mentions

  /** `id` is the resource of that kind with that name. */
  predicate Is(id: Id, kind: string, name: Option<string>) { id.0 == kind && name == Some(id.1) && id.1 != "" }

  predicate ContainerOf(spec: PodSpec, c: Container) {
    c in spec.containers || c in spec.initContainers || c in spec.ephemeralContainers
  }

  /** The variable takes its value from this key of the resource. */
  predicate Selects(v: EnvVar, id: Id, key: string) {
    id.1 != "" &&
    ( || (id.0 == KIND_SECRET && v.secret == Some(KeySelector(id.1, key)))
      || (id.0 == KIND_CONFIG_MAP && v.configMap == Some(KeySelector(id.1, key))))
  }

  predicate SourceNames(s: Source, id: Id) { Is(id, KIND_SECRET, s.secret) || Is(id, KIND_CONFIG_MAP, s.configMap) }

  predicate VolumeItself(v: Volume, id: Id) {
    Is(id, KIND_SECRET, v.secret) || Is(id, KIND_CONFIG_MAP, v.configMap) || Is(id, KIND_SECRET, v.csi)
  }

  /** Some variable of some container takes this key. */
  ghost predicate VarOf(spec: PodSpec, id: Id, key: string) {
    exists c, v :: ContainerOf(spec, c) && v in c.env && Selects(v, id, key)
  }

  ghost predicate EnvSourceOf(spec: PodSpec, id: Id) {
    exists c, s :: ContainerOf(spec, c) && s in c.envFrom && SourceNames(s, id)
  }

  /** Some container mounts the volume by a path inside it. */
  ghost predicate MountedByPath(spec: PodSpec, volume: string) {
    exists c, m :: ContainerOf(spec, c) && m in c.mounts && m.name == volume && (m.subPath != "" || m.subPathExpr != "")
  }

  predicate PullSecretOf(spec: PodSpec, id: Id) { id.0 == KIND_SECRET && id.1 != "" && id.1 in spec.imagePullSecrets }

  /** The pod refers to a resource in this way: `r.subPath` says whether the volume of the
      reference is mounted by sub-path. */
  ghost predicate Refers(spec: PodSpec, r: Ref) {
    match r.tag
    case Env => !r.subPath && VarOf(spec, (r.kind, r.name), r.key)
    case EnvFrom => !r.subPath && r.key == "" && EnvSourceOf(spec, (r.kind, r.name))
    case VolumeTag => r.key == "" &&
      exists v :: v in spec.volumes && VolumeItself(v, (r.kind, r.name)) && r.subPath == MountedByPath(spec, v.name)
    case Projected => r.key == "" &&
      exists v, s :: v in spec.volumes && s in v.projected && SourceNames(s, (r.kind, r.name)) && r.subPath == MountedByPath(spec, v.name)
    case Pull => !r.subPath && r.key == "" && PullSecretOf(spec, (r.kind, r.name))
    case SA => false
  }

  lemma VarHas(v: EnvVar, r: Ref)
    ensures r in VarRefs(v) <==> r.tag == Env && !r.subPath && Selects(v, (r.kind, r.name), r.key)
  {
  }

  lemma SourceHas(s: Source, tag: Tag, r: Ref)
    ensures r in SourceRefs(s, tag) <==> r.tag == tag && !r.subPath && r.key == "" && SourceNames(s, (r.kind, r.name))
  {
  }

  lemma EnvironmentHas(c: Container, r: Ref)
    ensures r in EnvironmentRefs(c) <==>
            && !r.subPath
            && ( || (r.tag == Env && exists v :: v in c.env && Selects(v, (r.kind, r.name), r.key))
                 || (r.tag == EnvFrom && r.key == "" && exists s :: s in c.envFrom && SourceNames(s, (r.kind, r.name))))
  {
    hide VarRefs, SourceRefs, Selects, SourceNames, Gather;
    InGather(VarRefs, c.env, r);
    InGather(EnvFromRefs, c.envFrom, r);
    forall v { VarHas(v, r); }
    forall s { SourceHas(s, EnvFrom, r); }
  }

  lemma VolumeHas(v: Volume, r: Ref)
    ensures r in VolumeRefs(v) <==>
            && !r.subPath && r.key == ""
            && ( || (r.tag == VolumeTag && VolumeItself(v, (r.kind, r.name)))
                 || (r.tag == Projected && exists s :: s in v.projected && SourceNames(s, (r.kind, r.name))))
  {
    hide SourceRefs, SourceNames, Gather;
    InGather(ProjectedRefs, v.projected, r);
    forall s { SourceHas(s, Projected, r); }
  }

  lemma MarkedHas(refs: seq<Ref>, subPath: bool, r: Ref)
    requires forall x | x in refs :: !x.subPath
    ensures r in Marked(refs, subPath) <==> r.subPath == subPath && r.(subPath := false) in refs
  {
    if r in Marked(refs, subPath) {
      var i :| 0 <= i < |refs| && Marked(refs, subPath)[i] == r;
      assert refs[i] in refs && refs[i] == r.(subPath := false);
    }
    if r.subPath == subPath && r.(subPath := false) in refs {
      var i :| 0 <= i < |refs| && refs[i] == r.(subPath := false);
      assert Marked(refs, subPath)[i] == r;
    }
  }

  lemma {:induction false} VolumesHave(volumes: seq<Volume>, containers: seq<Container>, r: Ref)
    ensures r in AllVolumeRefs(volumes, containers) <==>
            exists v :: v in volumes && r.subPath == MountedInside(containers, v.name) && r.(subPath := false) in VolumeRefs(v)
  {
    hide VolumeRefs, MountedInside, Marked;
    if volumes != [] {
      var init, v := volumes[..|volumes| - 1], volumes[|volumes| - 1];
      VolumesHave(init, containers, r);
      assert volumes == init + [v];
      forall x | x in VolumeRefs(v) ensures !x.subPath { VolumeUnmarked(v, x); }
      MarkedHas(VolumeRefs(v), MountedInside(containers, v.name), r);
    }
  }

  lemma MountedInsideIff(spec: PodSpec, volume: string)
    ensures MountedInside(Containers(spec), volume) <==> MountedByPath(spec, volume)
  {
    var cs := Containers(spec);
    assert forall c :: c in cs <==> ContainerOf(spec, c);
    if MountedInside(cs, volume) {
      var i :| 0 <= i < |cs| && MountsInside(cs[i].mounts, volume);
      var k :| 0 <= k < |cs[i].mounts| && cs[i].mounts[k].name == volume && UsesSubPath(cs[i].mounts[k]);
      assert ContainerOf(spec, cs[i]) && cs[i].mounts[k] in cs[i].mounts;
    }
    if c, m :| ContainerOf(spec, c) && m in c.mounts && m.name == volume && UsesSubPath(m) {
      var i :| 0 <= i < |cs| && cs[i] == c;
      var k :| 0 <= k < |c.mounts| && c.mounts[k] == m;
      assert MountsInside(cs[i].mounts, volume);
    }
  }

  /** The occurrences of a pod are exactly the ways it refers to resources: none is missing
      and none is made up. */
  lemma OccursIff(spec: PodSpec, r: Ref)
    ensures r in Occurrences(spec) <==> Refers(spec, r)
  {
    hide EnvironmentRefs, AllVolumeRefs, VolumeRefs, MountedInside, MountedByPath, Selects, SourceNames, VolumeItself, Gather;
    var cs := Containers(spec);
    assert forall c :: c in cs <==> ContainerOf(spec, c);
    InGather(EnvironmentRefs, cs, r);
    forall c { EnvironmentHas(c, r); }
    VolumesHave(spec.volumes, cs, r);
    forall v { VolumeHas(v, r.(subPath := false)); }
    forall v | v in spec.volumes { MountedInsideIff(spec, v.name); }
    InGather(PullRefs, spec.imagePullSecrets, r);
  }

  /** The account has this reference: to a named Secret or pull secret of its own. */
  predicate Carries(account: ServiceAccount, r: Ref) {
    && r == Ref(KIND_SECRET, r.name, "", SA, false) && r.name != ""
    && (r.name in account.secrets || r.name in account.imagePullSecrets)
  }

  /** The occurrences of an account are exactly its named Secrets and pull secrets. */
  lemma AccountOccursIff(account: ServiceAccount, r: Ref)
    ensures r in AccountOccurrences(account) <==> Carries(account, r)
  {
    var names := account.secrets + account.imagePullSecrets;
    InGather(AccountRefs, names, r);
    forall name ensures r in AccountRefs(name) <==> r == Ref(KIND_SECRET, name, "", SA, false) && name != "" {}
    assert forall n :: n in names <==> n in account.secrets || n in account.imagePullSecrets;
  }

  ghost predicate Mentions(refs: seq<Ref>, id: Id) { exists r :: r in refs && Target(r) == [id] }

  ghost predicate EnvironmentNames(c: Container, id: Id) {
    || (exists v, key :: v in c.env && Selects(v, id, key))
    || (exists s :: s in c.envFrom && SourceNames(s, id))
  }

  ghost predicate VolumeNames(v: Volume, id: Id) {
    VolumeItself(v, id) || exists s :: s in v.projected && SourceNames(s, id)
  }

  /** The pod uses the resource: an environment or a volume names it, or images are pulled
      with it. */
  ghost predicate PodNames(spec: PodSpec, id: Id) {
    || (exists c :: ContainerOf(spec, c) && EnvironmentNames(c, id))
    || (exists v :: v in spec.volumes && VolumeNames(v, id))
    || PullSecretOf(spec, id)
  }

  ghost predicate AccountCarries(account: ServiceAccount, id: Id) {
    id.0 == KIND_SECRET && id.1 != "" && (id.1 in account.secrets || id.1 in account.imagePullSecrets)
  }

  /** A reference of this kind to `id` is among the occurrences. */
  lemma Occurs(spec: PodSpec, id: Id, key: string, tag: Tag, subPath: bool)
    requires Refers(spec, Ref(id.0, id.1, key, tag, subPath)) && id.0 != "" && id.1 != ""
    ensures var r := Ref(id.0, id.1, key, tag, subPath); r in Occurrences(spec) && Target(r) == [id]
  {
    hide Refers, Occurrences;
    OccursIff(spec, Ref(id.0, id.1, key, tag, subPath));
  }

  /** A pod's references mention a resource exactly when the pod uses it. */
  lemma PodMentions(spec: PodSpec, id: Id)
    ensures Mentions(Occurrences(spec), id) <==> PodNames(spec, id)
  {
    hide Occurrences, ContainerOf, MountedByPath, Selects, SourceNames, VolumeItself;
    if Mentions(Occurrences(spec), id) {
      var r :| r in Occurrences(spec) && Target(r) == [id];
      OccursIff(spec, r);
    }
    if PodNames(spec, id) { PodMentioned(spec, id); }
  }

  lemma PodMentioned(spec: PodSpec, id: Id)
    requires PodNames(spec, id)
    ensures Mentions(Occurrences(spec), id)
  {
    hide Occurrences, ContainerOf, MountedByPath;
    if c, v, key :| ContainerOf(spec, c) && v in c.env && Selects(v, id, key) {
      Occurs(spec, id, key, Env, false);
    } else if c, s :| ContainerOf(spec, c) && s in c.envFrom && SourceNames(s, id) {
      Occurs(spec, id, "", EnvFrom, false);
    } else if v :| v in spec.volumes && VolumeItself(v, id) {
      Occurs(spec, id, "", VolumeTag, MountedByPath(spec, v.name));
    } else if v, s :| v in spec.volumes && s in v.projected && SourceNames(s, id) {
      Occurs(spec, id, "", Projected, MountedByPath(spec, v.name));
    } else {
      Occurs(spec, id, "", Pull, false);
    }
  }

  lemma AccountMentions(account: ServiceAccount, id: Id)
    ensures Mentions(AccountOccurrences(account), id) <==> AccountCarries(account, id)
  {
    hide AccountOccurrences;
    if Mentions(AccountOccurrences(account), id) {
      var r :| r in AccountOccurrences(account) && Target(r) == [id];
      AccountOccursIff(account, r);
    }
    if AccountCarries(account, id) { AccountOccursIff(account, Ref(KIND_SECRET, id.1, "", SA, false)); }
  }

  /** Exactly the resources mentioned have an entry. */
  lemma EntryIff(refs: seq<Ref>, id: Id)
    ensures Mentions(refs, id) <==> exists i :: 0 <= i < |Aggregated(refs)| && IdOf(Aggregated(refs)[i]) == id
  {
    hide Collected, TagsInOrder, IsListing, StrictlySorted;
    InGather(Target, refs, id);
    assert Mentions(refs, id) <==> id in Gather(Target, refs) by {
      forall r ensures id in Target(r) <==> Target(r) == [id] {}
    }
    var entries := Aggregated(refs);
    assert IsAggregation(entries, refs);
    assert id in Gather(Target, refs) <==> exists i | 0 <= i < |entries| :: IdOf(entries[i]) == id;
  }

  function TagIndex(tag: Tag): nat {
    match tag case Env => 0 case EnvFrom => 1 case VolumeTag => 2 case Projected => 3 case Pull => 4 case SA => 5
  }

  /** The tags of an entry are listed in their canonical order, each once. */
  lemma TagsListed(tags: set<Tag>)
    ensures forall t :: t in TagsInOrder(tags) <==> t in tags
    ensures forall i, j | 0 <= i < j < |TagsInOrder(tags)| :: TagIndex(TagsInOrder(tags)[i]) < TagIndex(TagsInOrder(tags)[j])
  {
    KeptListed(TAG_ORDER, tags);
    forall t ensures t in TAG_ORDER { assert TAG_ORDER[TagIndex(t)] == t; }
  }

  lemma {:induction false} KeptListed(order: seq<Tag>, tags: set<Tag>)
    requires forall i, j | 0 <= i < j < |order| :: TagIndex(order[i]) < TagIndex(order[j])
    ensures forall t :: t in Kept(order, tags) <==> t in order && t in tags
    ensures forall i, j | 0 <= i < j < |Kept(order, tags)| :: TagIndex(Kept(order, tags)[i]) < TagIndex(Kept(order, tags)[j])
  {
    hide TagIndex;
    if order != [] {
      var init, last := order[..|order| - 1], order[|order| - 1];
      KeptListed(init, tags);
      assert order == init + [last];
      forall t | t in Kept(init, tags) ensures TagIndex(t) < TagIndex(last) {
        var i :| 0 <= i < |init| && init[i] == t;
        assert order[i] == t;
      }
    }
  }

  /** A volume that names the resource is mounted by sub-path. */
  ghost predicate NamedInside(spec: PodSpec, id: Id) {
    exists v :: v in spec.volumes && VolumeNames(v, id) && MountedByPath(spec, v.name)
  }

  /** How a pod may use a resource. */
  ghost predicate UsedAs(spec: PodSpec, id: Id, tag: Tag) {
    match tag
    case Env => exists key :: VarOf(spec, id, key)
    case EnvFrom => EnvSourceOf(spec, id)
    case VolumeTag => exists v :: v in spec.volumes && VolumeItself(v, id)
    case Projected => exists v, s :: v in spec.volumes && s in v.projected && SourceNames(s, id)
    case Pull => PullSecretOf(spec, id)
    case SA => false
  }

  /** What the entry of a pod says: how the pod uses the resource, which keys of it the
      variables take, and whether a change of it needs a restart: exactly when an environment
      names it, or a volume that names it is mounted by sub-path. */
  ghost predicate EntrySays(spec: PodSpec, e: ResourceRef) {
    && (forall tag :: tag in e.tags <==> UsedAs(spec, IdOf(e), tag))
    && (forall key :: key in e.keys <==> key != "" && VarOf(spec, IdOf(e), key))
    && (e.subPath <==> NamedInside(spec, IdOf(e)))
    && (e.rolloutNeeded <==> e.subPath || exists c :: ContainerOf(spec, c) && EnvironmentNames(c, IdOf(e)))
  }

  /** The occurrences that point at `id` are the ways the pod refers to it. */
  ghost predicate Used(spec: PodSpec, id: Id, tag: Tag) {
    exists key, subPath :: Refers(spec, Ref(id.0, id.1, key, tag, subPath))
  }

  lemma UsedIff(spec: PodSpec, id: Id, tag: Tag)
    requires id.0 != "" && id.1 != ""
    ensures (exists r :: r in Occurrences(spec) && Target(r) == [id] && r.tag == tag) <==> Used(spec, id, tag)
  {
    hide Occurrences, Refers;
    if r :| r in Occurrences(spec) && Target(r) == [id] && r.tag == tag {
      OccursIff(spec, r);
      assert r == Ref(id.0, id.1, r.key, tag, r.subPath);
    }
    if key, subPath :| Refers(spec, Ref(id.0, id.1, key, tag, subPath)) { Occurs(spec, id, key, tag, subPath); }
  }

  lemma EntryMeans(spec: PodSpec, i: nat)
    requires i < |Aggregated(Occurrences(spec))|
    ensures EntrySays(spec, Aggregated(Occurrences(spec))[i])
  {
    hide Occurrences, Collected, TagsInOrder, Target, NeedsRollout, GivesKey, UsedAs, VarOf,
         IsListing, StrictlySorted, EnvironmentNames, NamedInside, ContainerOf;
    var refs := Occurrences(spec);
    var e := Aggregated(refs)[i];
    var id := IdOf(e);
    CollectedMeans(refs, id);
    EntryNamed(refs, i);
    forall tag ensures tag in e.tags <==> UsedAs(spec, id, tag) { TagMeans(spec, e, tag); }
    forall key ensures key in e.keys <==> key != "" && VarOf(spec, id, key) { EntryKey(spec, e, key); }
    SubPathMeans(spec, id);
    RolloutMeans(spec, id);
  }

  /** A pod's use of a resource needs a restart exactly when an environment names it, or a
      volume that names it is mounted by sub-path in some container. */
  lemma RolloutNeededIff(spec: PodSpec, i: nat)
    requires i < |Aggregated(Occurrences(spec))|
    ensures var e := Aggregated(Occurrences(spec))[i];
            e.rolloutNeeded <==>
              || (exists c :: ContainerOf(spec, c) && EnvironmentNames(c, IdOf(e)))
              || exists v :: v in spec.volumes && VolumeNames(v, IdOf(e)) && MountedByPath(spec, v.name)
  {
    hide Aggregated, Occurrences, ContainerOf, EnvironmentNames, VolumeNames, MountedByPath, UsedAs, VarOf;
    EntryMeans(spec, i);
  }

  lemma TagMeans(spec: PodSpec, e: ResourceRef, tag: Tag)
    requires e.kind != "" && e.name != "" && IsEntry(e, IdOf(e), Collected(Occurrences(spec), IdOf(e)))
    ensures tag in e.tags <==> Used(spec, IdOf(e), tag)
    ensures Used(spec, IdOf(e), tag) <==> UsedAs(spec, IdOf(e), tag)
  {
    hide Occurrences, Collected, TagsInOrder, Target, Used, UsedAs, IsListing;
    CollectedMeans(Occurrences(spec), IdOf(e));
    TagsListed(Collected(Occurrences(spec), IdOf(e)).tags);
    UsedIff(spec, IdOf(e), tag);
    UsedMeans(spec, IdOf(e), tag);
  }

  lemma EntryKey(spec: PodSpec, e: ResourceRef, key: string)
    requires e.kind != "" && e.name != "" && IsEntry(e, IdOf(e), Collected(Occurrences(spec), IdOf(e)))
    ensures key in e.keys <==> key != "" && VarOf(spec, IdOf(e), key)
  {
    hide Occurrences, Collected, TagsInOrder, Target, GivesKey, VarOf;
    CollectedMeans(Occurrences(spec), IdOf(e));
    KeyMeans(spec, IdOf(e), key);
  }

  lemma EntryNamed(refs: seq<Ref>, i: nat)
    requires i < |Aggregated(refs)|
    ensures IdOf(Aggregated(refs)[i]).0 != "" && IdOf(Aggregated(refs)[i]).1 != ""
  {
    hide Collected, TagsInOrder, IsListing, StrictlySorted, IsAggregation;
    EntryIff(refs, IdOf(Aggregated(refs)[i]));
  }

  lemma UsedMeans(spec: PodSpec, id: Id, tag: Tag)
    requires id.0 != "" && id.1 != ""
    ensures Used(spec, id, tag) <==> UsedAs(spec, id, tag)
  {
    hide VarOf, EnvSourceOf, VolumeItself, SourceNames, MountedByPath, PullSecretOf;
    match tag {
      case Env =>
        if key :| VarOf(spec, id, key) { assert Refers(spec, Ref(id.0, id.1, key, Env, false)); }
      case EnvFrom =>
        if EnvSourceOf(spec, id) { assert Refers(spec, Ref(id.0, id.1, "", EnvFrom, false)); }
      case VolumeTag =>
        if v :| v in spec.volumes && VolumeItself(v, id) {
          assert Refers(spec, Ref(id.0, id.1, "", VolumeTag, MountedByPath(spec, v.name)));
        }
      case Projected =>
        if v, s :| v in spec.volumes && s in v.projected && SourceNames(s, id) {
          assert Refers(spec, Ref(id.0, id.1, "", Projected, MountedByPath(spec, v.name)));
        }
      case Pull =>
        if PullSecretOf(spec, id) { assert Refers(spec, Ref(id.0, id.1, "", Pull, false)); }
      case SA =>
    }
  }

  lemma KeyMeans(spec: PodSpec, id: Id, key: string)
    requires id.0 != "" && id.1 != ""
    ensures (exists r :: r in Occurrences(spec) && Target(r) == [id] && GivesKey(r) && r.key == key) <==> key != "" && VarOf(spec, id, key)
  {
    hide Occurrences, VarOf;
    if r :| r in Occurrences(spec) && Target(r) == [id] && GivesKey(r) && r.key == key { OccursIff(spec, r); }
    if key != "" && VarOf(spec, id, key) { Occurs(spec, id, key, Env, false); }
  }

  lemma SubPathMeans(spec: PodSpec, id: Id)
    requires id.0 != "" && id.1 != ""
    ensures (exists r :: r in Occurrences(spec) && Target(r) == [id] && r.subPath) <==> NamedInside(spec, id)
  {
    hide Occurrences, VarOf, EnvSourceOf, VolumeItself, SourceNames, MountedByPath, PullSecretOf;
    if r :| r in Occurrences(spec) && Target(r) == [id] && r.subPath { OccursIff(spec, r); }
    if v :| v in spec.volumes && VolumeNames(v, id) && MountedByPath(spec, v.name) {
      if VolumeItself(v, id) { Occurs(spec, id, "", VolumeTag, true); } else { Occurs(spec, id, "", Projected, true); }
    }
  }

  lemma RolloutMeans(spec: PodSpec, id: Id)
    requires id.0 != "" && id.1 != ""
    ensures (exists r :: r in Occurrences(spec) && Target(r) == [id] && NeedsRollout(r)) <==>
            NamedInside(spec, id) || exists c :: ContainerOf(spec, c) && EnvironmentNames(c, id)
  {
    hide Occurrences, Target, NamedInside, EnvironmentNames, Used;
    UsedIff(spec, id, Env);
    UsedIff(spec, id, EnvFrom);
    UsedMeans(spec, id, Env);
    UsedMeans(spec, id, EnvFrom);
    SubPathMeans(spec, id);
    EnvironmentSplits(spec, id);
  }

  lemma EnvironmentSplits(spec: PodSpec, id: Id)
    ensures (exists c :: ContainerOf(spec, c) && EnvironmentNames(c, id)) <==>
            (exists key :: VarOf(spec, id, key)) || EnvSourceOf(spec, id)
  {
    hide ContainerOf, Selects, SourceNames;
    if c :| ContainerOf(spec, c) && EnvironmentNames(c, id) {
      if v, key :| v in c.env && Selects(v, id, key) { assert VarOf(spec, id, key); }
    }
    if key :| VarOf(spec, id, key) {
      var c, v :| ContainerOf(spec, c) && v in c.env && Selects(v, id, key);
      assert EnvironmentNames(c, id);
    }
    if EnvSourceOf(spec, id) {
      var c, s :| ContainerOf(spec, c) && s in c.envFrom && SourceNames(s, id);
      assert EnvironmentNames(c, id);
    }
  }
}
