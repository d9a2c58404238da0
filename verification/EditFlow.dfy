/** The edit flow: one edit of one resource, from the editor or a proposed value through
    diff, dry run and typed confirmation to the save, with every way back. */
module EditFlow {
  import opened Values
  import opened Resources
  import opened Edits
  import opened Loader
  import opened TypedConfirm
  import opened Undo

  datatype Phase =
    | Editing | EditorFailed | Diff | DryRun | DryRunRejected | DryRunUnsupported | Saving
    | Conflict | Forbidden | ParseFailed | BinaryCollision | ValidateWarn
    | Saved | RollingOut | RolloutDone | CommitGate | RolloutGate

  datatype Target = ExistingKey | NewKey | DeleteKey | WholeResource | NewResource

  datatype EditorOutcome = Broke | Unreadable | Unchanged | Wrote(content: bytes, parsed: Option<View>)

  datatype DryRunReply = DryRunOK | Rejected | Unsupported | DryRunConflict(current: Option<Resource>) | DryRunFailed

  datatype SaveReply = SaveSucceeded | SaveConflict(cluster: Option<Resource>) | SaveForbidden | SaveFailed

  datatype Message =
    | EditorFinished(outcome: EditorOutcome)
    | DryRunDone(reqID: nat, dryRun: DryRunReply)
    | SaveDone(reqID: nat, save: SaveReply)
    | RestartDone(reqID: nat)
    | Pressed(key: KeyPress)

  /** What the flow asks the runtime to do. */
  datatype Command =
    | NoCommand
    | Pop
    | OpenEditor
    | SubmitDryRun(reqID: nat, snapshot: Resource, create: bool)
    | SubmitSave(reqID: nat, snapshot: Resource, create: bool)
    | Restart(reqID: nat)

  /** The values a request carries. */
  datatype Snapshot = Snapshot(version: nat, view: View)

  /** A dispatched save: its request id, what it carries, the values and the diff it was made
      from, the keys typed into its gate, and what the last accepted dry run saw. */
  datatype Dispatch = Dispatch(reqID: nat, snapshot: Snapshot, base: View, edit: Edit, typed: seq<KeyPress>,
                               skippedDryRun: bool, checked: Option<Snapshot>)

  // ---------------------------------------------------------------- what holds of values

  predicate MapTarget(target: Target) { target == WholeResource || target == NewResource }

  /** The keys since the gate was armed leave the word in its input. */
  predicate WordTyped(keys: seq<KeyPress>) { TrimSpace(TextOfKeys(keys)) == CONFIRM_WORD }

  /** The key is where the kind of edit expects it: present, or absent for a new key. */
  predicate Reversible(target: Target, key: string, base: View) {
    (target == ExistingKey ==> key in base) && (target == NewKey ==> key !in base)
  }

  /** The flow's picture of the values it edits agrees with them. */
  ghost predicate Knows(target: Target, key: string, base: View, original: Option<bytes>,
                        originalMap: View, binaryKeys: seq<BinaryKey>)
  {
    if MapTarget(target) then
      && originalMap == TextOf(base)
      && (forall b | b in binaryKeys :: b.name in BinaryKeysOf(base))
      && (forall k | k in BinaryKeysOf(base) :: k in Names(binaryKeys))
    else original == Lookup(base, key)
  }

  predicate Fits(target: Target, key: string, e: Edit) {
    match target
    case ExistingKey => e.SetKey? && e.key == key
    case NewKey => e.SetKey? && e.key == key
    case DeleteKey => e.RemoveKey? && e.key == key
    case _ => e.Replace?
  }

  /** What the resource holds: the accepted edit of `base`, or `base` again. Where taking an
      edit back cannot bring the key's absence or presence back, only the other keys count. */
  ghost predicate Holds(target: Target, key: string, base: View, view: View, applied: bool, accepted: Edit, touched: seq<string>) {
    if applied then
      && view == After(base, accepted) && Describes(accepted, base) && Fits(target, key, accepted)
      && (MapTarget(target) ==> forall k :: k in touched <==> Lists(accepted, k))
    else if Reversible(target, key, base) then view == base
    else view - {key} == base - {key}
  }

  predicate NeedsApplied(phase: Phase) {
    (phase.ValidateWarn? || phase.DryRun? || phase.DryRunUnsupported? || phase.CommitGate? || phase.Saving?)
  }

  /** The phases that wait for a decision about the edit. */
  predicate Asks(phase: Phase) { OpensEditor(phase) && phase != Editing }

  /** The keys that end the flow. */
  predicate Leaves(key: KeyPress, phase: Phase) {
    || (key == Esc && (Asks(phase) || phase == Saved || phase == RolloutDone))
    || (key == Enter && phase == RolloutDone)
  }

  predicate AfterSave(phase: Phase) { (phase.Saved? || phase.RolloutGate? || phase.RollingOut? || phase.RolloutDone?) }

  /** The key by which the user accepts the diff on show. */
  predicate AcceptsDiff(key: KeyPress, phase: Phase) { key == Char('Y') && (phase.Diff? || phase.Conflict?) }

  /** The phases in which Y accepts something. */
  predicate Goes(phase: Phase) { (phase.Diff? || phase.Conflict? || phase.ValidateWarn? || phase.DryRunUnsupported?) }

  /** Where accepting leads: a diff or a conflict to the warnings, the dry run or a binary
      collision, the warnings to the dry run, an unsupported dry run to the gate. */
  predicate Onward(from: Phase, to: Phase) {
    match from
    case Diff => to == ValidateWarn || to == DryRun || to == BinaryCollision
    case Conflict => to == ValidateWarn || to == DryRun || to == BinaryCollision
    case ValidateWarn => to == DryRun
    case DryRunUnsupported => to == CommitGate
    case _ => false
  }

  /** The phases from which the editor opens. */
  predicate OpensEditor(phase: Phase) {
    || phase.Editing? || phase.EditorFailed? || phase.Diff? || phase.DryRunRejected? || phase.DryRunUnsupported?
    || phase.Conflict? || phase.Forbidden? || phase.ParseFailed? || phase.BinaryCollision? || phase.ValidateWarn?
  }

  /** A save was dispatched as the protocol demands: after the typed word, carrying exactly
      the accepted diff of the values it was made from, and checked by a dry run that saw the
      same values unless the user went past an unsupported one. */
  ghost predicate Guarded(d: Dispatch) {
    && TrimSpace(TextOfKeys(d.typed)) == CONFIRM_WORD
    && d.snapshot.view == After(d.base, d.edit) && Describes(d.edit, d.base)
    && (d.skippedDryRun || d.checked == Some(d.snapshot))
  }

  lemma GuardedUnderAnyId(d: Dispatch, reqID: nat)
    requires Guarded(d)
    ensures Guarded(d.(reqID := reqID))
  {
  }

  /** No two saves go out under one request id. */
  ghost predicate IdsGrow(saves: seq<Dispatch>, last: nat) {
    && (forall i, j | 0 <= i < j < |saves| :: saves[i].reqID < saves[j].reqID)
    && forall i | 0 <= i < |saves| :: saves[i].reqID <= last
  }

  lemma IdsGrowOn(saves: seq<Dispatch>, last: nat, d: Dispatch)
    requires IdsGrow(saves, last) && last < d.reqID
    ensures IdsGrow(saves + [d], d.reqID)
  {
  }

  /** What earlier dry runs carried stays on record. */
  ghost predicate KeepsRuns(before: map<nat, Snapshot>, after: map<nat, Snapshot>) {
    forall i | i in before :: i in after && after[i] == before[i]
  }

  lemma NothingForgotten(runs: map<nat, Snapshot>)
    ensures KeepsRuns(runs, runs)
  {
  }

  /** What the history of saves has to remember of one. */
  ghost predicate Remembers(entry: Entry, target: Target, key: string, base: View, e: Edit) {
    match target
    case ExistingKey => entry.previous == map[key := Lookup(base, key)] && entry.added == []
    case DeleteKey => entry.previous == map[key := Lookup(base, key)] && entry.added == []
    case NewKey => entry.previous == map[] && entry.added == [key]
    case _ =>
      && e.Replace?
      && entry.previous == (map k | k in e.shown && Lists(e, k) :: Some(e.shown[k]))
      && (forall k :: k in entry.added <==> k in e.wanted && k !in e.shown)
  }

  /** One entry was pushed, and remembers what the save overwrote. */
  ghost predicate LastRemembers(before: seq<Entry>, now: seq<Entry>, id: Identity, target: Target, key: string, base: View, e: Edit) {
    && now != [] && now == Pushed(before, now[|now| - 1])
    && now[|now| - 1].id == id && Remembers(now[|now| - 1], target, key, base, e)
  }

  lemma ApplyHolds(target: Target, key: string, base: View, view: View, e: Edit)
    requires !MapTarget(target) && Fits(target, key, e) && Describes(e, base)
    requires Holds(target, key, base, view, false, e, [])
    ensures e.SetKey? ==> view[key := e.after] == After(base, e)
    ensures e.RemoveKey? ==> view - {key} == After(base, e)
  {
    if !Reversible(target, key, base) {
      assert view[key := []] - {key} == view - {key};
      if e.SetKey? {
        assert view[key := e.after] == (view - {key})[key := e.after];
        assert base[key := e.after] == (base - {key})[key := e.after];
      }
    }
  }

  /** Putting the original value back, or taking the key out, undoes a single-key edit. */
  lemma RestoreKeyHolds(target: Target, key: string, base: View, e: Edit)
    requires !MapTarget(target) && Fits(target, key, e) && Describes(e, base)
    ensures target != NewKey ==>
      Holds(target, key, base, After(base, e)[key := Bytes(Lookup(base, key))], false, e, [])
    ensures target == NewKey ==> Holds(target, key, base, After(base, e) - {key}, false, e, [])
  {
    var v := if target == NewKey then After(base, e) - {key} else After(base, e)[key := Bytes(Lookup(base, key))];
    assert v - {key} == base - {key};
    if Reversible(target, key, base) {
      assert v == base;
    }
  }

  lemma RestoreDocumentHolds(target: Target, key: string, base: View, e: Edit, touched: seq<string>)
    requires MapTarget(target) && Holds(target, key, base, After(base, e), true, e, touched)
    ensures Overlay(After(base, e), e.shown, touched) == base
  {
    OverlayIsAfter(base, e.shown, e.wanted, touched);
    forall k | k in touched ensures Lookup(e.shown, k) == Lookup(base, k) {
      assert Lists(e, k);
    }
    RestoreInverts(base, e.wanted, e.shown, touched);
  }

  /** Taking an edit back restores the view it was made from exactly when the key was where
      the kind of edit expects it. */
  lemma RestoreIffReversible(target: Target, key: string, base: View, e: Edit)
    requires !MapTarget(target) && Fits(target, key, e) && Describes(e, base)
    ensures var restored := if target == NewKey then After(base, e) - {key} else After(base, e)[key := Bytes(Lookup(base, key))];
      restored == base <==> Reversible(target, key, base)
  {
    RestoreKeyHolds(target, key, base, e);
    var restored := if target == NewKey then After(base, e) - {key} else After(base, e)[key := Bytes(Lookup(base, key))];
    assert key in restored <==> target != NewKey;
  }

  /** A key that was gone from the cluster when the diff moved there: taking the edit back
      leaves the key behind, empty, where the base has no such key. */
  lemma RestoreOfMissingKeyFails()
    ensures var base: View := map["b" := [0x62]];
      var e := SetKey("a", [], [0x61]);
      && Fits(ExistingKey, "a", e) && Describes(e, base)
      && After(base, e)["a" := Bytes(Lookup(base, "a"))] != base
      && Holds(ExistingKey, "a", base, After(base, e)["a" := Bytes(Lookup(base, "a"))], false, e, [])
  {
    var base: View := map["b" := [0x62]];
    RestoreIffReversible(ExistingKey, "a", base, SetKey("a", [], [0x61]));
    RestoreKeyHolds(ExistingKey, "a", base, SetKey("a", [], [0x61]));
  }

  // ---------------------------------------------------------------- documents, key by key

  /** The set half and the delete half of applying a document. A failed delete leaves the
      keys touched so far changed, and listed. */
  method ApplyDocument(res: Resource, originalMap: View, editedMap: View) returns (touched: seq<string>, ok: bool)
    requires res.Valid()
    modifies res
    ensures res.Valid() && res.View() == Overlay(old(res.View()), editedMap, touched)
    ensures forall k | k in touched :: Lookup(originalMap, k) != Lookup(editedMap, k)
    ensures ok ==> forall k :: k in touched <==> Lookup(originalMap, k) != Lookup(editedMap, k)
    ensures !ok ==> exists k :: k in originalMap && k !in editedMap && k !in old(res.View())
  {
    touched := [];
    var sets := SortedKeys(editedMap);
    for i := 0 to |sets|
      invariant res.Valid() && res.View() == Overlay(old(res.View()), editedMap, touched)
      invariant forall k :: k in touched <==> k in sets[..i] && Lookup(originalMap, k) != Lookup(editedMap, k)
    {
      var key := sets[i];
      assert key in sets && sets[..i + 1] == sets[..i] + [key];
      if key in originalMap && originalMap[key] == editedMap[key] {
        continue;
      }
      OverlayStep(old(res.View()), editedMap, touched, key);
      res.Set(key, editedMap[key]);
      touched := touched + [key];
    }
    assert sets[..|sets|] == sets;
    touched, ok := DeleteMissing(res, originalMap, editedMap, touched, old(res.View()));
  }

  method DeleteMissing(res: Resource, originalMap: View, editedMap: View, done: seq<string>, ghost start: View)
    returns (touched: seq<string>, ok: bool)
    requires res.Valid() && res.View() == Overlay(start, editedMap, done)
    requires forall k :: k in done <==> k in editedMap && Lookup(originalMap, k) != Lookup(editedMap, k)
    modifies res
    ensures res.Valid() && res.View() == Overlay(start, editedMap, touched)
    ensures forall k | k in touched :: Lookup(originalMap, k) != Lookup(editedMap, k)
    ensures ok ==> forall k :: k in touched <==> Lookup(originalMap, k) != Lookup(editedMap, k)
    ensures !ok ==> exists k :: k in originalMap && k !in editedMap && k !in start
  {
    hide Overlay, Resource.View;
    touched := done;
    var keys := SortedKeys(originalMap);
    for i := 0 to |keys|
      invariant res.Valid() && res.View() == Overlay(start, editedMap, touched)
      invariant forall k :: k in touched <==> k in done || (k in keys[..i] && k !in editedMap)
    {
      var key := keys[i];
      assert key in keys && keys[..i + 1] == keys[..i] + [key];
      if key in editedMap {
        continue;
      }
      OverlayStep(start, editedMap, touched, key);
      var deleted := res.Delete(key);
      if !deleted {
        ListedOnce(keys, originalMap.Keys, i);
        UntouchedAtStart(start, editedMap, touched, key);
        return touched, false;
      }
      touched := touched + [key];
    }
    assert keys[..|keys|] == keys;
    ok := true;
  }

  lemma UntouchedAtStart(start: View, source: View, touched: seq<string>, key: string)
    requires key !in touched && key !in Overlay(start, source, touched)
    ensures key !in start
  {
    OverlayLookup(start, source, touched);
    assert Lookup(Overlay(start, source, touched), key) == Lookup(start, key);
  }

  method RestoreDocument(res: Resource, originalMap: View, touched: seq<string>)
    requires res.Valid()
    modifies res
    ensures res.Valid() && res.View() == Overlay(old(res.View()), originalMap, touched)
  {
    assert touched[..0] == [];
    for i := 0 to |touched|
      invariant res.Valid() && res.View() == Overlay(old(res.View()), originalMap, touched[..i])
    {
      var key := touched[i];
      assert touched[..i + 1] == touched[..i] + [key];
      OverlayStep(old(res.View()), originalMap, touched[..i], key);
      if key in originalMap {
        res.Set(key, originalMap[key]);
      } else {
        var _ := res.Delete(key);
      }
    }
    assert touched[..|touched|] == touched;
  }

  /** The object a conflict reply brings. */
  function ClusterIn(msg: Message): Option<Resource> {
    if msg.DryRunDone? && msg.dryRun.DryRunConflict? then msg.dryRun.current
    else if msg.SaveDone? && msg.save.SaveConflict? then msg.save.cluster
    else None
  }

  // ---------------------------------------------------------------- the flow

  class Flow {
    const id: Identity
    const target: Target
    const key: string
    const readOnly: bool
    const loader: Loader
    const gate: ConfirmGate
    const ring: Ring
    var res: Resource
    var original: Option<bytes>
    var edited: Option<bytes>
    var originalMap: View
    var editedMap: Option<View>
    var binaryKeys: seq<BinaryKey>
    var rawDoc: bool
    var touched: seq<string>
    var applied: bool
    var proposedMode: bool
    var phase: Phase
    var editorSeededOriginal: bool
    var editorReturnPhase: Phase
    var gateSkippedDryRun: bool
    var done: bool

    /** The resource the parent screen shares, and what it held when the flow opened. */
    ghost const shared: Resource
    ghost const sharedView: View
    /** The values `res` was obtained with, the diff applied last, and every diff on show when
        the user accepted it. */
    ghost var base: View
    ghost var accepted: Edit
    ghost var agreed: seq<Edit>
    /** What every dry run carried, and what the last accepted one saw. */
    ghost var dryRuns: map<nat, Snapshot>
    ghost var checked: Option<Snapshot>
    ghost var saves: seq<Dispatch>
    ghost var saved: bool

    constructor Base(ids: RequestIds, ring: Ring, id: Identity, readOnly: bool, res: Resource, target: Target, key: string)
      requires res.Valid() && ring.Valid()
      ensures Objects() && fresh(loader) && fresh(gate)
      ensures this.ring == ring && this.id == id && this.readOnly == readOnly && loader.ids == ids
      ensures this.res == res == shared && base == sharedView == res.View()
      ensures this.target == target && this.key == key && phase == Editing && editorReturnPhase == Editing
      ensures original.None? && edited.None? && originalMap == map[] && editedMap.None? && binaryKeys == [] && touched == []
      ensures !rawDoc && !gateSkippedDryRun && !editorSeededOriginal
      ensures !applied && !proposedMode && !done && !saved && saves == [] && agreed == [] && dryRuns == map[] && checked.None?
    {
      this.id, this.readOnly, this.ring := id, readOnly, ring;
      loader := new Loader(ids);
      gate := new ConfirmGate();
      this.res, this.target, this.key := res, target, key;
      original, edited, originalMap, editedMap, binaryKeys := None, None, map[], None, [];
      rawDoc, touched, applied, proposedMode, done := false, [], false, false, false;
      phase, editorReturnPhase, editorSeededOriginal, gateSkippedDryRun := Editing, Editing, false, false;
      shared, sharedView, base, accepted := res, res.View(), res.View(), RemoveKey(key, []);
      dryRuns, checked, saves, saved, agreed := map[], None, [], false, [];
    }

    ghost function Now(): Snapshot
      reads this`res, res
    {
      Snapshot(res.version, res.View())
    }

    /** The diff on show: the before side is the flow's picture of the cluster. */
    function ShownEdit(): Edit
      reads this`original, this`edited, this`originalMap, this`editedMap
    {
      match target
      case ExistingKey => SetKey(key, Bytes(original), Bytes(edited))
      case NewKey => SetKey(key, Bytes(original), Bytes(edited))
      case DeleteKey => RemoveKey(key, Bytes(original))
      case _ => Replace(originalMap, Document())
    }

    /** A document that was never written counts as an empty one. */
    function Document(): View
      reads this`editedMap
    {
      if editedMap.Some? then editedMap.value else map[]
    }

    ghost predicate Objects()
      reads this`res, res, shared, loader, loader.ids, gate, ring
    {
      res.Valid() && shared.Valid() && loader.Valid() && gate.Valid() && ring.Valid()
    }

    ghost predicate Picture()
      reads this`base, this`original, this`originalMap, this`binaryKeys
    {
      Knows(target, key, base, original, originalMap, binaryKeys)
    }

    ghost predicate Holding()
      reads this`res, this`base, this`applied, this`accepted, this`touched, res
    {
      Holds(target, key, base, res.View(), applied, accepted, touched)
    }

    /** What the parent's resource has to look like once the edit is taken back. */
    ghost predicate KeepsShared()
      reads this`res, this`base, shared
    {
      if res == shared then base == sharedView
      else Reversible(target, key, sharedView) ==> shared.View() == sharedView
    }

    /** The resource holds the very diff that is on show. */
    ghost predicate ShownApplied()
      reads this`applied, this`accepted, this`original, this`edited, this`originalMap, this`editedMap
    {
      applied && accepted == ShownEdit()
    }

    ghost predicate InPhase()
      reads this`res, this`phase, this`applied, this`editorReturnPhase, this`gateSkippedDryRun, this`done
      reads this`accepted, this`original, this`edited, this`originalMap, this`editedMap
      reads this`dryRuns, this`checked, this`saves, res, loader
    {
      if done then !applied else
      && (NeedsApplied(phase) ==> ShownApplied())
      && (phase == Editing ==> OpensEditor(editorReturnPhase) && (NeedsApplied(editorReturnPhase) ==> ShownApplied()))
      && (phase == DryRun ==> loader.reqID in dryRuns && dryRuns[loader.reqID] == Now())
      && (phase == CommitGate && !gateSkippedDryRun ==> checked == Some(Now()))
      && (phase == Saving ==> LastSaveIs(loader.reqID))
      && !AfterSave(phase)
    }

    /** The request id of the last save dispatched. */
    ghost predicate LastSaveIs(reqID: nat)
      reads this`saves
    {
      saves != [] && saves[|saves| - 1].reqID == reqID
    }

    ghost predicate Recorded()
      reads this`saves, this`dryRuns, loader.ids
    {
      && (forall d | d in saves :: Guarded(d))
      && IdsGrow(saves, loader.ids.last)
      && (forall i | i in dryRuns :: i <= loader.ids.last)
    }

    /** What is applied, and whatever was saved, is a diff the user accepted. */
    ghost predicate Agreed()
      reads this`applied, this`accepted, this`agreed, this`saves
    {
      && (applied ==> agreed != [] && agreed[|agreed| - 1] == accepted)
      && forall d | d in saves :: d.edit in agreed
    }

    ghost predicate Valid()
      reads this`res, this`base, this`original, this`originalMap, this`binaryKeys, this`applied, this`accepted, this`touched
      reads this`phase, this`editorReturnPhase, this`gateSkippedDryRun, this`done, this`dryRuns, this`checked, this`saves, this`saved
      reads this`agreed, this`edited, this`editedMap, res, shared, loader, loader.ids, gate, ring
    {
      && Objects() && Recorded() && Agreed()
      && (if saved then done || AfterSave(phase) else Picture() && Holding() && KeepsShared() && InPhase())
    }

    // -------------------------------------------------------------- where each message leads

    /** What a conflict leads to: the object the cluster holds, with a draft that may collide
        with its binary keys; or back to the diff when none came. */
    predicate ConflictLed(cluster: Option<Resource>, was: Resource)
      reads this`res, this`phase, this`applied, this`editedMap, this`binaryKeys, this`rawDoc
    {
      && !applied
      && if cluster.None? then res == was && phase == Diff
         else
           && res == cluster.value && (MapTarget(target) ==> !rawDoc)
           && phase == if Collides() then BinaryCollision else Conflict
    }

    predicate Collides()
      reads this`editedMap, this`binaryKeys
    {
      MapTarget(target) && NamesBinary(Document(), binaryKeys)
    }

    /** Where the answer to the pending dry run leads. */
    predicate DryRunLed(reply: DryRunReply, was: Resource)
      reads this`res, this`phase, this`applied, this`editedMap, this`binaryKeys, this`rawDoc, this`gateSkippedDryRun
    {
      match reply
      case DryRunOK => phase == CommitGate && !gateSkippedDryRun && applied && res == was
      case Rejected => phase == DryRunRejected && res == was
      case Unsupported => phase == DryRunUnsupported && applied && res == was
      case DryRunConflict(current) => ConflictLed(current, was)
      case DryRunFailed => phase == Diff && res == was
    }

    /** Where the answer to the pending save leads. */
    ghost predicate SaveLed(reply: SaveReply, was: Resource)
      reads this`res, this`phase, this`applied, this`edited, this`editedMap, this`rawDoc, this`binaryKeys, this`saved, this`done
    {
      match reply
      case SaveSucceeded =>
        && saved && !applied && edited.None? && editedMap.None? && !rawDoc && res == was
        && if target == NewResource || readOnly then done else !done && phase == Saved
      case SaveConflict(cluster) => !saved && !done && ConflictLed(cluster, was)
      case SaveForbidden => !saved && !done && phase == Forbidden && res == was
      case SaveFailed => !saved && !done && phase == Diff && res == was
    }

    /** Where the end of the editor leads. */
    predicate EditorLed(outcome: EditorOutcome, wasSeeded: bool, wasReturn: Phase)
      reads this`phase, this`done, this`edited, this`editedMap, this`rawDoc, this`original, this`originalMap, this`binaryKeys
    {
      match outcome
      case Broke => !done && phase == EditorFailed
      case Unreadable => !done && phase == EditorFailed
      case Unchanged => if wasSeeded then done else !done && phase == wasReturn
      case Wrote(content, parsed) => if MapTarget(target) then Drafted(parsed) else Valued(content)
    }

    /** The editor opens on the current draft, or cannot be opened. */
    predicate Opened(was: Phase, cmd: Command)
      reads this`phase, this`editorReturnPhase, this`editorSeededOriginal, this`edited, this`editedMap, this`rawDoc
    {
      || (cmd == NoCommand && phase == EditorFailed)
      || (cmd == OpenEditor && phase == Editing && editorReturnPhase == was
          && editorSeededOriginal == if MapTarget(target) then !rawDoc && editedMap.None? else edited.None?)
    }

    /** The key to edit again leads to the editor; where there is nothing to edit, to the diff. */
    predicate ReEdited(was: Phase, cmd: Command)
      reads this`phase, this`editorReturnPhase, this`editorSeededOriginal, this`edited, this`editedMap, this`rawDoc, this`proposedMode
    {
      if if was == Conflict then proposedMode else target == DeleteKey || (target == WholeResource && proposedMode)
      then phase == Diff && cmd == NoCommand
      else Opened(was, cmd)
    }

    /** Y on a diff or a conflict is refused for a collision, fails when the key to delete is
        gone, or goes on with the diff applied. */
    ghost predicate ConfirmLed(was: Phase, cmd: Command)
      reads this`phase, this`applied, this`accepted, this`original, this`edited, this`originalMap, this`editedMap, this`binaryKeys
      reads this`res, res, this`dryRuns, if cmd.SubmitDryRun? then {cmd.snapshot} else {}
    {
      if Collides() then phase == BinaryCollision && cmd == NoCommand
      else if target == DeleteKey && original.None? then phase == was && cmd == NoCommand && !applied
      else ShownApplied() && ((phase == ValidateWarn && cmd == NoCommand) || (phase == DryRun && ChecksNow(cmd)))
    }

    /** Where a key leads from each phase; `word` says whether the word stands in the gate. */
    ghost predicate KeyLed(key: KeyPress, was: Phase, word: bool, cmd: Command)
      reads this, res, loader, gate, if cmd.SubmitDryRun? then {cmd.snapshot} else {}
    {
      if Leaves(key, was) then done
      else if was == Saved && key == Enter then phase == Saved && cmd == if done then Pop else NoCommand
      else if was == Saved && key == Char('R') then
        || (phase == Saved && cmd == if done then Pop else NoCommand)
        || (phase == RolloutGate && gate.keys == [] && !done && cmd == NoCommand)
      else !done && KeyMoved(key, was, word, cmd)
    }

    ghost predicate KeyMoved(key: KeyPress, was: Phase, word: bool, cmd: Command)
      reads this, res, loader, gate, if cmd.SubmitDryRun? then {cmd.snapshot} else {}
    {
      if was == CommitGate && key == Esc then phase == Diff && cmd == NoCommand
      else if was == RolloutGate && key == Esc then phase == Saved && cmd == NoCommand
      else if was == DryRun && key == Esc then phase == Diff && cmd == NoCommand && !loader.pending
      else if was == CommitGate && key == Enter && word then phase == Saving && cmd.SubmitSave?
      else if was == RolloutGate && key == Enter && word then phase == RollingOut && cmd == Restart(loader.reqID) && loader.pending
      else if (was == Diff || was == Conflict) && key == Char('Y') then ConfirmLed(was, cmd)
      else if was == ValidateWarn && key == Char('Y') then phase == DryRun && ChecksNow(cmd)
      else if was == DryRunUnsupported && key == Char('Y') then
        phase == CommitGate && gateSkippedDryRun && gate.keys == [] && cmd == NoCommand
      else if Asks(was) && key == Char('e') then ReEdited(was, cmd)
      else phase == was && cmd == NoCommand
    }

    /** The message answers the request the flow is waiting for. */
    predicate Awaits(msg: Message)
      reads this`phase, loader
    {
      match msg
      case DryRunDone(reqID, _) => phase == DryRun && loader.pending && reqID == loader.reqID
      case SaveDone(reqID, _) => phase == Saving && loader.pending && reqID == loader.reqID
      case RestartDone(reqID) => phase == RollingOut && loader.pending && reqID == loader.reqID
      case _ => false
    }

    /** Where the awaited answer leads; any other reply leads nowhere. */
    ghost predicate ReplyLed(msg: Message, awaited: bool, wasRes: Resource)
      reads this`res, this`phase, this`applied, this`edited, this`editedMap, this`rawDoc, this`binaryKeys, this`saved, this`done
      reads this`gateSkippedDryRun
    {
      awaited ==>
        match msg
        case DryRunDone(_, reply) => DryRunLed(reply, wasRes) && !done && !saved
        case SaveDone(_, reply) => SaveLed(reply, wasRes)
        case RestartDone(_) => phase == RolloutDone && !done
        case _ => true
    }

    // -------------------------------------------------------------- applying and taking back

    /** Takes the accepted edit back. */
    method RestoreOriginal()
      requires res.Valid() && Picture() && Holding()
      modifies this`applied, res
      ensures res.Valid() && Holding() && !applied
    {
      if !applied { return; }
      ghost var after := res.View();
      match target {
        case ExistingKey =>
          RestoreKeyHolds(target, key, base, accepted);
          res.Set(key, Bytes(original));
        case DeleteKey =>
          RestoreKeyHolds(target, key, base, accepted);
          res.Set(key, Bytes(original));
        case NewKey =>
          RestoreKeyHolds(target, key, base, accepted);
          var _ := res.Delete(key);
        case _ =>
          RestoreDocumentHolds(target, key, base, accepted, touched);
          RestoreDocument(res, originalMap, touched);
      }
      applied := false;
    }

    /** Makes the resource hold the edit on show, whatever was applied before. */
    method ApplyChanges() returns (ok: bool)
      requires res.Valid() && Picture() && Holding()
      requires MapTarget(target) ==> Document().Keys !! BinaryKeysOf(base)
      modifies this`applied, this`touched, this`accepted, res
      ensures res.Valid() && Holding()
      ensures ok ==> applied && accepted == ShownEdit()
      ensures accepted == old(accepted) || accepted == ShownEdit()
      ensures ok <==> !(target == DeleteKey && original.None?)
      ensures !ok ==> !applied
    {
      hide Knows, Holds, BinaryKeysOf, Resource.View;
      if applied { RestoreOriginal(); }
      touched := [];
      TouchedOnlyWhenApplied(target, key, base, res.View(), accepted, touched);
      if MapTarget(target) {
        ok := ApplyMap();
        accepted := ShownEdit();
      } else {
        ok := ApplyKey();
      }
    }

    /** The single-key cases: a key to delete may be gone already. */
    method ApplyKey() returns (ok: bool)
      requires res.Valid() && Picture() && Holding() && !applied && !MapTarget(target)
      modifies this`applied, this`touched, this`accepted, res
      ensures res.Valid() && Holding()
      ensures ok <==> !(target == DeleteKey && original.None?)
      ensures if ok then applied && accepted == ShownEdit() else !applied && accepted == old(accepted)
    {
      hide Holds, Knows, Describes, After, Resource.View;
      ghost var view := res.View();
      UntakenHolds(target, key, base, view, accepted, touched, ShownEdit());
      if target == DeleteKey {
        ok := res.Delete(key);
        if !ok {
          assert view - {key} == view;
          GoneKey(view);
          return;
        }
      } else {
        res.Set(key, Bytes(edited));
        ok := true;
      }
      ShownFits(view);
      ApplyHolds(target, key, base, view, ShownEdit());
      applied, touched, accepted := true, [key], ShownEdit();
      AppliedHolds(target, key, base, accepted, touched);
    }

    /** The diff on show describes the values it was made from. */
    lemma ShownFits(view: View)
      requires Picture() && !MapTarget(target) && Holds(target, key, base, view, false, ShownEdit(), [])
      requires target == DeleteKey ==> key in view
      ensures Fits(target, key, ShownEdit()) && Describes(ShownEdit(), base)
      ensures target == DeleteKey ==> original.Some?
    {
    }

    /** A key to delete that is not there was not there when it was read. */
    lemma GoneKey(view: View)
      requires Picture() && target == DeleteKey && key !in view && Holds(target, key, base, view, false, ShownEdit(), [])
      ensures original.None?
    {
    }

    /** The document case; its deletes find every key they name. */
    method ApplyMap() returns (ok: bool)
      requires res.Valid() && Picture() && MapTarget(target) && res.View() == base
      requires Document().Keys !! BinaryKeysOf(base)
      modifies this`applied, this`touched, res
      ensures res.Valid() && ok && applied
      ensures Holds(target, key, base, res.View(), true, ShownEdit(), touched)
    {
      applied := true;  // a partial failure must still restore the keys changed so far
      touched, ok := ApplyDocument(res, originalMap, Document());
      assert ok ==> forall k :: k in touched <==> Lists(ShownEdit(), k);
      OverlayIsAfter(base, originalMap, Document(), touched);
    }

    /** The first binary key the document names. */
    method Collision() returns (name: Option<string>)
      requires Valid() && !saved && MapTarget(target)
      ensures name.None? ==> Document().Keys !! BinaryKeysOf(base)
      ensures name.Some? ==> name.value in Document() && name.value in BinaryKeysOf(base)
      ensures name.Some? <==> NamesBinary(Document(), binaryKeys)
    {
      name := FirstBinary(Document(), binaryKeys);
    }

    /** Y on a diff: applies it, and goes on to the warnings or to the dry run. */
    method Confirm() returns (cmd: Command)
      requires Valid() && !saved && !done && (phase.Diff? || phase.Conflict?)
      modifies this`phase, this`applied, this`touched, this`accepted, this`agreed, this`dryRuns, res, loader, loader.ids
      ensures Valid() && (cmd == NoCommand || cmd.SubmitDryRun?)
      ensures (cmd.SubmitDryRun? ==> ChecksNow(cmd)) && KeepsRuns(old(dryRuns), dryRuns)
      ensures accepted == old(accepted) || accepted == ShownEdit()
      ensures agreed == old(agreed) || agreed == old(agreed) + [ShownEdit()]
      ensures phase == old(phase) || phase == BinaryCollision
        || ((phase.ValidateWarn? || phase.DryRun?) && applied && accepted == ShownEdit())
      ensures phase == BinaryCollision <==> Collides()
      ensures ConfirmLed(old(phase), cmd)
    {
      hide Valid, BinaryKeysOf, ChecksNow, NamesBinary, ShownEdit, Document;
      cmd := NoCommand;
      if MapTarget(target) {
        var name := Collision();
        if name.Some? {
          GoTo(BinaryCollision);
          return;
        }
      }
      var ok := PrepareEdit();
      if !ok { return; }
      if * {
        Warn();
        return;
      }
      cmd := StartDryRun();
    }

    method PrepareEdit() returns (ok: bool)
      requires Valid() && !saved && !done && (phase.Diff? || phase.Conflict?)
      requires MapTarget(target) ==> Document().Keys !! BinaryKeysOf(base)
      modifies this`applied, this`touched, this`accepted, this`agreed, res
      ensures Valid() && (if ok then ShownApplied() else !applied)
      ensures ok <==> !(target == DeleteKey && original.None?)
      ensures accepted == old(accepted) || accepted == ShownEdit()
      ensures agreed == if ok then old(agreed) + [ShownEdit()] else old(agreed)
    {
      hide Valid, Objects, Recorded, Agreed, ShownApplied, Picture, Holding, KeepsShared, InPhase, BinaryKeysOf, Resource.View;
      ShownStands();
      ok := Reapply();
      DiffIsValid();
    }

    method Reapply() returns (ok: bool)
      requires Objects() && Agreed() && Picture() && Holding() && KeepsShared()
      requires MapTarget(target) ==> Document().Keys !! BinaryKeysOf(base)
      modifies this`applied, this`touched, this`accepted, this`agreed, res
      ensures Objects() && Agreed() && Picture() && Holding() && KeepsShared() && (if ok then ShownApplied() else !applied)
      ensures ok <==> !(target == DeleteKey && original.None?)
      ensures accepted == old(accepted) || accepted == ShownEdit()
      ensures agreed == if ok then old(agreed) + [ShownEdit()] else old(agreed)
    {
      hide Knows, Holds, BinaryKeysOf, Resource.View;
      ok := ApplyChanges();
      if ok { agreed := agreed + [accepted]; }
    }

    lemma DiffIsValid()
      requires Objects() && Recorded() && Agreed() && Picture() && Holding() && KeepsShared()
      requires !saved && !done && (phase == Diff || phase == Conflict)
      ensures Valid()
    {
      hide Objects, Recorded, Agreed, ShownApplied, Picture, Holding, KeepsShared;
    }

    method Warn()
      requires Valid() && !saved && !done && ShownApplied()
      modifies this`phase
      ensures Valid() && phase == ValidateWarn
    {
      hide Objects, Recorded, Agreed, Picture, Holding, KeepsShared, ShownApplied;
      phase := ValidateWarn;
    }

    /** A dry run that carries what the flow holds, on record under its id. */
    ghost predicate ChecksNow(cmd: Command)
      reads this`res, res, this`dryRuns, if cmd.SubmitDryRun? then {cmd.snapshot} else {}
    {
      && cmd.SubmitDryRun? && CarriesNow(cmd.snapshot)
      && cmd.reqID in dryRuns && dryRuns[cmd.reqID] == Now()
    }

    /** A request's snapshot is what the flow holds. */
    ghost predicate CarriesNow(snapshot: Resource)
      reads this`res, res, snapshot
    {
      snapshot.Valid() && Snapshot(snapshot.version, snapshot.View()) == Now()
    }

    method StartDryRun() returns (cmd: Command)
      requires Valid() && !saved && !done && ShownApplied()
      modifies this`phase, this`dryRuns, loader, loader.ids
      ensures Valid() && phase == DryRun && loader.pending
      ensures cmd.SubmitDryRun? && cmd.reqID == loader.reqID && cmd.create == (target == NewResource)
      ensures ChecksNow(cmd) && KeepsRuns(old(dryRuns), dryRuns)
    {
      hide Valid, Objects, Recorded, Agreed, ShownApplied, Picture, Holding, KeepsShared, InPhase, KeepsRuns, Resource.View;
      ShownStands();
      cmd := Checking();
      DryRunIsValid();
    }

    method Checking() returns (cmd: Command)
      requires Objects() && Recorded()
      modifies this`phase, this`dryRuns, loader, loader.ids
      ensures Objects() && Recorded() && phase == DryRun && loader.pending
      ensures loader.reqID in dryRuns && dryRuns[loader.reqID] == Now() && KeepsRuns(old(dryRuns), dryRuns)
      ensures cmd.SubmitDryRun? && cmd.reqID == loader.reqID && cmd.create == (target == NewResource) && CarriesNow(cmd.snapshot)
    {
      hide Guarded, Resource.View;
      var reqID := loader.Start();
      var snapshot := res.Clone();
      phase, dryRuns := DryRun, dryRuns[reqID := Now()];
      cmd := SubmitDryRun(reqID, snapshot, target == NewResource);
    }

    lemma ShownStands()
      requires Valid() && !saved && !done
      ensures Objects() && Recorded() && Agreed() && Picture() && Holding() && KeepsShared()
    {
    }

    lemma DryRunIsValid()
      requires Objects() && Recorded() && Agreed() && Picture() && Holding() && KeepsShared()
      requires !saved && !done && phase == DryRun && ShownApplied()
      requires loader.reqID in dryRuns && dryRuns[loader.reqID] == Now()
      ensures Valid()
    {
      hide Objects, Recorded, Agreed, ShownApplied, Picture, Holding, KeepsShared, Resource.View;
    }

    method StartSaving(ghost typed: seq<KeyPress>) returns (cmd: Command)
      requires Valid() && !saved && !done && phase == CommitGate
      requires TrimSpace(TextOfKeys(typed)) == CONFIRM_WORD
      modifies this`phase, this`saves, loader, loader.ids
      ensures Valid() && phase == Saving && loader.pending
      ensures saves == old(saves) + [Dispatch(loader.reqID, Now(), base, accepted, typed, gateSkippedDryRun, checked)]
      ensures cmd.SubmitSave? && cmd.reqID == loader.reqID && cmd.create == (target == NewResource)
      ensures CarriesNow(cmd.snapshot)
    {
      hide Valid, Objects, Agreed, ShownApplied, Picture, Holding, KeepsShared, InPhase, Guarded, Resource.View, TrimSpace, TextOfKeys;
      GateHolds(typed);
      cmd := Dispatching(typed);
      SavingIsValid();
    }

    method Dispatching(ghost typed: seq<KeyPress>) returns (cmd: Command)
      requires Objects() && Recorded() && Agreed() && applied
      requires Guarded(Dispatch(loader.reqID, Now(), base, accepted, typed, gateSkippedDryRun, checked))
      modifies this`phase, this`saves, loader, loader.ids
      ensures Objects() && Recorded() && Agreed() && phase == Saving && loader.pending
      ensures saves == old(saves) + [Dispatch(loader.reqID, Now(), base, accepted, typed, gateSkippedDryRun, checked)]
      ensures cmd.SubmitSave? && cmd.reqID == loader.reqID && cmd.create == (target == NewResource) && CarriesNow(cmd.snapshot)
    {
      hide Guarded, IdsGrow, Resource.View;
      GuardedUnderAnyId(Dispatch(loader.reqID, Now(), base, accepted, typed, gateSkippedDryRun, checked), loader.ids.last + 1);
      IdsGrowOn(saves, loader.ids.last, Dispatch(loader.ids.last + 1, Now(), base, accepted, typed, gateSkippedDryRun, checked));
      var reqID := loader.Start();
      var snapshot := res.Clone();
      phase := Saving;
      saves := saves + [Dispatch(loader.reqID, Now(), base, accepted, typed, gateSkippedDryRun, checked)];
      cmd := SubmitSave(reqID, snapshot, target == NewResource);
    }

    /** What is dispatched from the gate is guarded. */
    lemma GateHolds(typed: seq<KeyPress>)
      requires Valid() && !saved && !done && phase == CommitGate && TrimSpace(TextOfKeys(typed)) == CONFIRM_WORD
      ensures Guarded(Dispatch(loader.reqID, Now(), base, accepted, typed, gateSkippedDryRun, checked))
      ensures Objects() && Recorded() && Agreed() && Picture() && Holding() && KeepsShared() && ShownApplied() && applied
    {
      hide Knows, KeepsShared, Objects, Recorded, Resource.View, TrimSpace, TextOfKeys;
    }

    lemma SavingIsValid()
      requires Objects() && Recorded() && Agreed() && Picture() && Holding() && KeepsShared()
      requires !saved && !done && phase == Saving && ShownApplied() && LastSaveIs(loader.reqID)
      ensures Valid()
    {
      hide Objects, Recorded, Agreed, Picture, Holding, KeepsShared, ShownApplied;
    }

    /** With the edit taken back the parent's resource is as it was. */
    lemma SharedRestored()
      requires !applied && Holding() && KeepsShared()
      ensures Reversible(target, key, sharedView) ==> shared.View() == sharedView
    {
    }

    /** Moves the edit onto the object the cluster holds now. */
    method EnterConflict(cluster: Option<Resource>)
      requires Valid() && !saved && !done
      requires cluster.Some? ==> cluster.value.Valid() && cluster.value != res && cluster.value != shared
      modifies this`res, this`original, this`originalMap, this`binaryKeys, this`rawDoc, this`applied, this`phase, this`base, res
      ensures Valid() && !applied && (phase.Diff? || phase.Conflict? || phase.BinaryCollision?)
      ensures cluster.None? ==> res == old(res) && base == old(base) && phase == Diff
      ensures cluster.Some? ==> res == cluster.value && base == res.View()
      ensures ConflictLed(cluster, old(res))
    {
      hide Valid, NamesBinary, Document, Reversible;
      TakeBack();
      if cluster.None? { return; }
      if MapTarget(target) {
        AdoptDocument(cluster.value);
        var name := Collision();
        if name.Some? { GoTo(BinaryCollision); }
      } else {
        AdoptValue(cluster.value);
      }
    }

    method TakeBack()
      requires Valid() && !saved && !done
      modifies this`applied, this`phase, res
      ensures Valid() && !applied && phase == Diff
      ensures Reversible(target, key, sharedView) ==> shared.View() == sharedView
    {
      hide Knows, Holds, Recorded, Resource.View;
      RestoreOriginal();
      phase := Diff;
      SharedRestored();
    }

    method AdoptDocument(cluster: Resource)
      requires Valid() && !saved && !done && !applied && MapTarget(target)
      requires Reversible(target, key, sharedView) ==> shared.View() == sharedView
      requires cluster.Valid() && cluster != shared
      modifies this`res, this`original, this`originalMap, this`binaryKeys, this`rawDoc, this`phase, this`base
      ensures Valid() && phase == Conflict && res == cluster && base == res.View() && !rawDoc
    {
      hide Valid, Knows;
      var values, binary := ReadDocument(cluster, target, key, original);
      Adopt(cluster, original, values, binary);
      rawDoc := false;
    }

    /** A key deleted meanwhile shows as an empty original value. */
    method AdoptValue(cluster: Resource)
      requires Valid() && !saved && !done && !applied && !MapTarget(target)
      requires Reversible(target, key, sharedView) ==> shared.View() == sharedView
      requires cluster.Valid() && cluster != shared
      modifies this`res, this`original, this`originalMap, this`binaryKeys, this`phase, this`base
      ensures Valid() && phase == Conflict && res == cluster && base == res.View()
    {
      hide Valid;
      var value := cluster.Get(key);
      KnowsKey(target, key, cluster.View(), value, originalMap, binaryKeys);
      Adopt(cluster, value, originalMap, binaryKeys);
    }

    method Adopt(cluster: Resource, value: Option<bytes>, values: View, binary: seq<BinaryKey>)
      requires Valid() && !saved && !done && !applied
      requires Reversible(target, key, sharedView) ==> shared.View() == sharedView
      requires cluster.Valid() && cluster != shared
      requires Knows(target, key, cluster.View(), value, values, binary)
      modifies this`res, this`original, this`originalMap, this`binaryKeys, this`phase, this`base
      ensures Valid() && phase == Conflict && res == cluster && base == res.View()
    {
      hide Valid, Objects, Recorded, Agreed, ShownApplied, Picture, Holding, KeepsShared, InPhase, Knows, Resource.View;
      ObjectsStand();
      MoveTo(cluster, value, values, binary);
      DiffIsValid();
    }

    method MoveTo(cluster: Resource, value: Option<bytes>, values: View, binary: seq<BinaryKey>)
      requires Objects() && !applied && cluster.Valid() && cluster != shared
      requires Reversible(target, key, sharedView) ==> shared.View() == sharedView
      requires Knows(target, key, cluster.View(), value, values, binary)
      modifies this`res, this`original, this`originalMap, this`binaryKeys, this`phase, this`base
      ensures Objects() && Picture() && Holding() && KeepsShared()
      ensures phase == Conflict && res == cluster && base == res.View()
    {
      hide Knows, Holds, Reversible, Resource.View;
      UntouchedHolds(target, key, cluster.View(), accepted, touched);
      res, base, phase := cluster, cluster.View(), Conflict;
      original, originalMap, binaryKeys := value, values, binary;
    }

    /** Leaves the flow with the edit taken back. */
    method Abort() returns (cmd: Command)
      requires Valid() && !saved && !done
      modifies this`applied, this`done, res, loader
      ensures Valid() && done && !applied && cmd == Pop
    {
      RestoreOriginal();
      var _ := loader.Stop();
      done := true;
      cmd := Pop;
    }

    // -------------------------------------------------------------- the editor

    /** Opens the editor on the current draft. Anything may fail on the way. */
    method OpenTheEditor() returns (cmd: Command)
      requires Valid() && !saved && !done && OpensEditor(phase)
      modifies this`phase, this`editorSeededOriginal, this`editorReturnPhase
      ensures Valid() && phase == (if cmd == OpenEditor then Editing else EditorFailed) && (cmd == OpenEditor || cmd == NoCommand)
      ensures Opened(old(phase), cmd)
    {
      hide Valid;
      cmd := NoCommand;
      if * {  // the document cannot be serialized or written
        GoTo(EditorFailed);
        return;
      }
      Seed();
      if * {  // the editor cannot be started
        GoTo(EditorFailed);
        return;
      }
      cmd := OpenEditor;
    }

    /** Notes where the editor is opened from and whether it starts from the original. */
    method Seed()
      requires Valid() && !saved && !done && OpensEditor(phase)
      modifies this`phase, this`editorSeededOriginal, this`editorReturnPhase
      ensures Valid() && phase == Editing && editorReturnPhase == old(phase)
      ensures editorSeededOriginal == if MapTarget(target) then !rawDoc && editedMap.None? else edited.None?
    {
      hide Objects, Recorded, Agreed, Picture, Holding, KeepsShared, ShownApplied;
      editorSeededOriginal := if MapTarget(target) then !rawDoc && editedMap.None? else edited.None?;
      editorReturnPhase, phase := phase, Editing;
    }

    method ReEdit() returns (cmd: Command)
      requires Valid() && !saved && !done && OpensEditor(phase) && phase != Conflict
      modifies this`phase, this`editorSeededOriginal, this`editorReturnPhase
      ensures Valid() && (phase == Editing || phase == EditorFailed || phase == Diff) && (cmd == OpenEditor || cmd == NoCommand)
      ensures (cmd == OpenEditor <==> phase == Editing) && ReEdited(old(phase), cmd)
    {
      hide Valid;
      if target == DeleteKey || (target == WholeResource && proposedMode) {
        GoTo(Diff);
        return NoCommand;
      }
      cmd := OpenTheEditor();
    }

    /** Takes the editor's result: back to where it was opened from, out of the flow, or on
        to the diff. */
    method FinishEditor(outcome: EditorOutcome) returns (cmd: Command)
      requires Valid() && !saved && !done && phase == Editing
      modifies this`phase, this`rawDoc, this`edited, this`editedMap, this`applied, this`done, res, loader
      ensures Valid() && (done <==> cmd == Pop) && (cmd == Pop || cmd == NoCommand) && phase != CommitGate
      ensures EditorLed(outcome, old(editorSeededOriginal), old(editorReturnPhase))
      ensures !outcome.Wrote? ==> edited == old(edited) && editedMap == old(editedMap)
    {
      hide Valid, Drafted, Valued;
      cmd := NoCommand;
      match outcome {
        case Broke => GoTo(EditorFailed);
        case Unreadable => GoTo(EditorFailed);
        case Unchanged =>
          if !editorSeededOriginal {
            GoBack();
            return;
          }
          cmd := Abort();
        case Wrote(content, parsed) =>
          if MapTarget(target) {
            cmd := TakeDocument(parsed);
          } else {
            cmd := TakeValue(content);
          }
      }
    }

    /** Back to the phase the editor was opened from. */
    method GoBack()
      requires Valid() && !saved && !done && phase == Editing
      modifies this`phase
      ensures Valid() && phase == editorReturnPhase && phase != CommitGate
    {
      hide Objects, Recorded, Agreed, Picture, Holding, KeepsShared, ShownApplied;
      phase := editorReturnPhase;
    }

    /** Where a document that was written leads: an error phase, out of the flow when nothing
        changed, or the diff of the new draft. */
    predicate Drafted(parsed: Option<View>)
      reads this`phase, this`done, this`editedMap, this`originalMap, this`binaryKeys, this`rawDoc
    {
      rawDoc &&
      if parsed.None? then !done && phase == ParseFailed
      else if NamesBinary(parsed.value, binaryKeys) then !done && phase == BinaryCollision
      else
        && editedMap == parsed
        && if target != NewResource && originalMap == parsed.value then done else !done && phase == Diff
    }

    /** Where a value that was written leads: out of the flow when it is the old one, or
        empty for a new key; else to its diff. */
    predicate Valued(content: bytes)
      reads this`phase, this`done, this`edited, this`original
    {
      && edited == Some(NormalizeEdited(Bytes(original), content))
      && if (target == NewKey && Bytes(edited) == []) || (target == ExistingKey && Bytes(original) == Bytes(edited)) then done
         else !done && phase == Diff
    }

    method TakeDocument(parsed: Option<View>) returns (cmd: Command)
      requires Valid() && !saved && !done && phase == Editing && MapTarget(target)
      modifies this`phase, this`rawDoc, this`editedMap, this`applied, this`done, res, loader
      ensures Valid() && (done <==> cmd == Pop) && (cmd == Pop || cmd == NoCommand) && phase != CommitGate
      ensures Drafted(parsed)
    {
      hide Valid, Names, NamesBinary, Document, MapTarget;
      cmd := NoCommand;
      rawDoc := true;
      if parsed.None? {
        GoTo(ParseFailed);
        return;
      }
      var name := FirstBinary(parsed.value, binaryKeys);
      if name.Some? {
        GoTo(BinaryCollision);
        return;
      }
      DraftDocument(parsed);
      if target != NewResource && originalMap == parsed.value {
        cmd := Abort();
      }
    }

    /** A new draft is for the diff to show, whatever was applied of an earlier one. */
    method DraftDocument(parsed: Option<View>)
      requires Valid() && !saved && !done && phase == Editing && MapTarget(target)
      modifies this`phase, this`editedMap
      ensures Valid() && phase == Diff && editedMap == parsed
    {
      hide Objects, Recorded, Agreed, Picture, Holding, KeepsShared, ShownApplied;
      phase, editedMap := Diff, parsed;
    }

    method DraftValue(value: bytes)
      requires Valid() && !saved && !done && phase == Editing && !MapTarget(target)
      modifies this`phase, this`edited
      ensures Valid() && phase == Diff && edited == Some(value)
    {
      hide Objects, Recorded, Agreed, Picture, Holding, KeepsShared, ShownApplied;
      phase, edited := Diff, Some(value);
    }

    method TakeValue(content: bytes) returns (cmd: Command)
      requires Valid() && !saved && !done && phase == Editing && !MapTarget(target)
      modifies this`phase, this`edited, this`applied, this`done, res, loader
      ensures Valid() && (done <==> cmd == Pop) && (cmd == Pop || cmd == NoCommand) && phase != CommitGate
      ensures Valued(content)
    {
      hide Valid, NormalizeEdited;
      cmd := NoCommand;
      DraftValue(NormalizeEdited(Bytes(original), content));
      if (target == NewKey && Bytes(edited) == []) || (target == ExistingKey && Bytes(original) == Bytes(edited)) {
        cmd := Abort();
      }
    }

    // -------------------------------------------------------------- replies

    /** Goes to a phase that demands nothing. */
    method GoTo(p: Phase)
      requires Valid() && !saved && !done && !NeedsApplied(p) && !AfterSave(p) && p != Editing
      modifies this`phase
      ensures Valid() && phase == p
    {
      hide Objects, Recorded, Agreed, Picture, Holding, KeepsShared, ShownApplied;
      phase := p;
    }

    /** Arms the gate: what it will dispatch was just checked, or the user went past the
        missing check. */
    method OpenGate(skipped: bool)
      requires Valid() && !saved && !done && NeedsApplied(phase)
      requires !skipped ==> phase == DryRun
      modifies this`phase, this`checked, this`gateSkippedDryRun, gate
      ensures Valid() && phase == CommitGate && gateSkippedDryRun == skipped && gate.keys == []
      ensures checked == if skipped then old(checked) else Some(Now())
    {
      hide Valid, Objects, Recorded, Agreed, ShownApplied, Picture, Holding, KeepsShared, InPhase, Resource.View;
      AppliedHere();
      ShownStands();
      ArmGate(skipped);
      GateIsValid();
    }

    method ArmGate(skipped: bool)
      requires Objects()
      modifies this`phase, this`checked, this`gateSkippedDryRun, gate
      ensures Objects() && phase == CommitGate && gateSkippedDryRun == skipped && gate.keys == []
      ensures checked == if skipped then old(checked) else Some(Now())
    {
      hide Resource.View;
      if !skipped { checked := Some(Now()); }
      phase, gateSkippedDryRun := CommitGate, skipped;
      gate.Arm();
    }

    lemma GateIsValid()
      requires Objects() && Recorded() && Agreed() && Picture() && Holding() && KeepsShared()
      requires !saved && !done && phase == CommitGate && ShownApplied() && (gateSkippedDryRun || checked == Some(Now()))
      ensures Valid()
    {
      hide Objects, Recorded, Agreed, ShownApplied, Picture, Holding, KeepsShared, Resource.View;
    }

    /** A dry run's answer. One whose request is not the pending one changes nothing. */
    method TakeDryRun(reqID: nat, reply: DryRunReply)
      requires Valid() && !saved && !done && phase == DryRun
      requires Foreign(if reply.DryRunConflict? then reply.current else None)
      modifies this`res, this`original, this`originalMap, this`binaryKeys, this`rawDoc, this`applied, this`phase, this`base
      modifies this`checked, this`gateSkippedDryRun, res, loader, gate
      ensures Valid() && Moved(old(res), old(base), if reply.DryRunConflict? then reply.current else None)
      ensures phase != old(phase) ==> old(loader.pending) && reqID == old(loader.reqID)
      ensures phase == CommitGate ==>
        reply == DryRunOK && reqID in dryRuns && checked == Some(dryRuns[reqID]) && gate.keys == [] && !gateSkippedDryRun
      ensures if old(loader.pending) && reqID == old(loader.reqID) then DryRunLed(reply, old(res))
              else unchanged(this, res, gate) && loader.reqID == old(loader.reqID) && loader.pending == old(loader.pending)
    {
      hide Valid, NamesBinary, Document;
      AppliedHere();
      DryRunSawNow();
      var ok := FinishLoad(reqID);
      if !ok { return; }
      match reply {
        case DryRunOK => OpenGate(false);
        case Rejected => GoTo(DryRunRejected);
        case Unsupported => MissDryRun();
        case DryRunConflict(current) => EnterConflict(current);
        case DryRunFailed => GoTo(Diff);
      }
    }

    lemma DryRunSawNow()
      requires Valid() && !saved && !done && phase == DryRun
      ensures loader.reqID in dryRuns && dryRuns[loader.reqID] == Now()
    {
    }

    method FinishLoad(reqID: nat) returns (ok: bool)
      requires Valid()
      modifies loader
      ensures Valid() && ok == (reqID == old(loader.reqID) && old(loader.pending))
      ensures loader.reqID == old(loader.reqID) && (!ok ==> loader.pending == old(loader.pending))
    {
      hide Picture, Holding, KeepsShared, Recorded;
      ok := loader.Finish(reqID);
    }

    method StopLoad()
      requires Valid()
      modifies loader
      ensures Valid() && !loader.pending
    {
      hide Picture, Holding, KeepsShared, Recorded;
      var _ := loader.Stop();
    }

    method MissDryRun()
      requires Valid() && !saved && !done && phase == DryRun
      modifies this`phase
      ensures Valid() && phase == DryRunUnsupported
    {
      hide Objects, Recorded, Agreed, Picture, Holding, KeepsShared, ShownApplied;
      phase := DryRunUnsupported;
    }

    /** The answer to a save. One whose request is not the pending one changes nothing. */
    method TakeSave(reqID: nat, reply: SaveReply) returns (cmd: Command)
      requires Valid() && !saved && !done && phase == Saving
      requires Foreign(if reply.SaveConflict? then reply.cluster else None)
      modifies this`res, this`original, this`originalMap, this`binaryKeys, this`rawDoc, this`applied, this`phase, this`base
      modifies this`edited, this`editedMap, this`saved, this`done, res, loader, ring
      ensures Valid() && (cmd == Pop <==> done) && (cmd == Pop || cmd == NoCommand)
      ensures Moved(old(res), old(base), if reply.SaveConflict? then reply.cluster else None) && phase != CommitGate
      ensures phase != old(phase) || saved ==> old(loader.pending) && reqID == old(loader.reqID)
      ensures done ==> saved
      ensures saved <==> reply == SaveSucceeded && old(loader.pending) && reqID == old(loader.reqID)
      ensures saved ==> LastSaveIs(reqID)
      ensures !saved ==> edited == old(edited) && editedMap == old(editedMap)
      ensures if old(loader.pending) && reqID == old(loader.reqID) then SaveLed(reply, old(res))
              else unchanged(this, res) && loader.reqID == old(loader.reqID) && loader.pending == old(loader.pending)
      ensures if saved && target != NewResource then LastRemembers(old(ring.entries), ring.entries, id, target, key, old(base), accepted)
              else ring.entries == old(ring.entries)
    {
      hide Valid, LastRemembers, LastSaveIs, NamesBinary, Document;
      cmd := NoCommand;
      SavingIsLast();
      var ok := FinishLoad(reqID);
      if !ok { return; }
      match reply {
        case SaveSucceeded => cmd := FinishSave();
        case SaveConflict(cluster) => EnterConflict(cluster);
        case SaveForbidden => GoTo(Forbidden);
        case SaveFailed => GoTo(Diff);
      }
    }

    lemma SavingIsLast()
      requires Valid() && !saved && !done && phase == Saving
      ensures LastSaveIs(loader.reqID)
    {
      hide Objects, Recorded, Agreed, Picture, Holding, KeepsShared, ShownApplied;
    }

    /** Remembers what the save overwrote and ends the edit. */
    method FinishSave() returns (cmd: Command)
      requires Valid() && !saved && !done && phase == Saving
      modifies this`applied, this`phase, this`edited, this`editedMap, this`rawDoc, this`saved, this`done, loader, ring
      ensures Valid() && saved && (cmd == Pop <==> done) && (cmd == Pop || cmd == NoCommand) && phase != CommitGate
      ensures if target != NewResource then LastRemembers(old(ring.entries), ring.entries, id, target, key, base, accepted)
              else ring.entries == old(ring.entries)
      ensures SaveLed(SaveSucceeded, res)
    {
      hide Valid, LastRemembers;
      if target != NewResource { PushUndo(); }
      StopLoad();
      cmd := EndEdit();
    }

    method EndEdit() returns (cmd: Command)
      requires Valid() && !saved && !done && phase == Saving
      modifies this`applied, this`phase, this`edited, this`editedMap, this`rawDoc, this`saved, this`done
      ensures Valid() && saved && (cmd == Pop <==> done) && (cmd == Pop || cmd == NoCommand) && phase != CommitGate
      ensures SaveLed(SaveSucceeded, res)
    {
      hide Valid, Objects, Recorded, Picture, Holding, KeepsShared, InPhase;
      ObjectsStand();
      cmd := NoCommand;
      Forget();
      if target == NewResource || readOnly {
        done := true;
        cmd := Pop;
      } else {
        phase := Saved;
      }
      SavedIsValid();
    }

    /** Drops the edit, which the cluster holds now. */
    method Forget()
      requires Objects() && Recorded() && Agreed()
      modifies this`applied, this`edited, this`editedMap, this`rawDoc, this`saved
      ensures Objects() && Recorded() && Agreed() && saved && !applied && edited.None? && editedMap.None? && !rawDoc
    {
      hide Objects, Recorded;
      applied, saved := false, true;
      edited, editedMap, rawDoc := None, None, false;
    }

    lemma ObjectsStand()
      requires Valid()
      ensures Objects() && Recorded() && Agreed()
    {
    }

    lemma SavedIsValid()
      requires Objects() && Recorded() && Agreed() && saved && (done || phase == Saved)
      ensures Valid()
    {
    }

    method PushUndo()
      requires Valid() && !saved && !done && phase == Saving && target != NewResource
      modifies ring
      ensures Valid() && LastRemembers(old(ring.entries), ring.entries, id, target, key, base, accepted)
    {
      hide Recorded, KeepsShared, Remembers, Resource.View, Holds, Knows;
      var entry := UndoEntry();
      ring.Push(entry);
    }

    method UndoEntry() returns (entry: Entry)
      requires Picture() && Holding() && applied && target != NewResource
      ensures entry.id == id && Remembers(entry, target, key, base, accepted)
    {
      match target {
        case NewKey => entry := Entry(id, map[], [key]);
        case WholeResource =>
          var previous, added := DocumentEntry(originalMap, touched);
          DocumentRemembered(previous, added, originalMap, accepted.wanted, touched);
          entry := Entry(id, previous, added);
        case _ => entry := Entry(id, map[key := original], []);
      }
    }

    // -------------------------------------------------------------- keys

    /** Keys while a typed gate is armed: esc closes it with nothing dispatched. */
    method GateKey(key: KeyPress) returns (cmd: Command)
      requires Valid() && !done && (phase == CommitGate || phase == RolloutGate)
      modifies this`phase, this`saves, loader, loader.ids, gate
      ensures Valid() && !done && !cmd.SubmitDryRun?
      ensures old(phase) == CommitGate && cmd.SubmitSave? ==>
        && key == Enter && phase == Saving
        && TrimSpace(TextOfKeys(old(gate.keys))) == CONFIRM_WORD && Dispatched(old(saves), old(gate.keys), cmd)
      ensures !cmd.SubmitSave? ==> saves == old(saves)
      ensures cmd.SubmitSave? ==> old(phase) == CommitGate
      ensures cmd != Pop && (phase == CommitGate ==> old(phase) == CommitGate && gate.keys == old(gate.keys) + [key])
      ensures KeyLed(key, old(phase), WordTyped(old(gate.keys)), cmd)
    {
      hide Valid, TrimSpace, TextOfKeys, ConfirmLed, ReEdited, ChecksNow, CarriesNow, Resource.View;
      cmd := NoCommand;
      SavedPhases();
      if key == Esc {
        CloseGate();
        return;
      }
      var confirmed := AskGate(key);
      if !confirmed { return; }
      if phase == RolloutGate {
        cmd := StartRestart();
        return;
      }
      cmd := StartSaving(old(gate.keys));
    }

    lemma SavedPhases()
      requires Valid() && !done
      ensures saved <==> AfterSave(phase)
    {
    }

    method CloseGate()
      requires Valid() && !done && (phase == CommitGate || phase == RolloutGate)
      modifies this`phase
      ensures Valid() && phase == if old(phase) == RolloutGate then Saved else Diff
    {
      hide Objects, Recorded, Agreed, Picture, Holding, KeepsShared, ShownApplied;
      phase := if phase == RolloutGate then Saved else Diff;
    }

    method AskGate(key: KeyPress) returns (confirmed: bool)
      requires Valid()
      modifies gate
      ensures Valid() && (confirmed <==> key == Enter && TrimSpace(TextOfKeys(old(gate.keys))) == CONFIRM_WORD)
      ensures gate.keys == old(gate.keys) + [key]
    {
      hide Picture, Holding, KeepsShared, Recorded, TrimSpace, TextOfKeys;
      confirmed := gate.HandleKey(key);
    }

    method StartRestart() returns (cmd: Command)
      requires Valid() && !done && phase == RolloutGate
      modifies this`phase, loader, loader.ids
      ensures Valid() && phase == RollingOut && cmd == Restart(loader.reqID) && loader.pending
    {
      var reqID := loader.Start();
      phase := RollingOut;
      cmd := Restart(reqID);
    }

    ghost predicate SaveOf(cmd: Command)
      reads this`res, res, loader, if cmd.SubmitSave? then {cmd.snapshot} else {}
    {
      && cmd.SubmitSave? && cmd.reqID == loader.reqID && cmd.create == (target == NewResource)
      && CarriesNow(cmd.snapshot)
    }

    /** Keys in every other phase before the save. */
    method EditKey(key: KeyPress) returns (cmd: Command)
      requires Valid() && !done && !saved && phase != CommitGate && !AfterSave(phase)
      modifies this`phase, this`applied, this`touched, this`accepted, this`agreed, this`dryRuns, this`done
      modifies this`checked, this`gateSkippedDryRun, this`editorSeededOriginal, this`editorReturnPhase
      modifies res, loader, loader.ids, gate
      ensures Valid() && (cmd == Pop <==> done) && !cmd.SubmitSave? && (cmd.SubmitDryRun? ==> ChecksNow(cmd))
      ensures KeepsRuns(old(dryRuns), dryRuns)
      ensures phase == CommitGate ==> key == Char('Y') && old(phase) == DryRunUnsupported && gateSkippedDryRun && gate.keys == []
      ensures accepted == old(accepted) || (AcceptsDiff(key, old(phase)) && accepted == old(ShownEdit()))
      ensures agreed == old(agreed) || (AcceptsDiff(key, old(phase)) && agreed == old(agreed) + [old(ShownEdit())])
      ensures phase == Saving ==> old(phase) == Saving
      ensures forall word :: KeyLed(key, old(phase), word, cmd)
    {
      hide Valid, ChecksNow, ShownEdit, ConfirmLed, ReEdited, Resource.View;
      cmd := NoCommand;
      if Asks(phase) {
        cmd := AskKey(key);
      } else if phase == DryRun && key == Esc {
        StopLoad();
        GoTo(Diff);
      }
    }

    /** Keys while the flow asks: Y goes on, e edits again, esc leaves. */
    method AskKey(key: KeyPress) returns (cmd: Command)
      requires Valid() && !done && !saved && Asks(phase)
      modifies this`phase, this`applied, this`touched, this`accepted, this`agreed, this`dryRuns, this`done
      modifies this`checked, this`gateSkippedDryRun, this`editorSeededOriginal, this`editorReturnPhase
      modifies res, loader, loader.ids, gate
      ensures Valid() && (cmd == Pop <==> done) && !cmd.SubmitSave? && (cmd.SubmitDryRun? ==> ChecksNow(cmd))
      ensures KeepsRuns(old(dryRuns), dryRuns)
      ensures phase == CommitGate ==> key == Char('Y') && old(phase) == DryRunUnsupported && gateSkippedDryRun && gate.keys == []
      ensures accepted == old(accepted) || (AcceptsDiff(key, old(phase)) && accepted == old(ShownEdit()))
      ensures agreed == old(agreed) || (AcceptsDiff(key, old(phase)) && agreed == old(agreed) + [old(ShownEdit())])
      ensures phase == Saving ==> old(phase) == Saving
      ensures forall word :: KeyLed(key, old(phase), word, cmd)
    {
      hide Valid, ChecksNow, ShownEdit, ConfirmLed, ReEdited, Resource.View;
      cmd := NoCommand;
      if key == Char('Y') {
        cmd := Accept();
      } else if key == Char('e') {
        if phase == Conflict {
          cmd := EditAfterConflict();
        } else {
          cmd := ReEdit();
        }
      } else if key == Esc {
        cmd := Abort();
      }
    }

    method Accept() returns (cmd: Command)
      requires Valid() && !done && !saved && Asks(phase)
      modifies this`phase, this`applied, this`touched, this`accepted, this`agreed, this`dryRuns
      modifies this`checked, this`gateSkippedDryRun, res, loader, loader.ids, gate
      ensures Valid() && cmd != Pop && !cmd.SubmitSave? && (cmd.SubmitDryRun? ==> ChecksNow(cmd))
      ensures KeepsRuns(old(dryRuns), dryRuns)
      ensures phase == CommitGate ==> old(phase) == DryRunUnsupported && gateSkippedDryRun && gate.keys == []
      ensures accepted == old(accepted) || (AcceptsDiff(Char('Y'), old(phase)) && accepted == old(ShownEdit()))
      ensures agreed == old(agreed) || (AcceptsDiff(Char('Y'), old(phase)) && agreed == old(agreed) + [old(ShownEdit())])
      ensures phase != Saving
      ensures old(phase) == Diff || old(phase) == Conflict ==> ConfirmLed(old(phase), cmd)
      ensures old(phase) == DryRunUnsupported ==> phase == CommitGate && cmd == NoCommand
      ensures old(phase) == ValidateWarn ==> phase == DryRun && cmd.SubmitDryRun?
      ensures phase != old(phase) ==> Onward(old(phase), phase)
      ensures !Goes(old(phase)) ==> phase == old(phase) && cmd == NoCommand
    {
      hide Valid, ChecksNow, NamesBinary, ShownEdit, Document, ConfirmLed;
      if phase == Diff || phase == Conflict {
        cmd := Confirm();
      } else {
        cmd := AcceptAgain();
      }
    }

    /** Y on a warning, or past a dry run the server does not support. */
    method AcceptAgain() returns (cmd: Command)
      requires Valid() && !done && !saved && Asks(phase) && phase != Diff && phase != Conflict
      modifies this`phase, this`dryRuns, this`checked, this`gateSkippedDryRun, loader, loader.ids, gate
      ensures Valid() && (cmd == NoCommand || (cmd.SubmitDryRun? && ChecksNow(cmd))) && KeepsRuns(old(dryRuns), dryRuns)
      ensures old(phase) == DryRunUnsupported ==> phase == CommitGate && gateSkippedDryRun && gate.keys == [] && cmd == NoCommand
      ensures old(phase) == ValidateWarn ==> phase == DryRun && cmd.SubmitDryRun?
      ensures old(phase) != DryRunUnsupported && old(phase) != ValidateWarn ==> phase == old(phase) && cmd == NoCommand
    {
      hide Valid, ChecksNow;
      AppliedHere();
      cmd := NoCommand;
      match phase {
        case ValidateWarn => cmd := StartDryRun();
        case DryRunUnsupported => OpenGate(true);
        case _ =>
      }
    }

    lemma AppliedHere()
      requires Valid() && !done && !saved
      ensures NeedsApplied(phase) ==> ShownApplied()
    {
    }

    method EditAfterConflict() returns (cmd: Command)
      requires Valid() && !done && !saved && phase == Conflict
      modifies this`phase, this`editorSeededOriginal, this`editorReturnPhase
      ensures Valid() && (phase == Editing || phase == EditorFailed || phase == Diff) && (cmd == OpenEditor || cmd == NoCommand)
      ensures (cmd == OpenEditor <==> phase == Editing) && ReEdited(old(phase), cmd)
    {
      hide Valid;
      if proposedMode {
        GoTo(Diff);
        return NoCommand;
      }
      cmd := OpenTheEditor();
    }

    /** Keys after the save: the offered restart, and leaving. */
    method SavedKey(key: KeyPress) returns (cmd: Command)
      requires Valid() && !done && (phase == Saved || phase == RolloutDone || phase == RollingOut)
      modifies this`phase, this`done, gate
      ensures Valid() && (cmd == Pop <==> done) && (cmd == Pop || cmd == NoCommand) && phase != CommitGate
      ensures forall word :: KeyLed(key, old(phase), word, cmd)
    {
      cmd := NoCommand;
      if phase == Saved && key == Char('R') {
        if * {  // a restart is offered
          if * {  // something is selected
            phase := RolloutGate;
            gate.Arm();
          } else {
            cmd, done := Pop, true;
          }
        }
      } else if (phase == Saved || phase == RolloutDone) && key == Esc {
        cmd, done := Pop, true;
      } else if phase == RolloutDone && key == Enter {
        cmd, done := Pop, true;
      } else if phase == Saved && key == Enter {
        if * { cmd, done := Pop, true; }  // there is nothing to restart, or no telling
      }
    }

    method TakeRestart(reqID: nat)
      requires Valid() && !done
      modifies this`phase, loader
      ensures Valid()
      ensures if old(phase) == RollingOut && old(loader.pending) && reqID == old(loader.reqID) then phase == RolloutDone
              else phase == old(phase) && loader.pending == old(loader.pending)
      ensures loader.reqID == old(loader.reqID)
    {
      if phase != RollingOut { return; }
      var ok := loader.Finish(reqID);
      if ok { phase := RolloutDone; }
    }

    // -------------------------------------------------------------- starting

    method Init() returns (cmd: Command)
      requires Valid() && !saved && !done && (phase == Editing || phase == Diff || phase == EditorFailed) && !applied
      modifies this`phase, this`editorSeededOriginal, this`editorReturnPhase, this`done, loader
      ensures Valid() && (cmd == Pop <==> done)
      ensures done <==> old(phase) != EditorFailed && proposedMode && Unchanging()
      ensures old(phase) == EditorFailed || proposedMode ==> phase == old(phase) && cmd != OpenEditor
      ensures old(phase) != EditorFailed && !proposedMode ==> phase == if cmd == OpenEditor then Editing else EditorFailed
    {
      hide Valid;
      cmd := NoCommand;
      if phase == EditorFailed { return; }
      if proposedMode {
        if Unchanging() {
          StopLoad();
          Leave();
          cmd := Pop;
        }
        return;
      }
      cmd := OpenTheEditor();
    }

    /** The proposed value is the one that is there. */
    predicate Unchanging()
      reads this`original, this`edited, this`originalMap, this`editedMap
    {
      || (target == WholeResource && originalMap == Document())
      || (target == ExistingKey && Bytes(original) == Bytes(edited))
    }

    lemma UnsavedAtGate()
      requires Valid() && !done
      ensures phase == CommitGate || !AfterSave(phase) ==> !saved
    {
    }

    /** Each save went out under an id of its own. */
    lemma SavesHaveOwnIds()
      requires Valid()
      ensures forall i, j | 0 <= i < j < |saves| :: saves[i].reqID != saves[j].reqID
    {
    }

    /** While the gate is open what it will dispatch is a diff the user agreed to, and it was
        just checked unless the user went past the missing check. */
    lemma GateStands()
      requires Valid() && !done && phase == CommitGate
      ensures !saved && accepted == ShownEdit() && accepted in agreed
      ensures gateSkippedDryRun || checked == Some(Now())
    {
    }

    lemma SavesAreGuarded()
      requires Valid()
      ensures forall d | d in saves :: Guarded(d) && d.edit in agreed
    {
    }

    /** A flow that ends without a save leaves the parent's resource as it found it. */
    lemma LeavesAsOpened()
      requires Valid() && done && !saved && Reversible(target, key, sharedView)
      ensures shared.View() == sharedView
    {
    }

    /** A flow that has read what it edits, and done nothing yet. */
    lemma StartsValid()
      requires Objects() && Picture() && res == shared && base == sharedView == res.View()
      requires !applied && !saved && !done && saves == [] && dryRuns == map[]
      requires (phase == Editing || phase == EditorFailed) && editorReturnPhase == Editing
      ensures Valid()
    {
      hide Objects, Picture, Knows, Resource.View;
    }

    method Propose(edited: View)
      requires Valid() && !saved && !done && phase == Editing
      modifies this`proposedMode, this`editedMap, this`phase
      ensures Valid() && proposedMode && editedMap == Some(edited) && phase == Diff
    {
      hide Objects, Recorded, Agreed, Picture, Holding, KeepsShared, ShownApplied;
      proposedMode, editedMap, phase := true, Some(edited), Diff;
    }

    method ProposeValue(value: Option<bytes>)
      requires Valid() && !saved && !done && phase == Editing
      modifies this`proposedMode, this`edited, this`phase
      ensures Valid() && proposedMode && edited == value && phase == Diff
    {
      hide Objects, Recorded, Agreed, Picture, Holding, KeepsShared, ShownApplied;
      proposedMode, edited, phase := true, value, Diff;
    }

    method Leave()
      requires Valid() && !saved && !applied
      modifies this`done
      ensures Valid() && done
    {
      hide Objects, Recorded, Agreed, Picture, Holding, KeepsShared, ShownApplied;
      done := true;
    }

    // -------------------------------------------------------------- one message

    /** The runtime delivers the editor's result only while an editor is open, and a cluster
        object only once. */
    ghost predicate Deliverable(msg: Message)
      reads this, if ClusterIn(msg).Some? then {ClusterIn(msg).value} else {}
    {
      (msg.EditorFinished? ==> phase == Editing) && Foreign(ClusterIn(msg))
    }

    /** The dry run this message answers accepted what is checked. */
    ghost predicate CheckedBy(msg: Message)
      reads this`dryRuns, this`checked
    {
      msg.DryRunDone? && msg.dryRun == DryRunOK && msg.reqID in dryRuns && checked == Some(dryRuns[msg.reqID])
    }

    /** The flow moves to another resource only with the object a reply brings. */
    ghost predicate Moved(was: Resource, base0: View, cluster: Option<Resource>)
      reads this`res, this`base, res
    {
      (res == was && base == base0) || (cluster == Some(res) && base == res.View())
    }

    /** A save leaves the flow only by enter in the commit gate, and the gate opens only on
        the dry run's answer or by Y past an unsupported one. */
    method Update(msg: Message) returns (cmd: Command)
      requires Valid() && !done && Deliverable(msg)
      modifies this, res, loader, loader.ids, gate, ring
      ensures Valid() && (cmd == Pop <==> done) && (old(saved) ==> saved)
      ensures (cmd.SubmitDryRun? ==> ChecksNow(cmd)) && KeepsRuns(old(dryRuns), dryRuns)
      ensures cmd.SubmitDryRun? || cmd.SubmitSave? ==> !saved
      ensures saved && !old(saved) ==> msg.SaveDone? && msg.save == SaveSucceeded && LastSaveIs(msg.reqID)
      ensures Moved(old(res), old(base), ClusterIn(msg))
      ensures accepted == old(accepted) || (msg.Pressed? && AcceptsDiff(msg.key, old(phase)) && accepted == old(ShownEdit()))
      ensures agreed == old(agreed) ||
                (msg.Pressed? && AcceptsDiff(msg.key, old(phase)) && agreed == old(agreed) + [old(ShownEdit())])
      ensures saves == old(saves) || Dispatched(old(saves), old(gate.keys), cmd)
      ensures cmd.SubmitSave? ==> accepted == old(ShownEdit())
      ensures cmd.SubmitSave? ==> msg == Pressed(Enter) && old(phase) == CommitGate && Dispatched(old(saves), old(gate.keys), cmd)
      ensures msg.Pressed? ==> ShownEdit() == old(ShownEdit())
      ensures old(phase) == CommitGate && (phase == CommitGate || cmd.SubmitSave?) ==>
                gateSkippedDryRun == old(gateSkippedDryRun) && checked == old(checked)
      ensures phase == CommitGate && old(phase) == CommitGate ==>
                gate.keys == if msg.Pressed? then old(gate.keys) + [msg.key] else old(gate.keys)
      ensures phase == CommitGate && old(phase) != CommitGate ==>
        && gate.keys == []
        && if gateSkippedDryRun then msg == Pressed(Char('Y')) && old(phase) == DryRunUnsupported else CheckedBy(msg)
      ensures msg.Pressed? ==> KeyLed(msg.key, old(phase), WordTyped(old(gate.keys)), cmd)
      ensures msg.EditorFinished? ==> EditorLed(msg.outcome, old(editorSeededOriginal), old(editorReturnPhase))
      ensures ReplyLed(msg, old(Awaits(msg)), old(res))
      ensures !(msg.EditorFinished? && msg.outcome.Wrote?) && saved == old(saved) ==> edited == old(edited) && editedMap == old(editedMap)
      ensures !msg.Pressed? && !msg.EditorFinished? && !old(Awaits(msg)) ==>
                unchanged(this, res, gate) && loader.reqID == old(loader.reqID) && loader.pending == old(loader.pending)
      ensures if saved && !old(saved) && target != NewResource
              then LastRemembers(old(ring.entries), ring.entries, id, target, key, old(base), accepted)
              else ring.entries == old(ring.entries)
    {
      hide Valid, LastRemembers, KeyLed, EditorLed, DryRunLed, SaveLed, LastSaveIs, Guarded, Resource.View, SaveOf, ChecksNow,
        KeepsRuns, ShownEdit, AcceptsDiff, Dispatched, CheckedBy, WordTyped;
      NothingForgotten(dryRuns);
      cmd := NoCommand;
      match msg {
        case EditorFinished(outcome) =>
          SavedPhases();
          cmd := FinishEditor(outcome);
        case Pressed(key) => cmd := Press(key);
        case _ => cmd := Receive(msg);
      }
    }

    method Press(key: KeyPress) returns (cmd: Command)
      requires Valid() && !done
      modifies this`phase, this`applied, this`touched, this`accepted, this`agreed, this`dryRuns, this`done, this`saves
      modifies this`checked, this`gateSkippedDryRun, this`editorSeededOriginal, this`editorReturnPhase
      modifies res, loader, loader.ids, gate
      ensures Valid() && (cmd == Pop <==> done) && (cmd.SubmitDryRun? ==> ChecksNow(cmd)) && KeepsRuns(old(dryRuns), dryRuns)
      ensures cmd.SubmitDryRun? || cmd.SubmitSave? ==> !saved
      ensures accepted == old(accepted) || (AcceptsDiff(key, old(phase)) && accepted == old(ShownEdit()))
      ensures agreed == old(agreed) || (AcceptsDiff(key, old(phase)) && agreed == old(agreed) + [old(ShownEdit())])
      ensures saves == old(saves) || Dispatched(old(saves), old(gate.keys), cmd)
      ensures cmd.SubmitSave? ==> accepted == old(ShownEdit())
      ensures cmd.SubmitSave? ==> key == Enter && old(phase) == CommitGate && Dispatched(old(saves), old(gate.keys), cmd)
      ensures old(phase) == CommitGate && (phase == CommitGate || cmd.SubmitSave?) ==>
                gateSkippedDryRun == old(gateSkippedDryRun) && checked == old(checked)
      ensures phase == CommitGate && old(phase) == CommitGate ==> gate.keys == old(gate.keys) + [key]
      ensures phase == CommitGate && old(phase) != CommitGate ==>
                gate.keys == [] && key == Char('Y') && old(phase) == DryRunUnsupported && gateSkippedDryRun
      ensures KeyLed(key, old(phase), WordTyped(old(gate.keys)), cmd)
    {
      hide Valid, KeyLed, WordTyped, Resource.View, SaveOf, ChecksNow, KeepsRuns, Dispatched, ShownEdit, AcceptsDiff;
      NothingForgotten(dryRuns);
      SavedPhases();
      if !saved { AppliedHere(); }
      if phase == CommitGate || phase == RolloutGate {
        cmd := GateKey(key);
      } else if AfterSave(phase) {
        cmd := SavedKey(key);
      } else {
        cmd := EditKey(key);
      }
    }

    method Receive(msg: Message) returns (cmd: Command)
      requires Valid() && !done && Foreign(ClusterIn(msg)) && !msg.Pressed? && !msg.EditorFinished?
      modifies this`res, this`original, this`originalMap, this`binaryKeys, this`rawDoc, this`applied, this`phase, this`base
      modifies this`edited, this`editedMap, this`saved, this`done, this`checked, this`gateSkippedDryRun, res, loader, ring, gate
      ensures Valid() && (cmd == Pop <==> done) && (cmd == Pop || cmd == NoCommand) && (old(saved) ==> saved)
      ensures saved && !old(saved) ==> msg.SaveDone? && msg.save == SaveSucceeded && LastSaveIs(msg.reqID)
      ensures Moved(old(res), old(base), ClusterIn(msg))
      ensures phase == CommitGate && old(phase) == CommitGate ==>
                gate.keys == old(gate.keys) && gateSkippedDryRun == old(gateSkippedDryRun) && checked == old(checked)
      ensures phase == CommitGate && old(phase) != CommitGate ==> gate.keys == [] && !gateSkippedDryRun && CheckedBy(msg)
      ensures ReplyLed(msg, old(Awaits(msg)), old(res))
      ensures saved == old(saved) ==> edited == old(edited) && editedMap == old(editedMap)
      ensures !old(Awaits(msg)) ==>
                unchanged(this, res, gate) && loader.reqID == old(loader.reqID) && loader.pending == old(loader.pending)
      ensures if saved && !old(saved) && target != NewResource
              then LastRemembers(old(ring.entries), ring.entries, id, target, key, old(base), accepted)
              else ring.entries == old(ring.entries)
    {
      hide Valid, LastRemembers, DryRunLed, SaveLed, Resource.View, Foreign;
      cmd := NoCommand;
      SavedPhases();
      match msg {
        case DryRunDone(reqID, reply) => if phase == DryRun { TakeDryRun(reqID, reply); }
        case SaveDone(reqID, reply) => if phase == Saving { cmd := TakeSave(reqID, reply); }
        case RestartDone(reqID) => TakeRestart(reqID);
        case _ =>
      }
    }

    /** The last save dispatched is the one the command submits: what the flow holds, after
        the keys typed into its gate. */
    ghost predicate Dispatched(before: seq<Dispatch>, typed: seq<KeyPress>, cmd: Command)
      reads this`saves, this`res, this`base, this`accepted, this`gateSkippedDryRun, this`checked, res, loader
      reads if cmd.SubmitSave? then {cmd.snapshot} else {}
    {
      SaveOf(cmd) && saves == before + [Dispatch(loader.reqID, Now(), base, accepted, typed, gateSkippedDryRun, checked)]
    }

    ghost predicate Foreign(cluster: Option<Resource>)
      reads this, if cluster.Some? then {cluster.value} else {}
    {
      cluster.Some? ==> cluster.value.Valid() && cluster.value != res && cluster.value != shared
    }
  }

  // ---------------------------------------------------------------- opening a flow

  /** A flow that has just been opened on `res`. */
  ghost predicate Opened(flow: Flow, ids: RequestIds, ring: Ring, readOnly: bool, res: Resource, target: Target)
    reads flow, flow.loader
  {
    && flow.readOnly == readOnly && !flow.rawDoc && !flow.gateSkippedDryRun
    && (flow.phase == Editing ==> flow.edited.None? && flow.editedMap.None? && !flow.proposedMode)
    && flow.res == res == flow.shared && flow.base == flow.sharedView && flow.loader.ids == ids && flow.ring == ring
    && flow.target == target && !flow.applied && !flow.saved && !flow.done && flow.saves == [] && flow.agreed == []
    && (flow.phase == Editing || flow.phase == Diff || flow.phase == EditorFailed)
  }

  /** Reads the value a single-key flow starts from. */
  method OpenKey(ids: RequestIds, ring: Ring, id: Identity, readOnly: bool, res: Resource, target: Target, key: string)
    returns (flow: Flow)
    requires res.Valid() && ring.Valid() && (target == ExistingKey || target == DeleteKey)
    ensures fresh(flow) && fresh(flow.loader) && fresh(flow.gate) && flow.Valid() && Opened(flow, ids, ring, readOnly, res, target)
    ensures flow.key == key && flow.id == id && flow.sharedView == res.View() && flow.original == Lookup(res.View(), key)
    ensures flow.phase == if key in res.View() then Editing else EditorFailed
  {
    hide Flow.Valid, Flow.Objects, Knows, Resource.View;
    flow := new Flow.Base(ids, ring, id, readOnly, res, target, key);
    flow.original := res.Get(key);
    if flow.original.None? { flow.phase := EditorFailed; }
    KnowsKey(target, key, res.View(), flow.original, flow.originalMap, flow.binaryKeys);
    flow.StartsValid();
  }

  /** Edits one key, in the editor or to a proposed value. */
  method NewEditFlow(ids: RequestIds, ring: Ring, id: Identity, readOnly: bool, res: Resource, key: string, proposed: Option<bytes>)
    returns (flow: Flow)
    requires res.Valid() && ring.Valid()
    ensures fresh(flow) && fresh(flow.loader) && fresh(flow.gate) && flow.Valid() && Opened(flow, ids, ring, readOnly, res, ExistingKey)
    ensures flow.key == key && flow.id == id && flow.sharedView == res.View()
    ensures flow.phase == if key !in res.View() then EditorFailed else if proposed.Some? then Diff else Editing
    ensures flow.phase == Diff ==> flow.proposedMode && flow.ShownEdit() == SetKey(key, res.View()[key], proposed.value)
  {
    hide Flow.Valid, Resource.View;
    flow := OpenKey(ids, ring, id, readOnly, res, ExistingKey, key);
    if flow.original.Some? && proposed.Some? {
      flow.ProposeValue(proposed);
    }
  }

  /** Adds a key whose value is written in the editor. The caller has checked its name. */
  method NewKeyAddFlow(ids: RequestIds, ring: Ring, id: Identity, readOnly: bool, res: Resource, key: string) returns (flow: Flow)
    requires res.Valid() && ring.Valid() && key !in res.View()
    ensures fresh(flow) && fresh(flow.loader) && fresh(flow.gate) && flow.Valid() && Opened(flow, ids, ring, readOnly, res, NewKey)
    ensures flow.key == key && flow.id == id && flow.sharedView == res.View() && flow.original.None? && flow.phase == Editing
  {
    flow := new Flow.Base(ids, ring, id, readOnly, res, NewKey, key);
  }

  /** Adds a key with a known value. */
  method NewKeyRestoreFlow(ids: RequestIds, ring: Ring, id: Identity, readOnly: bool, res: Resource, key: string, value: Option<bytes>)
    returns (flow: Flow)
    requires res.Valid() && ring.Valid() && key !in res.View()
    ensures fresh(flow) && fresh(flow.loader) && fresh(flow.gate) && flow.Valid() && Opened(flow, ids, ring, readOnly, res, NewKey)
    ensures flow.key == key && flow.id == id && flow.sharedView == res.View()
    ensures flow.phase == Diff && flow.proposedMode && flow.ShownEdit() == SetKey(key, [], Bytes(value))
  {
    hide Flow.Valid, Resource.View;
    flow := NewKeyAddFlow(ids, ring, id, readOnly, res, key);
    flow.ProposeValue(value);
  }

  method NewKeyDeleteFlow(ids: RequestIds, ring: Ring, id: Identity, readOnly: bool, res: Resource, key: string) returns (flow: Flow)
    requires res.Valid() && ring.Valid()
    ensures fresh(flow) && fresh(flow.loader) && fresh(flow.gate) && flow.Valid() && Opened(flow, ids, ring, readOnly, res, DeleteKey)
    ensures flow.key == key && flow.id == id && flow.sharedView == res.View()
    ensures flow.phase == if key in res.View() then Diff else EditorFailed
    ensures flow.phase == Diff ==> flow.proposedMode && flow.ShownEdit() == RemoveKey(key, res.View()[key])
  {
    hide Flow.Valid, Resource.View;
    flow := OpenKey(ids, ring, id, readOnly, res, DeleteKey, key);
    flow.proposedMode := true;
    if flow.original.Some? { flow.GoTo(Diff); }
  }

  method NewResourceEditFlow(ids: RequestIds, ring: Ring, id: Identity, readOnly: bool, res: Resource) returns (flow: Flow)
    requires res.Valid() && ring.Valid()
    ensures fresh(flow) && fresh(flow.loader) && fresh(flow.gate) && flow.Valid() && Opened(flow, ids, ring, readOnly, res, WholeResource)
    ensures flow.id == id && flow.sharedView == res.View() && flow.phase == Editing && flow.originalMap == TextOf(res.View())
  {
    flow := new Flow.Base(ids, ring, id, readOnly, res, WholeResource, "");
    var values, binary := ReadDocument(res, WholeResource, "", None);
    flow.originalMap, flow.binaryKeys := values, binary;
  }

  method NewResourceCreateFlow(ids: RequestIds, ring: Ring, id: Identity, readOnly: bool, res: Resource) returns (flow: Flow)
    requires res.Valid() && ring.Valid() && res.View() == map[]
    ensures fresh(flow) && fresh(flow.loader) && fresh(flow.gate) && flow.Valid() && Opened(flow, ids, ring, readOnly, res, NewResource)
    ensures flow.id == id && flow.sharedView == map[] && flow.phase == Editing
  {
    flow := new Flow.Base(ids, ring, id, readOnly, res, NewResource, "");
  }

  /** Edits the whole resource to what it was, as far as the history says. */
  method NewResourceRevertFlow(ids: RequestIds, ring: Ring, id: Identity, readOnly: bool, res: Resource,
                               newValues: View, remove: seq<string>)
    returns (flow: Flow)
    requires res.Valid() && ring.Valid()
    ensures fresh(flow) && fresh(flow.loader) && fresh(flow.gate) && flow.Valid() && Opened(flow, ids, ring, readOnly, res, WholeResource)
    ensures flow.id == id && flow.sharedView == res.View() && flow.phase == Diff && flow.proposedMode
    ensures flow.ShownEdit() == Replace(TextOf(res.View()), (TextOf(res.View()) + newValues) - (set k | k in remove))
  {
    hide Flow.Objects, Flow.Recorded, Flow.Picture, Flow.Holding, Flow.KeepsShared, Flow.Valid;
    flow := NewResourceEditFlow(ids, ring, id, readOnly, res);
    var edited := Revert(flow.originalMap, newValues, remove);
    flow.Propose(edited);
  }

  method Revert(originalMap: View, newValues: View, remove: seq<string>) returns (edited: View)
    ensures edited == (originalMap + newValues) - (set k | k in remove)
  {
    edited := originalMap + newValues;
    for i := 0 to |remove|
      invariant edited == (originalMap + newValues) - (set k | k in remove[..i])
    {
      assert remove[..i + 1] == remove[..i] + [remove[i]];
      edited := edited - {remove[i]};
    }
    assert remove[..|remove|] == remove;
  }

  lemma UntouchedHolds(target: Target, key: string, view: View, accepted: Edit, touched: seq<string>)
    ensures Holds(target, key, view, view, false, accepted, touched)
  {
  }

  lemma UntakenHolds(target: Target, key: string, base: View, view: View, accepted: Edit, touched: seq<string>, e: Edit)
    requires Holds(target, key, base, view, false, accepted, touched)
    ensures Holds(target, key, base, view, false, e, [])
  {
  }

  lemma AppliedHolds(target: Target, key: string, base: View, e: Edit, touched: seq<string>)
    requires !MapTarget(target) && Fits(target, key, e) && Describes(e, base)
    ensures Holds(target, key, base, After(base, e), true, e, touched)
  {
  }

  lemma TouchedOnlyWhenApplied(target: Target, key: string, base: View, view: View, accepted: Edit, touched: seq<string>)
    ensures forall before :: Holds(target, key, base, view, false, accepted, before) ==>
              Holds(target, key, base, view, false, accepted, touched) && (MapTarget(target) ==> view == base)
  {
  }

  method DocumentEntry(originalMap: View, touched: seq<string>) returns (previous: map<string, Option<bytes>>, added: seq<string>)
    ensures previous == map k | k in originalMap && k in touched :: Some(originalMap[k])
    ensures forall k :: k in added <==> k in touched && k !in originalMap
  {
    previous, added := map[], [];
    for i := 0 to |touched|
      invariant previous == map k | k in originalMap && k in touched[..i] :: Some(originalMap[k])
      invariant forall k :: k in added <==> k in touched[..i] && k !in originalMap
    {
      var key := touched[i];
      assert touched[..i + 1] == touched[..i] + [key];
      if key in originalMap {
        previous := previous[key := Some(originalMap[key])];
      } else {
        added := added + [key];
      }
    }
    assert touched[..|touched|] == touched;
  }

  lemma DocumentRemembered(previous: map<string, Option<bytes>>, added: seq<string>, shown: View, wanted: View, touched: seq<string>)
    requires previous == map k | k in shown && k in touched :: Some(shown[k])
    requires forall k :: k in added <==> k in touched && k !in shown
    requires forall k :: k in touched <==> Lists(Replace(shown, wanted), k)
    ensures forall id, key, base ::
      Remembers(Entry(id, previous, added), WholeResource, key, base, Replace(shown, wanted))
  {
    assert previous == map k | k in shown && Lists(Replace(shown, wanted), k) :: Some(shown[k]);
  }

  /** Removes one trailing newline the editor added when the original had none. */
  function NormalizeEdited(original: bytes, content: bytes): bytes {
    if content == [] || EndsInNewline(original) || !EndsInNewline(content) then content
    else content[..|content| - 1]
  }

  predicate EndsInNewline(value: bytes) { value != [] && value[|value| - 1] == 0x0A }

  /** One newline goes from the end exactly when the content ends in one and the original does
      not; so a value that was not edited comes back as it was, with or without a newline the
      editor put after it. */
  lemma NormalizedIff(original: bytes, content: bytes)
    ensures var n := NormalizeEdited(original, content);
      if content != [] && content[|content| - 1] == 0x0A && (original != [] ==> original[|original| - 1] != 0x0A)
      then content == n + [0x0A] else n == content
    ensures NormalizeEdited(original, original) == original
    ensures original == [] || original[|original| - 1] != 0x0A ==> NormalizeEdited(original, original + [0x0A]) == original
  {
    assert content != [] ==> content == content[..|content| - 1] + [content[|content| - 1]];
    assert (original + [0x0A])[..|original|] == original;
  }

  /** The document names a key whose value is binary. */
  predicate NamesBinary(values: View, binaryKeys: seq<BinaryKey>) {
    exists i | 0 <= i < |binaryKeys| :: binaryKeys[i].name in values
  }

  /** The first binary key that `values` names. */
  method FirstBinary(values: View, binaryKeys: seq<BinaryKey>) returns (name: Option<string>)
    ensures name.Some? <==> NamesBinary(values, binaryKeys)
    ensures name.None? ==> forall k | k in Names(binaryKeys) :: k !in values
    ensures name.Some? ==> name.value in values && exists b :: b in binaryKeys && b.name == name.value
  {
    for i := 0 to |binaryKeys|
      invariant forall j | 0 <= j < i :: binaryKeys[j].name !in values
    {
      if binaryKeys[i].name in values {
        return Some(binaryKeys[i].name);
      }
    }
    name := None;
  }

  method ReadDocument(res: Resource, target: Target, key: string, original: Option<bytes>)
    returns (values: View, binary: seq<BinaryKey>)
    requires res.Valid() && MapTarget(target)
    ensures Knows(target, key, res.View(), original, values, binary)
  {
    values, binary := FromResource(res);
    KnowsDocument(target, key, res.View(), original, values, binary);
  }

  lemma KnowsDocument(target: Target, key: string, view: View, original: Option<bytes>, values: View, binary: seq<BinaryKey>)
    requires MapTarget(target) && values == TextOf(view) && IsListing(Names(binary), BinaryKeysOf(view))
    ensures Knows(target, key, view, original, values, binary)
  {
    forall b | b in binary ensures b.name in BinaryKeysOf(view) {
      var i :| 0 <= i < |binary| && binary[i] == b;
      assert Names(binary)[i] == b.name;
    }
  }

  lemma KnowsKey(target: Target, key: string, view: View, original: Option<bytes>, values: View, binary: seq<BinaryKey>)
    requires !MapTarget(target) && original == Lookup(view, key)
    ensures Knows(target, key, view, original, values, binary)
  {
  }
}
