/** Undo: a remembered save turned back into an edit of the resource as it is now. */
module KeyView {
  import opened Values
  import opened Resources
  import opened Edits
  import opened Undo
  import opened Loader
  import opened EditFlow

  /** The edit an undo proposes, and the kind of flow that carries it. */
  datatype Step = Step(target: Target, key: string, edit: Edit)

  predicate Single(entry: Entry) {
    (entry.added == [] && |entry.previous| == 1) || (entry.previous == map[] && |entry.added| == 1)
  }

  function PreviousValues(previous: map<string, Option<bytes>>): View {
    map k | k in previous :: Bytes(previous[k])
  }

  ghost function SetOf(s: seq<string>): set<string> { set k | k in s }

  /** What undo proposes for a resource that now holds `view`. Nothing is proposed for a value
      that was not there, and for an added key that is gone already. */
  ghost function UndoOf(entry: Entry, view: View): Option<Step> {
    if entry.added == [] && |entry.previous| == 1 then
      var k :| k in entry.previous;
      if k !in view then Some(Step(NewKey, k, SetKey(k, [], Bytes(entry.previous[k]))))
      else if entry.previous[k].Some? then Some(Step(ExistingKey, k, SetKey(k, view[k], entry.previous[k].value)))
      else None
    else if entry.previous == map[] && |entry.added| == 1 then
      var k := entry.added[0];
      if k in view then Some(Step(DeleteKey, k, RemoveKey(k, view[k]))) else None
    else
      var text := TextOf(view);
      Some(Step(WholeResource, "", Replace(text, (text + PreviousValues(entry.previous)) - (SetOf(entry.added) * view.Keys))))
  }

  /** The proposed edit can be applied and gives back `base`. */
  ghost predicate Undoes(entry: Entry, view: View, base: View) {
    var step := UndoOf(entry, view);
    step.Some? && Describes(step.value.edit, view) && After(view, step.value.edit) == base
  }

  /** Every key the save changed holds text now, or is gone. */
  ghost predicate ChangedToText(e: Edit, view: View) {
    forall k | Lists(e, k) && k in view :: !IsBinaryValue(view[k])
  }

  lemma OnlyKey<V>(m: map<string, V>, j: string, k: string)
    requires |m| == 1 && j in m && k in m
    ensures j == k
  {
    assert |m.Keys - {j}| == |m.Keys| - 1 == 0;
    assert k !in m.Keys - {j};
  }

  lemma SingletonMap<V>(k: string, v: V)
    ensures |map[k := v]| == 1
  {
    assert map[k := v].Keys == {k};
  }

  /** Undo inverts a save exactly when the edited key was where its kind of edit expects it
      and, for a save of several keys, when the changed values are text. Nobody else has
      written in between: the resource holds what the save made of `base`. */
  lemma UndoInvertsSave(entry: Entry, target: Target, key: string, base: View, e: Edit)
    requires target != NewResource && Fits(target, key, e) && Describes(e, base)
    requires Remembers(entry, target, key, base, e)
    ensures Undoes(entry, After(base, e), base) <==>
            Reversible(target, key, base) && (Single(entry) || ChangedToText(e, After(base, e)))
  {
    match target {
      case ExistingKey => UndoSet(entry, key, base, e);
      case DeleteKey => UndoSet(entry, key, base, e);
      case NewKey => UndoAdd(entry, key, base, e);
      case WholeResource =>
        if entry.added == [] && |entry.previous| == 1 {
          UndoOneChanged(entry, base, e);
        } else if entry.previous == map[] && |entry.added| == 1 {
          UndoOneAdded(entry, base, e);
        } else if ChangedToText(e, After(base, e)) {
          UndoDocument(entry, base, e);
        } else {
          UndoDocumentFails(entry, base, e);
        }
    }
  }

  lemma UndoSet(entry: Entry, key: string, base: View, e: Edit)
    requires (e.SetKey? || e.RemoveKey?) && e.key == key && Describes(e, base)
    requires entry.previous == map[key := Lookup(base, key)] && entry.added == []
    ensures Undoes(entry, After(base, e), base) <==> key in base
    ensures Single(entry)
  {
    SingletonMap(key, Lookup(base, key));
    var step := UndoOf(entry, After(base, e));
    if key in base {
      assert step.value.key == key;
      assert After(After(base, e), step.value.edit) == base;
    }
  }

  lemma UndoAdd(entry: Entry, key: string, base: View, e: Edit)
    requires e.SetKey? && e.key == key && Describes(e, base)
    requires entry.previous == map[] && entry.added == [key]
    ensures Undoes(entry, After(base, e), base) <==> key !in base
    ensures Single(entry)
  {
    if key !in base { assert base[key := e.after] - {key} == base; }
    assert |entry.previous| == 0;
  }

  lemma ListedIsRemembered(entry: Entry, base: View, e: Edit, k: string)
    requires e.Replace? && Remembers(entry, WholeResource, "", base, e)
    ensures Lists(e, k) <==> k in entry.added || k in entry.previous
    ensures k in entry.previous ==> entry.previous[k] == Lookup(e.shown, k)
  {
  }

  lemma UndoOneChanged(entry: Entry, base: View, e: Edit)
    requires e.Replace? && Describes(e, base) && Remembers(entry, WholeResource, "", base, e)
    requires entry.added == [] && |entry.previous| == 1
    ensures Undoes(entry, After(base, e), base)
  {
    var view := After(base, e);
    var step := UndoOf(entry, view);
    var k := step.value.key;
    ChangesWhatIsListed(base, e);
    ListedIsRemembered(entry, base, e, k);
    hide Remembers;
    forall j ensures Lookup(After(view, step.value.edit), j) == Lookup(base, j) {
      ListedIsRemembered(entry, base, e, j);
      if j in entry.previous { OnlyKey(entry.previous, j, k); }
    }
    SameLookupSameView(After(view, step.value.edit), base);
  }

  lemma UndoOneAdded(entry: Entry, base: View, e: Edit)
    requires e.Replace? && Describes(e, base) && Remembers(entry, WholeResource, "", base, e)
    requires entry.previous == map[] && |entry.added| == 1
    ensures Undoes(entry, After(base, e), base)
  {
    var view := After(base, e);
    var k := entry.added[0];
    assert k in entry.added;
    ChangesWhatIsListed(base, e);
    assert k in view && k !in base;
    hide Remembers, TextOf, Describes;
    forall j ensures Lookup(view - {k}, j) == Lookup(base, j) {
      ListedIsRemembered(entry, base, e, j);
    }
    SameLookupSameView(view - {k}, base);
    assert |entry.previous| == 0;
  }

  /** The lookups of the document an undo of several keys proposes. */
  lemma ProposedLookup(entry: Entry, base: View, e: Edit, k: string)
    requires e.Replace? && Describes(e, base) && Remembers(entry, WholeResource, "", base, e)
    ensures var view := After(base, e);
      var text := TextOf(view);
      var proposed := (text + PreviousValues(entry.previous)) - (SetOf(entry.added) * view.Keys);
      Lookup(proposed, k) ==
        if Lists(e, k) then Lookup(e.shown, k) else Lookup(text, k)
  {
    ChangesWhatIsListed(base, e);
    if Lists(e, k) && k !in e.shown {
      assert k in entry.added;
      assert k in After(base, e);
    }
  }

  lemma UndoDocument(entry: Entry, base: View, e: Edit)
    requires e.Replace? && Describes(e, base) && Remembers(entry, WholeResource, "", base, e)
    requires !Single(entry) && ChangedToText(e, After(base, e))
    ensures Undoes(entry, After(base, e), base)
  {
    var view := After(base, e);
    var step := UndoOf(entry, view).value;
    ChangesWhatIsListed(base, e);
    forall k ensures k in step.edit.wanted ==> k !in BinaryKeysOf(view) {
      ProposedLookup(entry, base, e, k);
    }
    forall k ensures Lookup(After(view, step.edit), k) == Lookup(base, k) {
      ProposedLookup(entry, base, e, k);
    }
    SameLookupSameView(After(view, step.edit), base);
  }

  lemma UndoDocumentFails(entry: Entry, base: View, e: Edit)
    requires e.Replace? && Describes(e, base) && Remembers(entry, WholeResource, "", base, e)
    requires !Single(entry) && !ChangedToText(e, After(base, e))
    ensures !Undoes(entry, After(base, e), base)
  {
    var view := After(base, e);
    var step := UndoOf(entry, view).value;
    ChangesWhatIsListed(base, e);
    var k :| Lists(e, k) && k in view && IsBinaryValue(view[k]);
    ProposedLookup(entry, base, e, k);
    if k in e.shown {
      assert k in step.edit.wanted && k in BinaryKeysOf(view);
    } else {
      assert k in After(view, step.edit);
      assert k !in base;
    }
  }

  /** Undoing the undo gives the saved view back, whenever the undo gave the old one. */
  lemma UndoTwice(entry: Entry, target: Target, key: string, base: View, e: Edit, again: Entry)
    requires target != NewResource && Fits(target, key, e) && Describes(e, base)
    requires Remembers(entry, target, key, base, e)
    requires Undoes(entry, After(base, e), base)
    requires var step := UndoOf(entry, After(base, e)).value;
      Remembers(again, step.target, step.key, After(base, e), step.edit)
    ensures Undoes(again, base, After(base, e))
  {
    var view := After(base, e);
    var step := UndoOf(entry, view).value;
    StepFits(entry, view);
    if step.target == WholeResource { SingleKeyUndo(entry, target, key, base, e); }
    hide Remembers, Describes, After, TextOf, UndoOf, Fits, Lists, Reversible;
    UndoInvertsSave(again, step.target, step.key, view, step.edit);
    if step.target == WholeResource {
      forall k | Lists(step.edit, k) && k in base ensures !IsBinaryValue(base[k]) {
        ProposalIsText(entry, base, e, k);
      }
    }
  }

  lemma StepFits(entry: Entry, view: View)
    requires UndoOf(entry, view).Some?
    ensures var step := UndoOf(entry, view).value;
      step.target != NewResource && Fits(step.target, step.key, step.edit) && Reversible(step.target, step.key, view)
    ensures UndoOf(entry, view).value.target == WholeResource ==> !Single(entry)
  {
  }

  /** The keys an undo of several changes had text values before. */
  lemma ProposalIsText(entry: Entry, base: View, e: Edit, k: string)
    requires e.Replace? && Describes(e, base) && Remembers(entry, WholeResource, "", base, e) && !Single(entry)
    requires Lists(UndoOf(entry, After(base, e)).value.edit, k) && k in base
    ensures !IsBinaryValue(base[k])
  {
    ProposedLookup(entry, base, e, k);
  }

  lemma SingleKeyUndo(entry: Entry, target: Target, key: string, base: View, e: Edit)
    requires target != NewResource && Fits(target, key, e) && Remembers(entry, target, key, base, e)
    ensures target != WholeResource ==> Single(entry)
    ensures target == WholeResource ==> Remembers(entry, WholeResource, "", base, e) && e.Replace?
  {
    SingletonMap(key, Lookup(base, key));
  }

  lemma BytesOfExample()
    ensures !IsBinaryValue([0x61]) && !IsBinaryValue([0x62]) && !IsBinaryValue([0x63]) && IsBinaryValue([0x00])
  {
  }

  lemma TextOfExample(base: View)
    requires forall k | k in base :: !IsBinaryValue(base[k])
    ensures TextOf(base) == base && BinaryKeysOf(base) == {}
  {
  }

  lemma ExampleRemembered(base: View, wanted: View, entry: Entry)
    requires base == map["a" := [0x61], "b" := [0x62]] && wanted == map["a" := [0x00], "b" := [0x63]]
    requires entry.previous == map["a" := Some(base["a"]), "b" := Some(base["b"])] && entry.added == []
    ensures Describes(Replace(base, wanted), base) && Remembers(entry, WholeResource, "", base, Replace(base, wanted))
    ensures !Single(entry)
  {
    hide TextOf, BinaryKeysOf, IsBinaryValue;
    BytesOfExample();
    TextOfExample(base);
    assert entry.previous == map k | k in base && Lists(Replace(base, wanted), k) :: Some(base[k]);
    assert entry.previous.Keys == {"a", "b"} && |entry.previous| == 2;
  }

  lemma ExampleNotText(base: View, wanted: View)
    requires base == map["a" := [0x61], "b" := [0x62]] && wanted == map["a" := [0x00], "b" := [0x63]]
    ensures !ChangedToText(Replace(base, wanted), After(base, Replace(base, wanted)))
  {
    hide IsBinaryValue;
    BytesOfExample();
    assert Lists(Replace(base, wanted), "a") && After(base, Replace(base, wanted))["a"] == [0x00];
  }

  /** A value that was edited into binary bytes together with another change: the undo of
      that save is refused as a collision with a binary key, and does not give back the old
      values. */
  lemma UndoOfBinaryChangeFails()
    ensures var base: View := map["a" := [0x61], "b" := [0x62]];
      var e := Replace(base, map["a" := [0x00], "b" := [0x63]]);
      var entry := Entry(Identity("", "", "", ""), map["a" := Some(base["a"]), "b" := Some(base["b"])], []);
      Describes(e, base) && Remembers(entry, WholeResource, "", base, e) && !Undoes(entry, After(base, e), base)
  {
    var base: View := map["a" := [0x61], "b" := [0x62]];
    var e := Replace(base, map["a" := [0x00], "b" := [0x63]]);
    var entry := Entry(Identity("", "", "", ""), map["a" := Some(base["a"]), "b" := Some(base["b"])], []);
    hide Undoes, Describes, Remembers, After, ChangedToText, Single, Reversible;
    ExampleRemembered(base, e.wanted, entry);
    ExampleNotText(base, e.wanted);
    UndoInvertsSave(entry, WholeResource, "", base, e);
  }

  /** Opens the flow that undoes `entry` on the resource shown. */
  method UndoFlow(ids: RequestIds, ring: Ring, readOnly: bool, res: Resource, entry: Entry) returns (flow: Flow)
    requires res.Valid() && ring.Valid()
    ensures fresh(flow) && fresh(flow.loader) && fresh(flow.gate) && flow.Valid() && flow.res == res && !flow.applied
    ensures flow.id == entry.id && flow.readOnly == readOnly && flow.ring == ring && flow.loader.ids == ids
    ensures var step := UndoOf(entry, res.View());
      if step.None? then flow.phase != Diff
      else flow.phase == Diff && flow.proposedMode && flow.target == step.value.target && flow.ShownEdit() == step.value.edit
  {
    hide Flow.Valid, Resource.View, TextOf;
    if entry.added == [] && |entry.previous| == 1 {
      flow := UndoOneValue(ids, ring, readOnly, res, entry);
      return;
    }
    if entry.previous == map[] && |entry.added| == 1 {
      flow := NewKeyDeleteFlow(ids, ring, entry.id, readOnly, res, entry.added[0]);
      return;
    }
    var remove := Present(res, entry.added);
    flow := NewResourceRevertFlow(ids, ring, entry.id, readOnly, res, PreviousValues(entry.previous), remove);
    assert (set k | k in remove) == SetOf(entry.added) * res.View().Keys;
  }

  method UndoOneValue(ids: RequestIds, ring: Ring, readOnly: bool, res: Resource, entry: Entry) returns (flow: Flow)
    requires res.Valid() && ring.Valid() && entry.added == [] && |entry.previous| == 1
    ensures fresh(flow) && fresh(flow.loader) && fresh(flow.gate) && flow.Valid() && flow.res == res && !flow.applied
    ensures flow.id == entry.id && flow.readOnly == readOnly && flow.ring == ring && flow.loader.ids == ids
    ensures var step := UndoOf(entry, res.View());
      if step.None? then flow.phase != Diff
      else flow.phase == Diff && flow.proposedMode && flow.target == step.value.target && flow.ShownEdit() == step.value.edit
  {
    hide Flow.Valid, Resource.View, TextOf;
    assert |entry.previous.Keys| == 1;
    var k :| k in entry.previous;
    forall j | j in entry.previous ensures j == k { OnlyKey(entry.previous, j, k); }
    var keys := res.Keys();
    if k in keys {
      flow := NewEditFlow(ids, ring, entry.id, readOnly, res, k, entry.previous[k]);
    } else {
      flow := NewKeyRestoreFlow(ids, ring, entry.id, readOnly, res, k, entry.previous[k]);
    }
  }

  /** The listed keys the resource still has. */
  method Present(res: Resource, added: seq<string>) returns (remove: seq<string>)
    requires res.Valid()
    ensures forall k :: k in remove <==> k in added && k in res.View()
  {
    var keys := res.Keys();
    remove := [];
    for i := 0 to |added|
      invariant forall k :: k in remove <==> k in added[..i] && k in res.View()
    {
      assert added[..i + 1] == added[..i] + [added[i]];
      if added[i] in keys {
        remove := remove + [added[i]];
      }
    }
    assert added[..|added|] == added;
  }
}
