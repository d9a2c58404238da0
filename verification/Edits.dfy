/** Edits of a key-to-bytes view: what a diff lists, what applying it does, and how applying
    and restoring key by key relate to it. */
module Edits {
  import opened Values
  import opened Resources

  type View = map<string, bytes>

  function Lookup(v: View, k: string): Option<bytes> { if k in v then Some(v[k]) else None }

  /** A missing value shows as an empty one. */
  function Bytes(o: Option<bytes>): (b: bytes)
    ensures o == Some(b) || (o.None? && b == [])
  {
    if o.Some? then o.value else []
  }

  /** What a diff shows: one key set or removed, or the whole document. */
  datatype Edit =
    | SetKey(key: string, before: bytes, after: bytes)
    | RemoveKey(key: string, before: bytes)
    | Replace(shown: View, wanted: View)

  /** The view an edit makes of `base`. */
  function After(base: View, e: Edit): View {
    match e
    case SetKey(k, _, value) => base[k := value]
    case RemoveKey(k, _) => base - {k}
    case Replace(before, after) => (base - before.Keys) + after
  }

  /** The before side of the diff is what `base` holds, and a document names no key that
      `base` holds a binary value under. */
  predicate Describes(e: Edit, base: View) {
    match e
    case SetKey(k, before, _) => before == Bytes(Lookup(base, k))
    case RemoveKey(k, before) => Lookup(base, k) == Some(before)
    case Replace(before, after) => before == TextOf(base) && after.Keys !! BinaryKeysOf(base)
  }

  /** Whether the diff lists `k` as changed, and what it says `k` becomes. */
  predicate Lists(e: Edit, k: string) {
    match e
    case SetKey(key, _, _) => k == key
    case RemoveKey(key, _) => k == key
    case Replace(before, after) => Lookup(before, k) != Lookup(after, k)
  }

  function Becomes(e: Edit, k: string): Option<bytes>
    requires Lists(e, k)
  {
    match e
    case SetKey(_, _, value) => Some(value)
    case RemoveKey(_, _) => None
    case Replace(_, after) => Lookup(after, k)
  }

  /** An edit changes the keys its diff lists, to what the diff says, and nothing else. */
  lemma ChangesWhatIsListed(base: View, e: Edit)
    requires Describes(e, base)
    ensures forall k :: Lookup(After(base, e), k) == if Lists(e, k) then Becomes(e, k) else Lookup(base, k)
  {
  }

  /** A document edit turns the text keys into the document and leaves binary values alone. */
  lemma DocumentReplacesText(base: View, before: View, after: View)
    requires Describes(Replace(before, after), base)
    ensures forall k | k in BinaryKeysOf(base) :: Lookup(After(base, Replace(before, after)), k) == Lookup(base, k)
    ensures forall k | k !in BinaryKeysOf(base) :: Lookup(After(base, Replace(before, after)), k) == Lookup(after, k)
  {
  }

  // ---------------------------------------------------------------- key by key

  /** Gives every listed key the value it has in `source`, or removes it. */
  function Overlay(v: View, source: View, keys: seq<string>): View {
    if keys == [] then v
    else
      var w := Overlay(v, source, keys[..|keys| - 1]);
      var k := keys[|keys| - 1];
      if k in source then w[k := source[k]] else w - {k}
  }

  lemma {:induction false} OverlayLookup(v: View, source: View, keys: seq<string>)
    ensures forall k :: Lookup(Overlay(v, source, keys), k) == if k in keys then Lookup(source, k) else Lookup(v, k)
  {
    if keys != [] {
      var rest := keys[..|keys| - 1];
      OverlayLookup(v, source, rest);
      assert keys == rest + [keys[|keys| - 1]];
    }
  }

  lemma SameLookupSameView(v: View, w: View)
    requires forall k :: Lookup(v, k) == Lookup(w, k)
    ensures v == w
  {
    forall k ensures k in v <==> k in w {
      assert Lookup(v, k) == Lookup(w, k);
    }
    forall k | k in v ensures v[k] == w[k] {
      assert Lookup(v, k) == Lookup(w, k);
    }
  }

  lemma OverlayStep(v: View, source: View, keys: seq<string>, k: string)
    ensures Overlay(v, source, keys + [k]) ==
      if k in source then Overlay(v, source, keys)[k := source[k]] else Overlay(v, source, keys) - {k}
  {
    assert (keys + [k])[..|keys|] == keys;
  }

  /** Restoring the touched keys undoes any number of changes to them, applied completely or
      stopped half way, when the saved values are the ones that were there. */
  lemma RestoreInverts(v: View, edited: View, original: View, touched: seq<string>)
    requires forall k | k in touched :: Lookup(original, k) == Lookup(v, k)
    ensures Overlay(Overlay(v, edited, touched), original, touched) == v
  {
    OverlayLookup(v, edited, touched);
    OverlayLookup(Overlay(v, edited, touched), original, touched);
    SameLookupSameView(Overlay(Overlay(v, edited, touched), original, touched), v);
  }

  /** Changing exactly the keys on which two documents differ makes the edit between them. */
  lemma OverlayIsAfter(base: View, before: View, after: View, touched: seq<string>)
    requires Describes(Replace(before, after), base)
    requires forall k :: k in touched <==> Lookup(before, k) != Lookup(after, k)
    ensures Overlay(base, after, touched) == After(base, Replace(before, after))
  {
    OverlayLookup(base, after, touched);
    ChangesWhatIsListed(base, Replace(before, after));
    SameLookupSameView(Overlay(base, after, touched), After(base, Replace(before, after)));
  }
}
