/** The bounded history of recent saves. */
module Undo {
  import opened Values

  const CAPACITY := 20

  datatype Identity = Identity(context: string, kind: string, namespace: string, name: string)

  /** What a save overwrote: the previous value of every key it changed or removed, and the
      keys it added. A value of nothing is the empty value of a key that was not there. */
  datatype Entry = Entry(id: Identity, previous: map<string, Option<bytes>>, added: seq<string>)

  /** The newest entry of a resource. */
  function Latest(entries: seq<Entry>, id: Identity): Option<Entry> {
    if entries == [] then None
    else if entries[|entries| - 1].id == id then Some(entries[|entries| - 1])
    else Latest(entries[..|entries| - 1], id)
  }

  /** The history with one more entry, the oldest evicted at capacity. */
  function Pushed(entries: seq<Entry>, entry: Entry): seq<Entry> {
    (if |entries| == CAPACITY then entries[1..] else entries) + [entry]
  }

  /** What stays are the newest of all, as many as fit. */
  lemma NewestStay(entries: seq<Entry>, entry: Entry)
    requires |entries| <= CAPACITY
    ensures var r := Pushed(entries, entry);
      && |r| == (if |entries| < CAPACITY then |entries| + 1 else CAPACITY)
      && r == (entries + [entry])[|entries| + 1 - |r|..]
  {
  }

  class Ring {
    var entries: seq<Entry>

    ghost predicate Valid()
      reads this
    {
      |entries| <= CAPACITY
    }

    constructor ()
      ensures Valid() && entries == []
    {
      entries := [];
    }

    /** Remembers the newest saves in order and forgets the oldest beyond the capacity. */
    method Push(entry: Entry)
      requires Valid()
      modifies this
      ensures Valid()
      ensures entries == Pushed(old(entries), entry)
    {
      if |entries| == CAPACITY {
        var i := 0;
        while i < CAPACITY - 1
          invariant 0 <= i <= CAPACITY - 1 && |entries| == CAPACITY
          invariant forall j | 0 <= j < i :: entries[j] == old(entries)[j + 1]
          invariant forall j | i <= j < CAPACITY :: entries[j] == old(entries)[j]
        {
          entries := entries[i := entries[i + 1]];
          i := i + 1;
        }
        entries := entries[CAPACITY - 1 := entry];
        return;
      }
      entries := entries + [entry];
    }

    method LatestFor(id: Identity) returns (entry: Option<Entry>)
      ensures entry == Latest(entries, id)
    {
      var i := |entries|;
      assert entries[..i] == entries;
      while i > 0
        invariant 0 <= i <= |entries|
        invariant Latest(entries, id) == Latest(entries[..i], id)
      {
        i := i - 1;
        assert entries[..i + 1][..i] == entries[..i];
        if entries[i].id == id { return Some(entries[i]); }
      }
      entry := None;
    }
  }

  /** A save just pushed is the one an undo of its resource finds, and pushing the save of
      another resource does not change what is found, unless the oldest entry it evicts was
      the only one. */
  lemma PushThenLatest(entries: seq<Entry>, entry: Entry, id: Identity)
    ensures Latest(entries + [entry], id) == if entry.id == id then Some(entry) else Latest(entries, id)
  {
    assert (entries + [entry])[..|entries|] == entries;
  }

  lemma {:induction false} LatestAfterEviction(entries: seq<Entry>, id: Identity)
    requires entries != []
    ensures Latest(entries[1..], id).Some? ==> Latest(entries, id) == Latest(entries[1..], id)
    ensures Latest(entries[1..], id).None? && Latest(entries, id).Some? ==> Latest(entries, id) == Some(entries[0])
  {
    if |entries| > 1 && entries[|entries| - 1].id != id {
      LatestAfterEviction(entries[..|entries| - 1], id);
      assert entries[..|entries| - 1][1..] == entries[1..][..|entries[1..]| - 1];
    } else if |entries| == 1 {
      assert entries[1..] == [] && entries[..0] == [];
    }
  }
}
