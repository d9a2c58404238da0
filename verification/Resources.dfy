/** Secrets and ConfigMaps in memory: one observable map from keys to bytes. */
module Resources {
  import opened Values
  import opened Sorting
  import Natsort

  datatype Kind = Secret | ConfigMap

  /** The keys of `keys`, each once, in natural order. */
  ghost predicate IsListing(listing: seq<string>, keys: set<string>) {
    Lists(Natsort.Less, listing, keys)
  }

  lemma ListingUnique(s: seq<string>, t: seq<string>, keys: set<string>)
    requires IsListing(s, keys) && IsListing(t, keys)
    ensures s == t
  {
    Natsort.LessIsStrictTotal();
    StrictlySortedUnique(Natsort.Less, s, t);
  }

  lemma ListedOnce(listing: seq<string>, keys: set<string>, i: nat)
    requires IsListing(listing, keys) && i < |listing|
    ensures listing[i] !in listing[..i]
  {
    Natsort.OrderAntisymmetric(listing[i], listing[i]);
    forall j | 0 <= j < i ensures listing[j] != listing[i] {
      assert Natsort.Less(listing[j], listing[i]);
    }
  }

  /** Sorting and compacting any enumeration of a key set, repeated or not, lists it. */
  lemma SortCompactLists(keys: seq<string>)
    ensures IsListing(Listing(Natsort.Less, keys), set k | k in keys)
  {
    Natsort.LessIsStrictTotal();
    ListingLists(Natsort.Less, keys);
  }

  /** The keys of a map in the unspecified order a range over it visits them. */
  method MapKeys<K(==), V>(m: map<K, V>) returns (keys: seq<K>)
    ensures forall k :: k in keys <==> k in m
    ensures forall i, j | 0 <= i < j < |keys| :: keys[i] != keys[j]
  {
    keys := [];
    var rest := m.Keys;
    while rest != {}
      invariant forall k :: k in m <==> k in keys || k in rest
      invariant forall k | k in keys :: k !in rest
      invariant forall i, j | 0 <= i < j < |keys| :: keys[i] != keys[j]
      decreases rest
    {
      var k :| k in rest;
      keys := keys + [k];
      rest := rest - {k};
    }
  }

  /** The keys of a map in natural order. */
  method SortedKeys<V>(m: map<string, V>) returns (keys: seq<string>)
    ensures IsListing(keys, m.Keys)
  {
    keys := MapKeys(m);
    Natsort.LessIsStrictTotal();
    assert Comparable(Natsort.Less, keys);
    SortStrictly(Natsort.Less, keys);
    keys := Sort(Natsort.Less, keys);
  }

  /** Moving a key between the two maps, seen through the map a caller sees. */
  lemma UnionMoves(binaryData: map<string, bytes>, data: map<string, bytes>, key: string, value: bytes)
    ensures binaryData[key := value] + (data - {key}) == (binaryData + data)[key := value]
    ensures (binaryData - {key}) + data[key := value] == (binaryData + data)[key := value]
  {
  }

  lemma UnionRemoves(binaryData: map<string, bytes>, data: map<string, bytes>, key: string)
    ensures (binaryData - {key}) + (data - {key}) == (binaryData + data) - {key}
    ensures key !in binaryData && key !in data ==> (binaryData + data) - {key} == binaryData + data
  {
  }

  /** A Secret keeps its values in `data`; a ConfigMap keeps text in `data` and binary
      values in `binaryData`. What a caller sees is `View`. */
  class Resource {
    const kind: Kind
    const version: nat
    var data: map<string, bytes>
    var binaryData: map<string, bytes>

    /** What `Get` answers for every key: a key present in both maps reads from `data`. */
    function View(): map<string, bytes>
      reads this
    {
      binaryData + data
    }

    ghost predicate Valid()
      reads this
    {
      kind == Secret ==> binaryData == map[]
    }

    constructor (kind: Kind, version: nat, data: map<string, bytes>, binaryData: map<string, bytes>)
      requires kind == Secret ==> binaryData == map[]
      ensures Valid() && View() == binaryData + data
      ensures this.kind == kind && this.version == version && this.data == data && this.binaryData == binaryData
    {
      this.kind, this.version := kind, version;
      this.data, this.binaryData := data, binaryData;
    }

    method Clone() returns (copy: Resource)
      requires Valid()
      ensures fresh(copy) && copy.Valid() && copy.View() == View()
      ensures copy.kind == kind && copy.version == version && copy.data == data && copy.binaryData == binaryData
    {
      copy := new Resource(kind, version, data, binaryData);
    }

    method Keys() returns (keys: seq<string>)
      requires Valid()
      ensures IsListing(keys, View().Keys)
    {
      hide IsListing, Listing;
      if kind == Secret {
        assert map[] + data == data;
        keys := SortedKeys(data);
        return;
      }
      keys := MapKeys(data);
      var more := MapKeys(binaryData);
      keys := keys + more;
      SortCompactLists(keys);
      assert (set k | k in keys) == View().Keys;
      keys := Listing(Natsort.Less, keys);
    }

    method Get(key: string) returns (value: Option<bytes>)
      requires Valid()
      ensures value == if key in View() then Some(View()[key]) else None
    {
      if key in data {
        value := Some(data[key]);
      } else if key in binaryData {
        value := Some(binaryData[key]);
      } else {
        value := None;
      }
    }

    method Set(key: string, value: bytes)
      requires Valid()
      modifies this
      ensures Valid() && View() == old(View())[key := value]
      ensures kind == ConfigMap ==> (key in binaryData <==> IsBinaryValue(value)) && (key in data <==> !IsBinaryValue(value))
      ensures forall k | k != key :: (k in data <==> k in old(data)) && (k in binaryData <==> k in old(binaryData))
    {
      UnionMoves(binaryData, data, key, value);
      if kind == ConfigMap && IsBinaryValue(value) {
        binaryData := binaryData[key := value];
        data := data - {key};
      } else {
        data := data[key := value];
        binaryData := binaryData - {key};
      }
    }

    method Delete(key: string) returns (ok: bool)
      requires Valid()
      modifies this
      ensures Valid() && ok == (key in old(View()))
      ensures View() == old(View()) - {key}
    {
      UnionRemoves(binaryData, data, key);
      if key !in data && key !in binaryData {
        return false;
      }
      data := data - {key};
      binaryData := binaryData - {key};
      ok := true;
    }

    method IsBinary(key: string) returns (binary: bool)
      requires Valid()
      ensures binary == (key in View() && IsBinaryValue(View()[key]))
    {
      var value := Get(key);
      binary := value.Some? && IsBinaryValue(value.value);
    }
  }

  /** Whether two resources hold the same data: the test that decides that an ambiguous
      write has landed. */
  method SameData(a: Resource, b: Resource) returns (same: bool)
    requires a.Valid() && b.Valid()
    ensures same <==> a.View() == b.View()
  {
    var aKeys := a.Keys();
    var bKeys := b.Keys();
    ListingsDecide(aKeys, bKeys, a.View(), b.View());
    if |aKeys| != |bKeys| {
      return false;
    }
    same := SameEntries(a, b, aKeys, bKeys);
  }

  method SameEntries(a: Resource, b: Resource, aKeys: seq<string>, bKeys: seq<string>) returns (same: bool)
    requires a.Valid() && b.Valid() && |aKeys| == |bKeys|
    ensures same <==> forall j | 0 <= j < |aKeys| :: SameAt(aKeys[j], bKeys[j], a.View(), b.View())
  {
    for i := 0 to |aKeys|
      invariant forall j | 0 <= j < i :: SameAt(aKeys[j], bKeys[j], a.View(), b.View())
    {
      var key := aKeys[i];
      if key != bKeys[i] {
        return false;
      }
      var aValue := a.Get(key);
      var bValue := b.Get(key);
      if aValue.None? || bValue.None? || aValue.value != bValue.value {
        return false;
      }
    }
    same := true;
  }

  ghost predicate SameAt(j: string, k: string, x: map<string, bytes>, y: map<string, bytes>) {
    j == k && j in x && j in y && x[j] == y[j]
  }

  /** Two views are equal exactly when their listings agree position by position. */
  lemma ListingsDecide(s: seq<string>, t: seq<string>, x: map<string, bytes>, y: map<string, bytes>)
    requires IsListing(s, x.Keys) && IsListing(t, y.Keys)
    ensures x == y <==> |s| == |t| && forall j | 0 <= j < |s| :: SameAt(s[j], t[j], x, y)
  {
    if x == y {
      ListingUnique(s, t, x.Keys);
      forall j | 0 <= j < |s| ensures SameAt(s[j], t[j], x, y) {
        assert s[j] in s;
      }
    } else if |s| == |t| && forall j | 0 <= j < |s| :: SameAt(s[j], t[j], x, y) {
      assert s == t;
      assert x.Keys == y.Keys;
      forall k | k in x ensures x[k] == y[k] {
        assert k in s;
      }
    }
  }

  // ---------------------------------------------------------------- the editable part

  /** The values a document shows. */
  function TextOf(view: map<string, bytes>): map<string, bytes> {
    map k | k in view && !IsBinaryValue(view[k]) :: view[k]
  }

  /** The keys it leaves out. */
  function BinaryKeysOf(view: map<string, bytes>): set<string> {
    set k | k in view && IsBinaryValue(view[k])
  }

  datatype BinaryKey = BinaryKey(name: string, size: nat)

  function Names(binary: seq<BinaryKey>): (names: seq<string>)
    ensures |names| == |binary| && forall i | 0 <= i < |binary| :: names[i] == binary[i].name
  {
    seq(|binary|, i requires 0 <= i < |binary| => binary[i].name)
  }

  /** Splits a resource into editable values and omitted binary keys. */
  method FromResource(res: Resource) returns (values: map<string, bytes>, binary: seq<BinaryKey>)
    requires res.Valid()
    ensures values == TextOf(res.View())
    ensures IsListing(Names(binary), BinaryKeysOf(res.View()))
    ensures forall b | b in binary :: b.name in res.View() && b.size == |res.View()[b.name]|
  {
    hide Resource.View, TextOf, Upto, BinaryListed, IsListing, BinaryKeysOf;
    ghost var view := res.View();
    values, binary := map[], [];
    var keys := res.Keys();
    NothingSplit(keys, view);
    for n := 0 to |keys|
      invariant values == TextOf(Upto(keys, n, view))
      invariant BinaryListed(keys, n, view, binary)
    {
      var key := keys[n];
      var value := res.Get(key);
      var isBinary := res.IsBinary(key);
      KeyOfListing(keys, n, view);
      if isBinary {
        SplitBinaryStep(keys, n, view, binary);
        binary := binary + [BinaryKey(key, |value.value|)];
      } else {
        SplitTextStep(keys, n, view, binary);
        values := values[key := value.value];
      }
    }
    AllSplit(keys, view, binary);
    BinaryListingSorted(keys, view, binary);
    binary := Sort(ByName, binary);
  }

  lemma KeyOfListing(keys: seq<string>, n: nat, view: map<string, bytes>)
    requires IsListing(keys, view.Keys) && n < |keys|
    ensures keys[n] in view
  {
    assert keys[n] in keys;
  }

  lemma NothingSplit(keys: seq<string>, view: map<string, bytes>)
    ensures TextOf(Upto(keys, 0, view)) == map[] && BinaryListed(keys, 0, view, [])
  {
    assert keys[..0] == [];
  }

  lemma AllSplit(keys: seq<string>, view: map<string, bytes>, binary: seq<BinaryKey>)
    requires IsListing(keys, view.Keys) && BinaryListed(keys, |keys|, view, binary)
    ensures Upto(keys, |keys|, view) == view && IsListing(Names(binary), BinaryKeysOf(view))
    ensures forall b | b in binary :: b.name in view && b.size == |view[b.name]|
  {
    hide BinaryKeysOf, IsBinaryValue;
    assert Upto(keys, |keys|, view) == view by { hide BinaryListed; }
  }

  predicate ByName(a: BinaryKey, b: BinaryKey) { Natsort.Less(a.name, b.name) }

  /** The entries of `view` among the first `n` of its keys. */
  ghost function Upto(keys: seq<string>, n: nat, view: map<string, bytes>): map<string, bytes>
    requires n <= |keys|
  {
    map k | k in view && k in keys[..n] :: view[k]
  }

  ghost predicate BinaryListed(keys: seq<string>, n: nat, view: map<string, bytes>, binary: seq<BinaryKey>)
    requires n <= |keys|
  {
    && IsListing(Names(binary), BinaryKeysOf(Upto(keys, n, view)))
    && forall b | b in binary :: b.name in view && b.size == |view[b.name]|
  }

  lemma SplitBinaryStep(keys: seq<string>, n: nat, view: map<string, bytes>, binary: seq<BinaryKey>)
    requires IsListing(keys, view.Keys) && n < |keys| && BinaryListed(keys, n, view, binary)
    requires keys[n] in view && IsBinaryValue(view[keys[n]])
    ensures BinaryListed(keys, n + 1, view, binary + [BinaryKey(keys[n], |view[keys[n]]|)])
    ensures TextOf(Upto(keys, n + 1, view)) == TextOf(Upto(keys, n, view))
  {
    hide IsBinaryValue, IsListing;
    var key := keys[n];
    assert keys[..n + 1] == keys[..n] + [key];
    var more := binary + [BinaryKey(key, |view[key]|)];
    assert Names(more) == Names(binary) + [key];
    assert BinaryKeysOf(Upto(keys, n + 1, view)) == BinaryKeysOf(Upto(keys, n, view)) + {key};
    BinaryBefore(keys, n, view, binary);
    ListingGrows(Names(binary), BinaryKeysOf(Upto(keys, n, view)), key);
  }

  lemma ListingGrows(listing: seq<string>, all: set<string>, key: string)
    requires IsListing(listing, all) && forall i | 0 <= i < |listing| :: Natsort.Less(listing[i], key)
    ensures IsListing(listing + [key], all + {key})
  {
    hide Natsort.Less;
  }

  /** The binary keys listed so far come before the next key. */
  lemma BinaryBefore(keys: seq<string>, n: nat, view: map<string, bytes>, binary: seq<BinaryKey>)
    requires IsListing(keys, view.Keys) && n < |keys| && BinaryListed(keys, n, view, binary)
    ensures forall i | 0 <= i < |binary| :: Natsort.Less(Names(binary)[i], keys[n])
  {
    hide IsBinaryValue, Natsort.Less;
    forall i | 0 <= i < |binary| ensures Natsort.Less(Names(binary)[i], keys[n]) {
      assert Names(binary)[i] in Names(binary);
      assert Names(binary)[i] in keys[..n];
    }
  }

  lemma SplitTextStep(keys: seq<string>, n: nat, view: map<string, bytes>, binary: seq<BinaryKey>)
    requires n < |keys| && BinaryListed(keys, n, view, binary)
    requires keys[n] in view && !IsBinaryValue(view[keys[n]])
    ensures BinaryListed(keys, n + 1, view, binary)
    ensures TextOf(Upto(keys, n + 1, view)) == TextOf(Upto(keys, n, view))[keys[n] := view[keys[n]]]
  {
    assert keys[..n + 1] == keys[..n] + [keys[n]];
    assert BinaryKeysOf(Upto(keys, n + 1, view)) == BinaryKeysOf(Upto(keys, n, view));
  }

  /** The last sort of the binary keys finds them sorted already. */
  lemma BinaryListingSorted(keys: seq<string>, view: map<string, bytes>, binary: seq<BinaryKey>)
    requires IsListing(Names(binary), BinaryKeysOf(view))
    ensures Sort(ByName, binary) == binary
  {
    Natsort.LessIsStrictTotal();
    forall i, j | 0 <= i < j < |binary| ensures !ByName(binary[j], binary[i]) {
      assert Natsort.Less(Names(binary)[i], Names(binary)[j]);
    }
    SortOfSorted(ByName, binary);
  }
}
