/** What a loop that appends for every element of a list has appended. */
module Sequences {

  /** What `f` makes of every element, in order. */
  function Gather<T, U>(f: T -> seq<U>, s: seq<T>): seq<U> {
    if s == [] then [] else Gather(f, s[..|s| - 1]) + f(s[|s| - 1])
  }

  lemma {:induction false} InGather<T(!new), U(!new)>(f: T -> seq<U>, s: seq<T>, u: U)
    ensures u in Gather(f, s) <==> exists t :: t in s && u in f(t)
  {
    if s != [] {
      InGather(f, s[..|s| - 1], u);
      assert s == s[..|s| - 1] + [s[|s| - 1]];
    }
  }

  /** One more turn of the loop. */
  lemma GatherStep<T, U>(f: T -> seq<U>, s: seq<T>, i: nat)
    requires i < |s|
    ensures Gather(f, s[..i + 1]) == Gather(f, s[..i]) + f(s[i])
  {
    assert s[..i + 1][..i] == s[..i];
  }

  lemma GatherNone<T, U>(f: T -> seq<U>, s: seq<T>)
    ensures Gather(f, s[..0]) == []
  {
    assert s[..0] == [];
  }

  lemma GatherAll<T, U>(f: T -> seq<U>, s: seq<T>)
    ensures Gather(f, s[..|s|]) == Gather(f, s)
  {
    assert s[..|s|] == s;
  }
}
