/**
 * The engine's TSet as the generator uses it: elements are only ever added, and iteration
 * visits them in insertion order, so a set is modelled as a sequence without duplicates.
 */
module OrderedSets {

  /** `TSet::Add`: appends `x` unless it is already present. */
  function AddUnique<T(==, !new)>(s: seq<T>, x: T): (r: seq<T>)
    ensures x in r
    ensures forall y :: y in r <==> y in s || y == x
    ensures |s| <= |r| && r[..|s|] == s
  {
    if x in s then s else s + [x]
  }

  ghost predicate NoDup<T>(s: seq<T>) {
    forall i, j :: 0 <= i < j < |s| ==> s[i] != s[j]
  }

  lemma AddUniqueKeepsNoDup<T(!new)>(s: seq<T>, x: T)
    requires NoDup(s)
    ensures NoDup(AddUnique(s, x))
  {
  }

  /** Adds every element of `xs`, in order. */
  function AddAll<T(==, !new)>(s: seq<T>, xs: seq<T>): seq<T>
    decreases |xs|
  {
    if xs == [] then s else AddUnique(AddAll(s, xs[..|xs| - 1]), xs[|xs| - 1])
  }

  /** Adding a sequence keeps what was there, in front, and holds exactly the old and the added elements. */
  lemma {:induction false} AddAllMembers<T(!new)>(s: seq<T>, xs: seq<T>)
    ensures forall y :: y in AddAll(s, xs) <==> y in s || y in xs
    ensures |s| <= |AddAll(s, xs)| && AddAll(s, xs)[..|s|] == s
    decreases |xs|
  {
    if xs != [] {
      var init := xs[..|xs| - 1];
      AddAllMembers(s, init);
      assert xs == init + [xs[|xs| - 1]];
    }
  }

  /** Adding never introduces a duplicate. */
  lemma {:induction false} AddAllKeepsNoDup<T(!new)>(s: seq<T>, xs: seq<T>)
    requires NoDup(s)
    ensures NoDup(AddAll(s, xs))
    decreases |xs|
  {
    if xs != [] {
      AddAllKeepsNoDup(s, xs[..|xs| - 1]);
      AddUniqueKeepsNoDup(AddAll(s, xs[..|xs| - 1]), xs[|xs| - 1]);
    }
  }

  /** Adding `xs` and then `x` is adding `xs + [x]`. */
  lemma AddAllSnoc<T(!new)>(s: seq<T>, xs: seq<T>, x: T)
    ensures AddAll(s, xs + [x]) == AddUnique(AddAll(s, xs), x)
  {
    assert (xs + [x])[..|xs|] == xs;
  }
}
