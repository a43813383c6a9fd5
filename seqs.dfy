/** The two list operations the game logic takes from JavaScript:
    `Array.prototype.filter` and deduplication through `[...new Set(xs)]`. */
module Seqs {

  /** `xs.filter(p)`: the elements satisfying p, in their original order. */
  function Filter<T(!new)>(xs: seq<T>, p: T -> bool): (r: seq<T>)
    ensures |r| <= |xs|
    ensures forall x :: x in r <==> x in xs && p(x)
    ensures NoDuplicates(xs) ==> NoDuplicates(r)
  {
    if xs == [] then []
    else
      var rest := Filter(xs[..|xs| - 1], p);
      assert xs == xs[..|xs| - 1] + [xs[|xs| - 1]];
      if p(xs[|xs| - 1]) then rest + [xs[|xs| - 1]] else rest
  }

  predicate NoDuplicates<T(==)>(xs: seq<T>) {
    forall i, j :: 0 <= i < j < |xs| ==> xs[i] != xs[j]
  }

  /** `[...new Set(xs)]`: every element once, in order of first occurrence. */
  function Distinct<T(==,!new)>(xs: seq<T>): (r: seq<T>)
    ensures |r| <= |xs|
    ensures NoDuplicates(r)
    ensures forall x :: x in r <==> x in xs
  {
    if xs == [] then []
    else
      var rest := Distinct(xs[..|xs| - 1]);
      assert xs == xs[..|xs| - 1] + [xs[|xs| - 1]];
      if xs[|xs| - 1] in rest then rest else rest + [xs[|xs| - 1]]
  }

  /** `xs.flatMap(f)`: the lists f gives for the elements, concatenated in order. */
  function FlatMap<T, U(!new)>(xs: seq<T>, f: T -> seq<U>): (r: seq<U>)
    ensures forall y :: y in r <==> exists j :: 0 <= j < |xs| && y in f(xs[j])
  {
    if xs == [] then []
    else
      var prefix := xs[..|xs| - 1];
      assert forall j :: 0 <= j < |prefix| ==> prefix[j] == xs[j];
      FlatMap(prefix, f) + f(xs[|xs| - 1])
  }
}
