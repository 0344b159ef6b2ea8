/** Sorted lists of distinct integers: `sorted(set(...))`. */
module SortedSets {

  predicate Increasing(xs: seq<nat>) {
    forall i, j :: 0 <= i < j < |xs| ==> xs[i] < xs[j]
  }

  function InsertSorted(xs: seq<nat>, x: nat): (r: seq<nat>)
    requires Increasing(xs)
    ensures Increasing(r)
    ensures forall y :: y in r <==> y == x || y in xs
  {
    if xs == [] then [x]
    else if x < xs[0] then [x] + xs
    else if x == xs[0] then xs
    else
      assert xs == [xs[0]] + xs[1..];
      var rest := InsertSorted(xs[1..], x);
      assert forall i :: 0 <= i < |rest| ==> rest[i] in rest && xs[0] < rest[i];
      [xs[0]] + rest
  }

  function SortedSet(xs: seq<nat>): (r: seq<nat>)
    ensures Increasing(r)
    ensures forall y :: y in r <==> y in xs
  {
    if xs == [] then []
    else
      assert xs == [xs[0]] + xs[1..];
      InsertSorted(SortedSet(xs[1..]), xs[0])
  }
}
