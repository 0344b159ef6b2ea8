/** Lists without repeats. */
module Lists {

  ghost predicate Distinct<T>(xs: seq<T>) {
    forall i, j :: 0 <= i < j < |xs| ==> xs[i] != xs[j]
  }

  lemma AppendDistinct<T>(xs: seq<T>, x: T)
    requires Distinct(xs) && x !in xs
    ensures Distinct(xs + [x])
  {
    forall i | 0 <= i < |xs|
      ensures xs[i] != x
    {
      assert xs[i] in xs;
    }
  }

  lemma {:induction false} CountedOnce<T>(xs: seq<T>, x: T)
    requires Distinct(xs)
    ensures multiset(xs)[x] == if x in xs then 1 else 0
  {
    if xs != [] {
      var front := xs[..|xs| - 1];
      assert xs == front + [xs[|xs| - 1]];
      CountedOnce(front, x);
    }
  }

  lemma CountedTwice<T>(xs: seq<T>, i: nat, j: nat)
    requires i < j < |xs| && xs[i] == xs[j]
    ensures multiset(xs)[xs[i]] >= 2
  {
    assert xs == xs[..j] + xs[j..];
    assert xs[i] == xs[..j][i] && xs[i] == xs[j..][0];
    assert xs[i] in xs[..j] && xs[i] in xs[j..];
  }

  /** A list is a permutation of a duplicate-free one exactly when it is duplicate-free and has the same elements. */
  lemma PermutationsShareElements<T(!new)>(a: seq<T>, b: seq<T>)
    requires Distinct(b)
    ensures multiset(a) == multiset(b) <==> Distinct(a) && (forall x :: x in a <==> x in b)
  {
    if multiset(a) == multiset(b) {
      forall x ensures x in a <==> x in b {
        assert x in multiset(a) <==> x in multiset(b);
      }
      forall i, j | 0 <= i < j < |a| ensures a[i] != a[j] {
        if a[i] == a[j] {
          CountedTwice(a, i, j);
          CountedOnce(b, a[i]);
        }
      }
    }
    if Distinct(a) && forall x :: x in a <==> x in b {
      forall x ensures multiset(a)[x] == multiset(b)[x] {
        CountedOnce(a, x);
        CountedOnce(b, x);
      }
    }
  }

  function AddNew<T(==)>(items: seq<T>, item: T): seq<T> {
    if item in items then items else items + [item]
  }

  lemma AddNewAdds<T>(items: seq<T>, item: T)
    ensures forall x :: x in AddNew(items, item) <==> x in items || x == item
    ensures Distinct(items) ==> Distinct(AddNew(items, item))
  {
    if Distinct(items) && item !in items {
      AppendDistinct(items, item);
    }
  }
}
