/** A stable sort by a strict weak order, as a list's `sort` and `sorted` give it. */
module StableSorts {

  /** A strict weak order: what a sort key of numbers or tuples induces. */
  ghost predicate Weak<T(!new)>(before: (T, T) -> bool) {
    && (forall x :: !before(x, x))
    && (forall x, y, z :: before(x, y) && before(y, z) ==> before(x, z))
    && (forall x, y, z :: before(x, z) ==> before(x, y) || before(y, z))
  }

  ghost predicate Ordered<T(!new)>(before: (T, T) -> bool, s: seq<T>) {
    forall i, j :: 0 <= i < j < |s| ==> !before(s[j], s[i])
  }

  /** Puts x in front of everything that does not have to precede it. */
  function Insert<T>(before: (T, T) -> bool, x: T, s: seq<T>): (r: seq<T>)
    ensures multiset(r) == multiset(s) + multiset{x}
  {
    if s == [] then [x]
    else if before(s[0], x) then
      assert s == [s[0]] + s[1..];
      [s[0]] + Insert(before, x, s[1..])
    else [x] + s
  }

  function Sorted<T>(before: (T, T) -> bool, s: seq<T>): (r: seq<T>)
    ensures multiset(r) == multiset(s)
    ensures |r| == |s|
  {
    if s == [] then [] else
      assert s == [s[0]] + s[1..];
      var r := Insert(before, s[0], Sorted(before, s[1..]));
      assert |multiset(r)| == |multiset(s)|;
      r
  }

  lemma {:induction false} InsertKeepsOrder<T(!new)>(before: (T, T) -> bool, x: T, s: seq<T>)
    requires Weak(before) && Ordered(before, s)
    ensures Ordered(before, Insert(before, x, s))
  {
    if s != [] && before(s[0], x) {
      InsertKeepsOrder(before, x, s[1..]);
      var rest := Insert(before, x, s[1..]);
      forall y | y in rest ensures !before(y, s[0]) {
        assert y in multiset(rest);
        assert y == x || y in s[1..];
      }
    }
  }

  lemma {:induction false} SortedIsOrdered<T(!new)>(before: (T, T) -> bool, s: seq<T>)
    requires Weak(before)
    ensures Ordered(before, Sorted(before, s))
  {
    if s != [] {
      SortedIsOrdered(before, s[1..]);
      InsertKeepsOrder(before, s[0], Sorted(before, s[1..]));
    }
  }

  function Filter<T>(p: T -> bool, s: seq<T>): seq<T> {
    if s == [] then [] else (if p(s[0]) then [s[0]] else []) + Filter(p, s[1..])
  }

  lemma {:induction false} FilterMembers<T(!new)>(p: T -> bool, s: seq<T>)
    ensures forall x :: x in Filter(p, s) <==> x in s && p(x)
  {
    if s != [] {
      FilterMembers(p, s[1..]);
    }
  }

  lemma {:induction false} FilterAppends<T(!new)>(p: T -> bool, s: seq<T>, t: seq<T>)
    ensures Filter(p, s + t) == Filter(p, s) + Filter(p, t)
  {
    if s == [] {
      assert s + t == t;
    } else {
      assert (s + t)[1..] == s[1..] + t;
      FilterAppends(p, s[1..], t);
    }
  }

  lemma FilterHead<T(!new)>(p: T -> bool, x: T, s: seq<T>)
    ensures Filter(p, [x] + s) == (if p(x) then [x] else []) + Filter(p, s)
  {
    assert ([x] + s)[1..] == s;
  }

  /** p picks elements none of which has to precede another. */
  ghost predicate Tied<T(!new)>(before: (T, T) -> bool, p: T -> bool) {
    forall x, y :: p(x) && p(y) ==> !before(x, y)
  }

  lemma {:induction false} InsertIsStable<T(!new)>(before: (T, T) -> bool, p: T -> bool, x: T, s: seq<T>)
    requires Tied(before, p)
    ensures Filter(p, Insert(before, x, s)) == Filter(p, [x] + s)
  {
    hide Filter;
    if s == [] || !before(s[0], x) {
      assert s == [] ==> [x] + s == [x];
    } else {
      var head, rest := s[0], s[1..];
      assert s == [head] + rest;
      InsertIsStable(before, p, x, rest);
      FilterHead(p, head, Insert(before, x, rest));
      FilterHead(p, x, rest);
      FilterHead(p, x, s);
      FilterHead(p, head, rest);
    }
  }

  /** Elements of one tie keep the order they came in. */
  lemma {:induction false} SortedIsStable<T(!new)>(before: (T, T) -> bool, p: T -> bool, s: seq<T>)
    requires Tied(before, p)
    ensures Filter(p, Sorted(before, s)) == Filter(p, s)
  {
    if s != [] {
      SortedIsStable(before, p, s[1..]);
      InsertIsStable(before, p, s[0], Sorted(before, s[1..]));
      FilterHead(p, s[0], Sorted(before, s[1..]));
    }
  }

  lemma {:induction false} OrderedIsFixed<T(!new)>(before: (T, T) -> bool, s: seq<T>)
    requires Ordered(before, s)
    ensures Sorted(before, s) == s
  {
    if s != [] {
      OrderedIsFixed(before, s[1..]);
      if |s| > 1 {
        assert !before(s[1], s[0]);
      }
    }
  }
}
