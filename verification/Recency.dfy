/** Lists of distinct keys in the order of their last use. */
module RecencyLists {
  import opened Lists

  function Without<K(==, !new)>(keys: seq<K>, k: K): (r: seq<K>)
    ensures forall x :: x in r <==> x in keys && x != k
  {
    if keys == [] then []
    else
      var rest := Without(keys[..|keys| - 1], k);
      if keys[|keys| - 1] == k then rest else rest + [keys[|keys| - 1]]
  }

  function Last<K>(keys: seq<K>, n: nat): seq<K> {
    if |keys| <= n then keys else keys[|keys| - n..]
  }

  /** The distinct keys of a history of uses, least recently used first. */
  function Recency<K(==, !new)>(uses: seq<K>): (r: seq<K>)
    ensures forall k :: k in r <==> k in uses
  {
    if uses == [] then []
    else
      var k := uses[|uses| - 1];
      Without(Recency(uses[..|uses| - 1]), k) + [k]
  }

  /** The position of a key's last use. */
  function LastUse<K(==)>(uses: seq<K>, k: K): (i: nat)
    requires k in uses
    ensures i < |uses| && uses[i] == k && forall j :: i < j < |uses| ==> uses[j] != k
  {
    if uses[|uses| - 1] == k then |uses| - 1 else LastUse(uses[..|uses| - 1], k)
  }

  ghost predicate Pairwise<K>(keys: seq<K>, r: (K, K) -> bool) {
    forall i, j :: 0 <= i < j < |keys| ==> r(keys[i], keys[j])
  }

  lemma {:induction false} WithoutKeepsPairs<K(!new)>(keys: seq<K>, k: K, r: (K, K) -> bool)
    requires Pairwise(keys, r)
    ensures Pairwise(Without(keys, k), r)
    decreases |keys|
  {
    if keys != [] {
      var front, last := keys[..|keys| - 1], keys[|keys| - 1];
      WithoutKeepsPairs(front, k, r);
      var rest := Without(front, k);
      forall i | 0 <= i < |rest|
        ensures r(rest[i], last)
      {
        assert rest[i] in front;
      }
    }
  }

  lemma {:induction false} WithoutAbsent<K(!new)>(keys: seq<K>, k: K)
    requires k !in keys
    ensures Without(keys, k) == keys
    decreases |keys|
  {
    if keys != [] {
      WithoutAbsent(keys[..|keys| - 1], k);
    }
  }

  lemma {:induction false} WithoutSplits<K(!new)>(a: seq<K>, b: seq<K>, k: K)
    ensures Without(a + b, k) == Without(a, k) + Without(b, k)
    decreases |b|
  {
    if b == [] {
      assert a + b == a;
    } else {
      assert (a + b)[..|a + b| - 1] == a + b[..|b| - 1];
      WithoutSplits(a, b[..|b| - 1], k);
    }
  }

  lemma WithoutOne<K(!new)>(k: K)
    ensures Without([k], k) == []
  {
  }

  lemma WithoutStaysDistinct<K(!new)>(keys: seq<K>, k: K)
    requires Distinct(keys)
    ensures Distinct(Without(keys, k))
  {
    hide Without;
    var differ := (x: K, y: K) => x != y;
    assert Pairwise(keys, differ);
    WithoutKeepsPairs(keys, k, differ);
    var r := Without(keys, k);
    assert forall i, j :: 0 <= i < j < |r| ==> differ(r[i], r[j]);
  }

  /** A distinct list loses its one copy of the key. */
  lemma WithoutAt<K(!new)>(keys: seq<K>, i: nat)
    requires Distinct(keys) && i < |keys|
    ensures Without(keys, keys[i]) == keys[..i] + keys[i + 1..]
  {
    hide Without;
    var k, a, b := keys[i], keys[..i], keys[i + 1..];
    assert keys == a + ([k] + b);
    WithoutSplits(a, [k] + b, k);
    WithoutSplits([k], b, k);
    WithoutOne(k);
    WithoutAbsent(a, k);
    WithoutAbsent(b, k);
  }

  lemma WithoutCounts<K(!new)>(keys: seq<K>, k: K)
    requires Distinct(keys)
    ensures |Without(keys, k)| == if k in keys then |keys| - 1 else |keys|
  {
    hide Without;
    if k in keys {
      var i :| 0 <= i < |keys| && keys[i] == k;
      WithoutAt(keys, i);
    } else {
      WithoutAbsent(keys, k);
    }
  }

  /** Recency lists each used key once, in the order of last uses. */
  lemma {:induction false} RecencyIsByLastUse<K(!new)>(uses: seq<K>)
    ensures Distinct(Recency(uses))
    ensures forall i, j :: 0 <= i < j < |Recency(uses)| ==>
      Recency(uses)[i] in uses && Recency(uses)[j] in uses
      && LastUse(uses, Recency(uses)[i]) < LastUse(uses, Recency(uses)[j])
    decreases |uses|
  {
    if uses != [] {
      var front, k := uses[..|uses| - 1], uses[|uses| - 1];
      RecencyIsByLastUse(front);
      var order := (x: K, y: K) => x in front && y in front && LastUse(front, x) < LastUse(front, y);
      WithoutKeepsPairs(Recency(front), k, order);
      var kept := Without(Recency(front), k);
      forall i | 0 <= i < |kept|
        ensures kept[i] in front && kept[i] != k && LastUse(uses, kept[i]) == LastUse(front, kept[i])
      {
        assert kept[i] in kept;
      }
      forall i, j | 0 <= i < j < |kept|
        ensures LastUse(uses, kept[i]) < LastUse(uses, kept[j])
      {
        assert order(kept[i], kept[j]);
      }
    }
  }

  lemma RecencyOfOneMore<K(!new)>(uses: seq<K>, k: K)
    ensures Recency(uses + [k]) == Without(Recency(uses), k) + [k]
  {
    assert (uses + [k])[..|uses|] == uses;
  }

  lemma LastIgnoresPrefix<K>(prefix: seq<K>, keys: seq<K>, n: nat)
    requires |keys| >= n || prefix == []
    ensures Last(prefix + keys, n) == Last(keys, n)
  {
    if prefix == [] {
      assert prefix + keys == keys;
    }
  }

  /** On a distinct list, dropping and re-appending a key commutes with taking the last n. */
  lemma WindowCommutes<K(!new)>(all: seq<K>, k: K, n: nat)
    requires Distinct(all)
    ensures Last(Without(all, k) + [k], n) == Last(Without(Last(all, n), k) + [k], n)
  {
    hide Without, Distinct;
    var window := Last(all, n);
    var prefix := all[..|all| - |window|];
    assert all == prefix + window;
    WithoutSplits(prefix, window, k);
    LastIsDistinct(all, n);
    WithoutCounts(window, k);
    var tail := Without(window, k) + [k];
    assert Without(all, k) + [k] == Without(prefix, k) + tail;
    if prefix == [] {
      WithoutAbsent(prefix, k);
    }
    LastIgnoresPrefix(Without(prefix, k), tail, n);
  }

  /** One more use: the window of the n most recent keys drops the key, appends it, and keeps its last n. */
  lemma WindowSlides<K(!new)>(uses: seq<K>, k: K, n: nat)
    ensures Last(Recency(uses + [k]), n) == Last(Without(Last(Recency(uses), n), k) + [k], n)
  {
    hide Without, Recency, Last;
    RecencyOfOneMore(uses, k);
    RecencyIsByLastUse(uses);
    WindowCommutes(Recency(uses), k, n);
  }

  lemma LastIsDistinct<K>(keys: seq<K>, n: nat)
    requires Distinct(keys)
    ensures Distinct(Last(keys, n)) && |Last(keys, n)| <= n
  {
  }

  /** A list at most one too long keeps all but possibly its first element. */
  lemma OverfullByOne<K>(keys: seq<K>, n: nat)
    requires |keys| <= n + 1
    ensures Last(keys, n) == if |keys| > n then keys[1..] else keys
  {
  }

  /** What one use of a key does to the window of the n most recent keys. */
  lemma Touched<K(!new)>(uses: seq<K>, k: K, n: nat)
    ensures var window := Last(Recency(uses), n);
      var touched := Without(window, k) + [k];
      && Last(Recency(uses + [k]), n) == (if |touched| > n then touched[1..] else touched)
      && (k in window ==> |touched| <= n)
      && (forall x :: x in touched <==> x in window || x == k)
      && (|touched| > n ==> forall x :: x in touched[1..] <==> x in touched && x != touched[0])
  {
    hide Recency, Without, Last, Distinct;
    var window := Last(Recency(uses), n);
    var touched := Without(window, k) + [k];
    RecencyIsByLastUse(uses);
    RecencyIsByLastUse(uses + [k]);
    RecencyOfOneMore(uses, k);
    WindowSlides(uses, k, n);
    LastIsDistinct(Recency(uses), n);
    WithoutCounts(window, k);
    WithoutStaysDistinct(window, k);
    OverfullByOne(touched, n);
    HeadOnlyOnce(Without(window, k), k);
  }

  lemma HeadOnlyOnce<K(!new)>(keys: seq<K>, k: K)
    requires Distinct(keys) && k !in keys
    ensures var t := keys + [k]; forall x :: x in t[1..] <==> x in t && x != t[0]
  {
    var t := keys + [k];
    assert t == [t[0]] + t[1..];
    forall i | 0 < i < |t|
      ensures t[i] != t[0]
    {
    }
  }

  lemma LastIsShort<K>(keys: seq<K>, n: nat)
    ensures |Last(keys, n)| <= n
  {
  }

  /** A first-in first-out queue of the last n insertions, and no key twice. */
  lemma QueueTurns<K(!new)>(inserted: seq<K>, key: K, n: nat)
    requires n > 0
    ensures var queue := Last(inserted, n);
      Last(inserted + [key], n) == (if |queue| == n then queue[1..] else queue) + [key]
  {
  }

  lemma QueueStaysDistinct<K(!new)>(queue: seq<K>, key: K)
    requires Distinct(queue) && key !in queue
    ensures Distinct(queue + [key])
    ensures queue != [] ==> Distinct(queue[1..] + [key])
    ensures queue != [] ==> forall x :: x in queue[1..] <==> x in queue && x != queue[0]
  {
    if queue != [] {
      assert queue == [queue[0]] + queue[1..];
      forall i | 0 < i < |queue|
        ensures queue[i] != queue[0]
      {
      }
    }
  }
}
