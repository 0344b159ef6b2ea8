/** The bounded first-in first-out memo shared by the swap-memo experiments. */
module SwapMemos {
  import opened Market
  import opened Lists
  import opened RecencyLists

  /** The new entry goes last; a full queue drops its oldest. */
  function Queue<T>(xs: seq<T>, maxsize: int, x: T): seq<T> {
    (if |xs| == maxsize && xs != [] then xs[1..] else xs) + [x]
  }

  class SwapMemo<K(==, !new), V> {
    const maxsize: int
    var values: map<K, V>
    var order: seq<K>
    var hits: nat
    var misses: nat
    ghost var inserted: seq<K>

    constructor (maxsize: int)
      ensures this.maxsize == maxsize && Valid() && values == map[] && inserted == [] && hits == misses == 0
    {
      this.maxsize := maxsize;
      values, order, inserted := map[], [], [];
      hits, misses := 0, 0;
    }

    /** `order` lists the keys of `values` once each: the last `maxsize` insertions, or all of them when the
        bound is negative, which no length ever equals. */
    ghost predicate Valid()
      reads this
    {
      && Distinct(order)
      && (forall k :: k in values <==> k in order)
      && order == (if maxsize < 0 then inserted else Last(inserted, maxsize))
    }

    method Clear()
      modifies this
      ensures Valid() && values == map[] && inserted == [] && hits == misses == 0
    {
      values, order, inserted := map[], [], [];
      hits, misses := 0, 0;
    }

    method Get(key: K) returns (r: Option<V>)
      modifies this`hits, this`misses
      ensures r == if key in values then Some(values[key]) else None
      ensures hits == old(hits) + (if r.Some? then 1 else 0) && misses == old(misses) + (if r.None? then 1 else 0)
    {
      if key !in values {
        misses := misses + 1;
        return None;
      }
      hits := hits + 1;
      r := Some(values[key]);
    }

    /** False stands for the IndexError of popping an empty list: a new key under capacity zero. */
    method Put(key: K, value: V) returns (ok: bool)
      requires Valid()
      modifies this`values, this`order, this`inserted
      ensures Valid()
      ensures ok <==> key in old(values) || maxsize != 0
      ensures !ok || key in old(values) ==> values == old(values) && inserted == old(inserted)
      ensures ok && key !in old(values) ==> inserted == old(inserted) + [key] && key in values && values[key] == value
      ensures order == if ok && key !in old(values) then Queue(old(order), maxsize, key) else old(order)
      ensures forall k :: k in values ==>
        (k == key && key !in old(values)) || (k in old(values) && values[k] == old(values)[k])
    {
      hide Last, Distinct;
      if key in values {
        return true;
      }
      QueueStaysDistinct(order, key);
      if maxsize >= 0 {
        LastIsShort(inserted, maxsize);
      }
      if maxsize > 0 {
        QueueTurns(inserted, key, maxsize);
      }
      if |order| == maxsize {
        if order == [] {
          return false;
        }
        values := values - {order[0]};
        order := order[1..];
      }
      order := order + [key];
      values := values[key := value];
      inserted := inserted + [key];
      ok := true;
    }
  }
}
