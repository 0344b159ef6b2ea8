/** Exact integer volumes of decoded swaps, in total and by block, pool, minute, size and direction. */
module SwapBuckets {
  import opened Lists
  import opened Market
  import opened StableSorts
  import opened SwapEvents

  /** The decimals of WETH over those of USDC: 10 to the power 12. */
  const SCALE := 1_000_000_000_000

  /** Count and volumes; the price is quote over base, scaled by the tokens' decimals, and absent without volume. */
  datatype Sums = Sums(count: nat, base: nat, quote: nat)
  {
    function Vwap(): Option<real> {
      if base > 0 then Some((quote * SCALE) as real / base as real) else None
    }
  }

  function Plus(a: Sums, b: Sums): Sums { Sums(a.count + b.count, a.base + b.base, a.quote + b.quote) }

  function One(s: Swap): Sums { Sums(1, s.trade.base, s.trade.quote) }

  function Total(swaps: seq<Swap>): Sums {
    if swaps == [] then Sums(0, 0, 0) else Plus(One(swaps[0]), Total(swaps[1..]))
  }

  function Towards(direction: Direction): Swap -> bool { (s: Swap) => s.trade.direction == direction }

  function Side(swaps: seq<Swap>, direction: Direction): Sums { Total(Filter(Towards(direction), swaps)) }

  datatype Bucket = Bucket(buy: Sums, sell: Sums, combined: Sums)

  /** The combined volumes are the two sides' added up; the combined count is the number of swaps. */
  function BucketOf(swaps: seq<Swap>): Bucket {
    var buy, sell := Side(swaps, BuyWeth), Side(swaps, SellWeth);
    Bucket(buy, sell, Sums(|swaps|, buy.base + sell.base, buy.quote + sell.quote))
  }

  function Share(p: Swap -> bool, s: Swap): Sums { if p(s) then One(s) else Sums(0, 0, 0) }

  /** Total of the swaps that satisfy p, as one more swap is put in front. */
  lemma TotalHead(p: Swap -> bool, s: Swap, rest: seq<Swap>)
    ensures Total(Filter(p, [s] + rest)) == Plus(Share(p, s), Total(Filter(p, rest)))
  {
    FilterHead(p, s, rest);
    hide Filter;
    var kept := Filter(p, rest);
    if p(s) {
      assert ([s] + kept)[1..] == kept;
    } else {
      assert Filter(p, [s] + rest) == kept;
    }
  }

  lemma NoSwaps(p: Swap -> bool)
    ensures Filter(p, []) == [] && Total([]) == Sums(0, 0, 0)
  {
  }

  lemma {:induction false} SidesAddUp(swaps: seq<Swap>)
    ensures Plus(Side(swaps, BuyWeth), Side(swaps, SellWeth)) == Total(swaps)
  {
    hide Filter, Total, Towards, Plus, Share, One;
    if swaps == [] {
      NoSwaps(Towards(BuyWeth));
      NoSwaps(Towards(SellWeth));
      PlusNothing(Sums(0, 0, 0));
    } else {
      var s, rest := swaps[0], swaps[1..];
      assert swaps == [s] + rest;
      SidesAddUp(rest);
      TotalHead(Towards(BuyWeth), s, rest);
      TotalHead(Towards(SellWeth), s, rest);
      OneSide(s, Side(rest, BuyWeth), Side(rest, SellWeth));
      TotalOneMore(s, rest);
    }
  }

  lemma TotalOneMore(s: Swap, rest: seq<Swap>)
    ensures Total([s] + rest) == Plus(One(s), Total(rest))
  {
    assert ([s] + rest)[1..] == rest;
  }

  lemma PlusNothing(a: Sums)
    ensures Plus(Sums(0, 0, 0), a) == a == Plus(a, Sums(0, 0, 0))
  {
  }

  lemma OneSide(s: Swap, buys: Sums, sells: Sums)
    ensures Plus(One(s), Plus(buys, sells)) ==
      Plus(Plus(Share(Towards(BuyWeth), s), buys), Plus(Share(Towards(SellWeth), s), sells))
  {
  }

  lemma {:induction false} SumsCount(swaps: seq<Swap>)
    ensures Total(swaps).count == |swaps|
  {
    if swaps != [] {
      SumsCount(swaps[1..]);
    }
  }

  /** The combined row of a bucket is the total of its swaps. */
  lemma CombinedIsTotal(swaps: seq<Swap>)
    ensures BucketOf(swaps).combined == Total(swaps)
  {
    hide Total, Side;
    SidesAddUp(swaps);
    SumsCount(swaps);
  }

  /** What the first n swaps of one direction come to, added up one by one. */
  function Tally(swaps: seq<Swap>, direction: Direction, n: nat): (int, int, int)
    requires n <= |swaps|
  {
    if n == 0 then (0, 0, 0)
    else
      var (count, base, quote) := Tally(swaps, direction, n - 1);
      var t := swaps[n - 1].trade;
      if t.direction == direction then (count + 1, base + t.base, quote + t.quote) else (count, base, quote)
  }

  /** The sides of a bucket hold the purchases and the sales of WETH, with their counts and volumes. */
  lemma SidesAreTallied(swaps: seq<Swap>)
    ensures var b, n := BucketOf(swaps), |swaps|;
      && (b.buy.count, b.buy.base, b.buy.quote) == Tally(swaps, BuyWeth, n)
      && (b.sell.count, b.sell.base, b.sell.quote) == Tally(swaps, SellWeth, n)
      && b.combined.count == n
  {
    assert swaps[..|swaps|] == swaps;
    SideIsTallied(swaps, BuyWeth, |swaps|);
    SideIsTallied(swaps, SellWeth, |swaps|);
  }

  lemma {:induction false} SideIsTallied(swaps: seq<Swap>, direction: Direction, n: nat)
    requires n <= |swaps|
    ensures var side := Side(swaps[..n], direction);
      (side.count, side.base, side.quote) == Tally(swaps, direction, n)
  {
    if n == 0 {
      NoSwaps(Towards(direction));
    } else {
      var s := swaps[n - 1];
      SideIsTallied(swaps, direction, n - 1);
      assert swaps[..n] == swaps[..n - 1] + [s];
      SideOneMore(swaps[..n - 1], s, direction);
      hide Side;
    }
  }

  lemma SideOneMore(swaps: seq<Swap>, s: Swap, direction: Direction)
    ensures Side(swaps + [s], direction) ==
      if s.trade.direction == direction then Plus(Side(swaps, direction), One(s)) else Side(swaps, direction)
  {
    var p := Towards(direction);
    FilterAppends(p, swaps, [s]);
    FilterHead(p, s, []);
    TotalAppends(Filter(p, swaps), s);
    NoSwaps(p);
    hide Total, Filter;
    assert p(s) <==> s.trade.direction == direction;
    assert [s] + [] == [s];
  }

  lemma {:induction false} TotalAppends(swaps: seq<Swap>, s: Swap)
    ensures Total(swaps + [s]) == Plus(Total(swaps), One(s))
    ensures Total(swaps + []) == Total(swaps)
  {
    assert swaps + [] == swaps;
    if swaps == [] {
      assert [] + [s] == [s] && [s][1..] == [];
    } else {
      TotalAppends(swaps[1..], s);
      assert (swaps + [s])[1..] == swaps[1..] + [s];
    }
  }

  // ---------------------------------------------------------------- buckets by a key

  function Keyed<K(==, !new)>(key: Swap -> K, k: K): Swap -> bool { (s: Swap) => key(s) == k }

  function Listed<K(==, !new)>(key: Swap -> K, keys: seq<K>): Swap -> bool { (s: Swap) => key(s) in keys }

  function Having<K(==, !new)>(swaps: seq<Swap>, key: Swap -> K, k: K): seq<Swap> { Filter(Keyed(key, k), swaps) }

  /** One bucket a key, empty ones included. */
  method Buckets<K(==, !new)>(swaps: seq<Swap>, key: Swap -> K, keys: seq<K>) returns (buckets: seq<Bucket>)
    ensures |buckets| == |keys|
    ensures forall i :: 0 <= i < |keys| ==> buckets[i] == BucketOf(Having(swaps, key, keys[i]))
    ensures Added(buckets) == SumOver(swaps, key, keys)
  {
    hide Filter, Total, BucketOf, SumOver, Added, Plus;
    NoBuckets(swaps, key);
    buckets := [];
    for i := 0 to |keys|
      invariant |buckets| == i
      invariant forall j :: 0 <= j < i ==> buckets[j] == BucketOf(Having(swaps, key, keys[j]))
      invariant Added(buckets) == SumOver(swaps, key, keys[..i])
    {
      assert keys[..i + 1] == keys[..i] + [keys[i]];
      var having := Having(swaps, key, keys[i]);
      CombinedIsTotal(having);
      OneMoreBucket(swaps, key, keys[..i], keys[i], buckets, BucketOf(having));
      buckets := buckets + [BucketOf(having)];
    }
    assert keys[..|keys|] == keys;
  }

  lemma NoBuckets<K(!new)>(swaps: seq<Swap>, key: Swap -> K)
    ensures Added([]) == SumOver(swaps, key, [])
  {
  }

  lemma OneMoreBucket<K(!new)>(swaps: seq<Swap>, key: Swap -> K, keys: seq<K>, k: K, buckets: seq<Bucket>, b: Bucket)
    ensures Added(buckets + [b]) == Plus(Added(buckets), b.combined)
    ensures SumOver(swaps, key, keys + [k]) == Plus(SumOver(swaps, key, keys), Total(Having(swaps, key, k)))
  {
    hide Filter, Total, Plus;
    assert (buckets + [b])[..|buckets|] == buckets && (keys + [k])[..|keys|] == keys;
  }

  ghost function Added(buckets: seq<Bucket>): Sums {
    if buckets == [] then Sums(0, 0, 0) else Plus(Added(buckets[..|buckets| - 1]), buckets[|buckets| - 1].combined)
  }

  ghost function SumOver<K(!new)>(swaps: seq<Swap>, key: Swap -> K, keys: seq<K>): Sums {
    if keys == [] then Sums(0, 0, 0)
    else Plus(SumOver(swaps, key, keys[..|keys| - 1]), Total(Having(swaps, key, keys[|keys| - 1])))
  }

  lemma KeyedIs<K(!new)>(key: Swap -> K, k: K, s: Swap)
    ensures Share(Keyed(key, k), s) == if key(s) == k then One(s) else Sums(0, 0, 0)
  {
  }

  lemma PlusSwaps(a: Sums, b: Sums, c: Sums, d: Sums)
    ensures Plus(Plus(a, c), Plus(b, d)) == Plus(Plus(a, b), Plus(c, d))
  {
  }

  /** A swap adds itself to the one bucket that has its key, if there is one. */
  lemma {:induction false} OneSwapOneBucket<K(!new)>(s: Swap, rest: seq<Swap>, key: Swap -> K, keys: seq<K>)
    requires Distinct(keys)
    ensures SumOver([s] + rest, key, keys) ==
      Plus(if key(s) in keys then One(s) else Sums(0, 0, 0), SumOver(rest, key, keys))
  {
    hide Filter, Total, Keyed, One, Share, Plus;
    PlusNothing(Sums(0, 0, 0));
    if keys != [] {
      var shorter, k := keys[..|keys| - 1], keys[|keys| - 1];
      assert keys == shorter + [k];
      OneSwapOneBucket(s, rest, key, shorter);
      TotalHead(Keyed(key, k), s, rest);
      KeyedIs(key, k, s);
      PlusSwaps(if key(s) in shorter then One(s) else Sums(0, 0, 0), if key(s) == k then One(s) else Sums(0, 0, 0),
                SumOver(rest, key, shorter), Total(Having(rest, key, k)));
      PlusNothing(One(s));
    }
  }

  /** Conservation: buckets by distinct keys add up to everything that has one of the keys. */
  lemma {:induction false} BucketsAddUp<K(!new)>(swaps: seq<Swap>, key: Swap -> K, keys: seq<K>)
    requires Distinct(keys)
    ensures SumOver(swaps, key, keys) == Total(Filter(Listed(key, keys), swaps))
  {
    if swaps == [] {
      EmptyBuckets(key, keys);
    } else {
      BucketsAddUp(swaps[1..], key, keys);
      assert swaps == [swaps[0]] + swaps[1..];
      hide Filter, Total, SumOver;
      OneSwapOneBucket(swaps[0], swaps[1..], key, keys);
      TotalHead(Listed(key, keys), swaps[0], swaps[1..]);
    }
  }

  lemma {:induction false} EmptyBuckets<K(!new)>(key: Swap -> K, keys: seq<K>)
    ensures SumOver([], key, keys) == Sums(0, 0, 0)
  {
    if keys != [] {
      EmptyBuckets(key, keys[..|keys| - 1]);
    }
  }

  lemma {:induction false} NoneMissing(swaps: seq<Swap>, p: Swap -> bool)
    ensures |Filter(p, swaps)| <= |swaps|
    ensures |Filter(p, swaps)| == |swaps| <==> (forall s :: s in swaps ==> p(s))
    ensures (forall s :: s in swaps ==> p(s)) ==> Filter(p, swaps) == swaps
  {
    if swaps != [] {
      NoneMissing(swaps[1..], p);
      assert swaps == [swaps[0]] + swaps[1..];
    }
  }

  /** The buckets add up to the totals exactly when every swap has one of the keys. */
  lemma NothingIsLostIff<K(!new)>(swaps: seq<Swap>, key: Swap -> K, keys: seq<K>)
    requires Distinct(keys)
    ensures SumOver(swaps, key, keys) == BucketOf(swaps).combined <==> forall s :: s in swaps ==> key(s) in keys
  {
    hide Filter, Total, SumOver;
    BucketsAddUp(swaps, key, keys);
    NoneMissing(swaps, Listed(key, keys));
    SumsCount(Filter(Listed(key, keys), swaps));
    SumsCount(swaps);
    CombinedIsTotal(swaps);
  }

  // ---------------------------------------------------------------- the buckets of the report

  function BlocksFrom(start: nat, end: nat): (blocks: seq<nat>)
    ensures forall b: nat :: b in blocks <==> start <= b <= end
    ensures Distinct(blocks)
    decreases end + 1 - start
  {
    if start > end then [] else
      var rest := BlocksFrom(start + 1, end);
      assert forall b :: b in rest ==> start < b;
      assert forall i :: 0 <= i < |rest| ==> rest[i] in rest;
      [start] + rest
  }

  /** Every block of the interval has a bucket, and together they hold all swaps. */
  lemma BlockBucketsConserve(setting: Setting, swaps: seq<Swap>)
    requires forall s :: s in swaps ==> Sound(setting, s)
    ensures SumOver(swaps, (s: Swap) => s.blockNumber, BlocksFrom(setting.start, setting.end)) ==
      BucketOf(swaps).combined
  {
    NothingIsLostIff(swaps, (s: Swap) => s.blockNumber, BlocksFrom(setting.start, setting.end));
  }

  lemma PoolBucketsConserve(setting: Setting, swaps: seq<Swap>, catalogue: seq<Contract>)
    requires forall s :: s in swaps ==> Sound(setting, s)
    requires Distinct(catalogue) && forall a :: a in setting.pools ==> a in catalogue
    ensures SumOver(swaps, (s: Swap) => s.pool, catalogue) == BucketOf(swaps).combined
  {
    NothingIsLostIff(swaps, (s: Swap) => s.pool, catalogue);
  }

  /** The four size bins, by WETH volume however it was rounded. */
  predicate InBin(bin: nat, weth: real) {
    match bin
    case 0 => weth < 1.0
    case 1 => 1.0 <= weth < 10.0
    case 2 => 10.0 <= weth < 100.0
    case _ => weth >= 100.0
  }

  function BinOf(weth: real): (bin: nat)
    ensures bin < 4 && forall b: nat :: b < 4 ==> (InBin(b, weth) <==> b == bin)
  {
    if weth < 1.0 then 0 else if weth < 10.0 then 1 else if weth < 100.0 then 2 else 3
  }

  lemma SizeBinsConserve(swaps: seq<Swap>, weth: Swap -> real)
    ensures SumOver(swaps, (s: Swap) => BinOf(weth(s)), [0, 1, 2, 3]) == BucketOf(swaps).combined
  {
    NothingIsLostIff(swaps, (s: Swap) => BinOf(weth(s)), [0, 1, 2, 3]);
  }

  lemma NoneHaving<K(!new)>(key: Swap -> K, k: K)
    ensures Having([], key, k) == []
  {
  }

  lemma HavingOneMore<K(!new)>(swaps: seq<Swap>, s: Swap, key: Swap -> K, k: K)
    ensures Having(swaps + [s], key, k) == Having(swaps, key, k) + if key(s) == k then [s] else []
  {
    FilterAppends(Keyed(key, k), swaps, [s]);
    FilterHead(Keyed(key, k), s, []);
  }

  function MinuteOf(s: Swap): Minute { s.minute }

  /** Groups the swaps by minute, each group in the order of the list. */
  method GroupByMinute(swaps: seq<Swap>) returns (groups: map<Minute, seq<Swap>>)
    ensures forall m :: (if m in groups then groups[m] else []) == Having(swaps, MinuteOf, m)
  {
    hide Having, Filter, MinuteOf;
    groups := map[];
    forall m ensures Having(swaps[..0], MinuteOf, m) == [] {
      NoneHaving(MinuteOf, m);
    }
    for i := 0 to |swaps|
      invariant forall m :: (if m in groups then groups[m] else []) == Having(swaps[..i], MinuteOf, m)
    {
      var s := swaps[i];
      var minute := MinuteOf(s);
      var group := if minute in groups then groups[minute] else [];
      groups := groups[minute := group + [s]];
      assert swaps[..i + 1] == swaps[..i] + [s];
      forall m
        ensures Having(swaps[..i + 1], MinuteOf, m) == Having(swaps[..i], MinuteOf, m) + if m == minute then [s] else []
      {
        HavingOneMore(swaps[..i], s, MinuteOf, m);
      }
    }
    assert swaps[..|swaps|] == swaps;
  }

  /** Minute buckets exist only for the listed minutes: they add up exactly when every swap falls in one of those. */
  lemma MinuteBucketsConserveIff(swaps: seq<Swap>, minutes: seq<Minute>)
    requires Distinct(minutes)
    ensures SumOver(swaps, MinuteOf, minutes) == BucketOf(swaps).combined
      <==> forall s :: s in swaps ==> s.minute in minutes
  {
    NothingIsLostIff(swaps, MinuteOf, minutes);
  }

  // ---------------------------------------------------------------- prices

  /** The price is whole USDC (6 decimals) a whole WETH (18 decimals). */
  lemma PriceIsUsdcPerWeth(sums: Sums)
    requires sums.base > 0
    ensures sums.Vwap().Some?
    ensures sums.Vwap().value * (sums.base as real / 1_000_000_000_000_000_000.0) == sums.quote as real / 1_000_000.0
  {
    var base := sums.base as real;
    assert (sums.quote * SCALE) as real == sums.quote as real * 1_000_000_000_000.0;
    assert sums.Vwap().value * base == (sums.quote * SCALE) as real;
  }

  /** The price, if there is one, lies between lo and hi: multiplied out, so that it also speaks about no volume. */
  predicate Within(sums: Sums, lo: real, hi: real) {
    lo * sums.base as real <= (sums.quote * SCALE) as real <= hi * sums.base as real
  }

  lemma WithinIsBetween(sums: Sums, lo: real, hi: real)
    requires sums.base > 0
    ensures Within(sums, lo, hi) <==> lo <= sums.Vwap().value <= hi
  {
    var base, quote := sums.base as real, (sums.quote * SCALE) as real;
    var price := sums.Vwap().value;
    assert price * base == quote;
    Scale(lo, price, base);
    Scale(price, hi, base);
  }

  lemma Scale(a: real, b: real, c: real)
    requires c > 0.0
    ensures a * c <= b * c <==> a <= b
  {
    assert b * c - a * c == (b - a) * c;
  }

  lemma WithinAdds(a: Sums, b: Sums, lo: real, hi: real)
    requires Within(a, lo, hi) && Within(b, lo, hi)
    ensures Within(Plus(a, b), lo, hi)
  {
    var c := Plus(a, b);
    assert (c.quote * SCALE) as real == (a.quote * SCALE) as real + (b.quote * SCALE) as real;
    assert lo * c.base as real == lo * a.base as real + lo * b.base as real;
    assert hi * c.base as real == hi * a.base as real + hi * b.base as real;
  }

  /** A total has a price exactly when it has a swap. */
  lemma {:induction false} PricedIffNotEmpty(swaps: seq<Swap>)
    requires forall s :: s in swaps ==> s.trade.base > 0
    ensures Total(swaps).Vwap().None? <==> swaps == []
    ensures Total(swaps).Vwap().None? ==> Total(swaps) == Sums(0, 0, 0)
  {
    if swaps != [] {
      PricedIffNotEmpty(swaps[1..]);
    }
  }

  lemma BucketIsWithin<K(!new)>(swaps: seq<Swap>, key: Swap -> K, k: K, lo: real, hi: real)
    requires forall s :: s in swaps ==> s.trade.base > 0
    requires var sums := Total(Having(swaps, key, k));
      sums.Vwap().Some? ==> lo <= sums.Vwap().value <= hi
    ensures Within(Total(Having(swaps, key, k)), lo, hi)
  {
    hide Total;
    FilterMembers(Keyed(key, k), swaps);
    PricedIffNotEmpty(Having(swaps, key, k));
    if Total(Having(swaps, key, k)).base > 0 {
      WithinIsBetween(Total(Having(swaps, key, k)), lo, hi);
    }
  }

  lemma {:induction false} SumIsWithin<K(!new)>(swaps: seq<Swap>, key: Swap -> K, keys: seq<K>, lo: real, hi: real)
    requires forall k :: k in keys ==> Within(Total(Having(swaps, key, k)), lo, hi)
    ensures Within(SumOver(swaps, key, keys), lo, hi)
  {
    hide Total, Having, Plus;
    if keys != [] {
      var shorter, k := keys[..|keys| - 1], keys[|keys| - 1];
      SumIsWithin(swaps, key, shorter, lo, hi);
      hide Within;
      WithinAdds(SumOver(swaps, key, shorter), Total(Having(swaps, key, k)), lo, hi);
    }
  }

  /** The combined price lies between any bounds of the priced buckets' prices, hence between the least and the
      greatest. */
  lemma CombinedPriceLiesBetween<K(!new)>(swaps: seq<Swap>, key: Swap -> K, keys: seq<K>, lo: real, hi: real)
    requires forall s :: s in swaps ==> s.trade.base > 0
    requires Distinct(keys) && forall s :: s in swaps ==> key(s) in keys
    requires forall k :: k in keys ==>
      var sums := Total(Having(swaps, key, k)); sums.Vwap().Some? ==> lo <= sums.Vwap().value <= hi
    ensures BucketOf(swaps).combined.Vwap().None? <==> swaps == []
    ensures swaps != [] ==> lo <= BucketOf(swaps).combined.Vwap().value <= hi
  {
    hide Total, Having, SumOver, Within;
    forall k | k in keys ensures Within(Total(Having(swaps, key, k)), lo, hi) {
      BucketIsWithin(swaps, key, k, lo, hi);
    }
    SumIsWithin(swaps, key, keys, lo, hi);
    NothingIsLostIff(swaps, key, keys);
    CombinedIsTotal(swaps);
    PricedIffNotEmpty(swaps);
    if swaps != [] {
      WithinIsBetween(Total(swaps), lo, hi);
    }
  }
}
