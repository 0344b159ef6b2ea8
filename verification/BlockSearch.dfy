/** Finding the block of a timestamp: the bracketed interpolation search, and the two resolvers built on it. */
module BlockSearch {
  import opened Market

  /** A chain of blocks 0, 1, ... with their timestamps; a node has no other block. */
  type Chain = seq<int>

  ghost predicate Monotone(chain: Chain) {
    forall i, j :: 0 <= i <= j < |chain| ==> chain[i] <= chain[j]
  }

  predicate Exists(chain: Chain, number: int) {
    0 <= number < |chain|
  }

  /** `BlockFailure` is the node's error for a number it does not have; the other two are the scripts' own errors. */
  datatype Outcome<T> = Done(value: T) | BlockFailure | SearchError | BoundsViolated

  /** The greatest block not after the target, with its successor. */
  predicate Pins(chain: Chain, number: int, target: int) {
    Exists(chain, number) && Exists(chain, number + 1) && chain[number] <= target < chain[number + 1]
  }

  lemma PinIsGreatest(chain: Chain, number: int, target: int)
    requires Monotone(chain) && Pins(chain, number, target)
    ensures forall n :: 0 <= n < |chain| && chain[n] <= target ==> n <= number
    ensures forall n :: Pins(chain, n, target) ==> n == number
  {
  }

  /** Going down by 20 from `low` meets an existing block at or before the target. */
  predicate LowReachable(chain: Chain, target: int, low: int, step: int)
    requires step > 0
  {
    Exists(chain, low) && chain[low % step] <= target
  }

  /** Going up by 20 from `high` meets an existing block after the target. */
  predicate HighReachable(chain: Chain, target: int, high: int) {
    Exists(chain, high) && chain[high + 20 * ((|chain| - 1 - high) / 20)] > target
  }

  /** Some number of steps down from the bound, or none, meets such a block, exactly if the lowest reachable one is. */
  lemma LowReachableIff(chain: Chain, target: int, low: int, step: int)
    requires Monotone(chain) && step in {20, 50}
    ensures LowReachable(chain, target, low, step) <==>
      Exists(chain, low) && exists n :: StepsDown(chain, target, low, step, n)
  {
    if LowReachable(chain, target, low, step) {
      if step == 20 {
        assert low - 20 * (low / 20) == low % 20;
      } else {
        assert low - 50 * (low / 50) == low % 50;
      }
      assert StepsDown(chain, target, low, step, low / step);
    }
    if n :| Exists(chain, low) && StepsDown(chain, target, low, step, n) {
      LeastIsLowest(low, step, n);
      assert chain[low % step] <= chain[low - step * n];
    }
  }

  predicate StepsDown(chain: Chain, target: int, low: int, step: int, n: int) {
    n >= 0 && Exists(chain, low - step * n) && chain[low - step * n] <= target
  }

  lemma {:induction false} LeastIsLowest(low: nat, step: nat, n: nat)
    requires step in {20, 50} && low - step * n >= 0
    ensures 0 <= low % step <= low - step * n
  {
    if n == 0 {
      if step == 20 {
        assert low % 20 <= low;
      } else {
        assert low % 50 <= low;
      }
    } else {
      assert step * n == step * (n - 1) + step && step * (n - 1) >= 0;
      ModStep(low, step);
      LeastIsLowest(low - step, step, n - 1);
    }
  }

  /** Some number of steps of 20 up from the bound, or none, meets a later block, exactly if the highest one is. */
  lemma HighReachableIff(chain: Chain, target: int, high: int)
    requires Monotone(chain)
    ensures HighReachable(chain, target, high) <==>
      Exists(chain, high) && exists n :: StepsUp(chain, target, high, n)
  {
    if HighReachable(chain, target, high) {
      assert StepsUp(chain, target, high, (|chain| - 1 - high) / 20);
    }
    if n :| Exists(chain, high) && StepsUp(chain, target, high, n) {
      assert chain[high + 20 * n] <= chain[high + 20 * ((|chain| - 1 - high) / 20)];
    }
  }

  predicate StepsUp(chain: Chain, target: int, high: int, n: int) {
    n >= 0 && Exists(chain, high + 20 * n) && chain[high + 20 * n] > target
  }

  /** The last block not after the target, or -1. */
  function LastAtMost(chain: Chain, target: int): (number: int)
    ensures -1 <= number < |chain|
    ensures number >= 0 ==> chain[number] <= target
    ensures forall n :: number < n < |chain| ==> chain[n] > target
  {
    if chain == [] then -1
    else if chain[|chain| - 1] <= target then |chain| - 1
    else LastAtMost(chain[..|chain| - 1], target)
  }

  /** What is computed in floating point, arbitrary here: a first guess from the cache (or a hint, or the merge), and
      its calibration by the guessed block's timestamp. */
  datatype Estimator = Estimator(guess: (map<int, int>, int) -> int, calibrate: (int, int, int) -> int)

  /** `_estimate_bracket`: 40 blocks on either side of the calibrated guess, or None where the guess does not exist. */
  function FirstBracket(chain: Chain, known: map<int, int>, target: int, estimator: Estimator): Option<(int, int)> {
    var guess := estimator.guess(known, target);
    if !Exists(chain, guess) then None
    else
      var calibrated := AtLeastOne(estimator.calibrate(guess, chain[guess], target));
      Some((AtLeastOne(calibrated - 40), calibrated + 40))
  }

  function AtLeastOne(n: int): int { if n < 1 then 1 else n }

  /** Target i can be bracketed: the first from its estimate, a later one from the pin before it, by stepping up from
      100 blocks further. */
  predicate Bracketed(chain: Chain, known: map<int, int>, targets: seq<int>, estimator: Estimator, i: nat)
    requires i < |targets|
  {
    if i > 0 then HighReachable(chain, targets[i], LastAtMost(chain, targets[i - 1]) + 100)
    else match FirstBracket(chain, known, targets[0], estimator)
      case None => false
      case Some((low, high)) => LowReachable(chain, targets[0], low, 20) && HighReachable(chain, targets[0], high)
  }

  ghost predicate Resolvable(chain: Chain, known: map<int, int>, targets: seq<int>, estimator: Estimator) {
    forall i :: 0 <= i < |targets| ==> Bracketed(chain, known, targets, estimator, i)
  }

  /** Near the head of the chain the probe 100 blocks up fails although every target has its pin. */
  lemma PinnedTargetsCanFail()
    ensures exists chain: Chain, first, second, estimator ::
      && Monotone(chain) && first < second
      && Pins(chain, LastAtMost(chain, first), first) && Pins(chain, LastAtMost(chain, second), second)
      && Resolvable(chain, map[], [first], estimator) && !Resolvable(chain, map[], [first, second], estimator)
  {
    var chain: Chain := seq(120, i => i);
    var estimator := Estimator((known, target) => 50, (guess, time, target) => 50);
    assert chain[50] == 50 && chain[51] == 51 && LastAtMost(chain, 50) == 50;
    assert chain[60] == 60 && chain[61] == 61 && LastAtMost(chain, 60) == 60;
    assert FirstBracket(chain, map[], 50, estimator) == Some((10, 90));
    assert LowReachable(chain, 50, 10, 20) && HighReachable(chain, 50, 90);
    var both := [50, 60];
    assert !Bracketed(chain, map[], both, estimator, 1) && Bracketed(chain, map[], [50], estimator, 0);
    assert Resolvable(chain, map[], [50], estimator) && !Resolvable(chain, map[], both, estimator);
  }

  lemma ModStep(low: int, step: int)
    requires step in {20, 50} && low >= step
    ensures (low - step) % step == low % step
  {
    if step == 20 {
      assert (low - 20) % 20 == low % 20;
    } else {
      assert (low - 50) % 50 == low % 50;
    }
  }

  lemma DivStep(room: int)
    requires room >= 20
    ensures (room - 20) / 20 == room / 20 - 1
  {
  }

  lemma SmallMod(low: int, step: int)
    requires 0 <= low < step
    ensures low % step == low
  {
  }

  /** The shared header cache with its node. */
  class HeaderCache {
    const chain: Chain
    var known: map<int, int>

    constructor (chain: Chain, known: map<int, int>)
      requires forall n :: n in known ==> Exists(chain, n) && known[n] == chain[n]
      ensures this.chain == chain && this.known == known && Valid()
    {
      this.chain, this.known := chain, known;
    }

    /** The cache agrees with the chain. */
    ghost predicate Valid()
      reads this
    {
      forall n :: n in known ==> Exists(chain, n) && known[n] == chain[n]
    }

    /** `_get`: a block's timestamp, or None where the node fails. */
    method Get(number: int) returns (time: Option<int>)
      requires Valid()
      modifies this`known
      ensures Valid() && old(known).Keys <= known.Keys
      ensures time == if Exists(chain, number) then Some(chain[number]) else None
    {
      if number !in known {
        if !Exists(chain, number) {
          return None;
        }
        known := known[number := chain[number]];
      }
      time := Some(known[number]);
    }

    /** The first loop: step down until a block is not after the target, by 20 in the search and by 50 in the
        resolver of the recent day. */
    method LowerBound(target: int, from: int, step: int) returns (low: Option<int>)
      requires Valid() && Monotone(chain) && step in {20, 50}
      modifies this`known
      ensures Valid()
      ensures low.Some? <==> LowReachable(chain, target, from, step)
      ensures low.Some? ==> Exists(chain, low.value) && chain[low.value] <= target && low.value <= from
      ensures low.Some? && Exists(chain, from) && chain[from] <= target ==> low.value == from
    {
      var at := from;
      var time := Get(at);
      if time.None? {
        return None;
      }
      while time.value > target
        invariant Valid() && Exists(chain, at) && at <= from && time == Some(chain[at])
        invariant at % step == from % step
        invariant at < from ==> chain[from] > target
        decreases at
      {
        if at < step {
          SmallMod(at, step);
          NegativeFails(at - step);
        } else {
          ModStep(at, step);
        }
        at := at - step;
        time := Get(at);
        if time.None? {
          return None;
        }
      }
      assert chain[from % step] <= chain[at] by {
        assert 0 <= at % step <= at;
      }
      low := Some(at);
    }

    lemma NegativeFails(number: int)
      requires number < 0
      ensures !Exists(chain, number)
    {
    }

    /** The second loop: step up until a block is after the target. */
    method UpperBound(target: int, from: int) returns (high: Option<int>)
      requires Valid() && Monotone(chain)
      modifies this`known
      ensures Valid()
      ensures high.Some? <==> HighReachable(chain, target, from)
      ensures high.Some? ==> Exists(chain, high.value) && chain[high.value] > target
    {
      var at := from;
      var time := Get(at);
      if time.None? {
        return None;
      }
      var last := |chain| - 1;
      while time.value <= target
        invariant Valid() && Exists(chain, at) && time == Some(chain[at])
        invariant at + 20 * ((last - at) / 20) == from + 20 * ((last - from) / 20)
        decreases last - at
      {
        if last - at >= 20 {
          DivStep(last - at);
        } else {
          assert (last - at) / 20 == 0;
        }
        at := at + 20;
        time := Get(at);
        if time.None? {
          return None;
        }
      }
      assert chain[at] <= chain[at + 20 * ((last - at) / 20)];
      high := Some(at);
    }

    /** The interpolation loop. The guess is arbitrary before it is clamped. The upper bound's meaning weakens as
        it moves: at first the block itself is after the target, later its successor is. */
    method Narrow(target: int, from: int, to: int) returns (r: Outcome<int>)
      requires Valid() && Monotone(chain) && Exists(chain, from) && Exists(chain, to)
        && chain[from] <= target < chain[to]
      modifies this`known
      ensures Valid() && r.Done? && Pins(chain, r.value, target)
      ensures from <= r.value
    {
      var low, high := from, to;
      while low <= high
        invariant Valid() && from <= low <= high <= to
        invariant chain[low] <= target
        invariant high == to || (high < to && target < chain[high + 1])
        decreases high - low
      {
        var bLow := Get(low);
        var bLowNext := Get(low + 1);
        assert bLow.Some? && bLowNext.Some?;
        if bLow.value <= target < bLowNext.value {
          return Done(low);
        }
        assert low + 1 <= high;
        var guess: int := *;
        guess := Clamp(low, high, guess);
        var bHigh := Get(high);
        var bGuess := Get(guess);
        var bGuessNext := Get(guess + 1);
        assert bHigh.Some? && bGuess.Some? && bGuessNext.Some?;
        if bGuess.value <= target < bGuessNext.value {
          return Done(guess);
        } else if bGuess.value <= target {
          low := guess + 1;
        } else {
          high := guess - 1;
        }
      }
      r := SearchError;
    }

    function Clamp(low: int, high: int, guess: int): int {
      var inner := if high - 1 <= guess then high - 1 else guess;
      if low + 1 >= inner then low + 1 else inner
    }

    /** `find_block_for_target`: it succeeds exactly when both bracketing loops can reach their side of the target
        by steps of 20 within the chain, and then pins the target; its own final error is unreachable. */
    method FindBlock(target: int, lowBound: int, highBound: int) returns (r: Outcome<int>)
      requires Valid() && Monotone(chain)
      modifies this`known
      ensures Valid()
      ensures r.Done? <==> LowReachable(chain, target, lowBound, 20) && HighReachable(chain, target, highBound)
      ensures r.Done? || r.BlockFailure?
      ensures r.Done? ==> Pins(chain, r.value, target)
      ensures r.Done? && Exists(chain, lowBound) && chain[lowBound] <= target ==> lowBound <= r.value
    {
      var low := LowerBound(target, lowBound, 20);
      if low.None? {
        return BlockFailure;
      }
      var high := UpperBound(target, highBound);
      if high.None? {
        return BlockFailure;
      }
      r := Narrow(target, low.value, high.value);
    }

    method EstimateBracket(target: int, estimator: Estimator) returns (bracket: Option<(int, int)>)
      requires Valid()
      modifies this`known
      ensures Valid()
      ensures bracket == FirstBracket(chain, old(known), target, estimator)
    {
      var guess := estimator.guess(known, target);
      var probe := Get(guess);
      if probe.None? {
        return None;
      }
      var calibrated := AtLeastOne(estimator.calibrate(guess, probe.value, target));
      bracket := Some((AtLeastOne(calibrated - 40), calibrated + 40));
    }

    /** One turn of the shared resolver: the search, and its check of the bounds, which cannot fail. */
    method ResolveOne(target: int, low: int, high: int) returns (r: Outcome<int>)
      requires Valid() && Monotone(chain)
      modifies this`known
      ensures Valid()
      ensures r.Done? <==> LowReachable(chain, target, low, 20) && HighReachable(chain, target, high)
      ensures r.Done? || r.BlockFailure?
      ensures r.Done? ==> Pins(chain, r.value, target)
      ensures r.Done? && Exists(chain, low) && chain[low] <= target ==> low <= r.value
    {
      hide LowReachable, HighReachable;
      r := FindBlock(target, low, high);
      if !r.Done? {
        return BlockFailure;
      }
      var time := Get(r.value);
      var next := Get(r.value + 1);
      if !(time.value <= target < next.value) {
        return BoundsViolated;
      }
    }

    /** `resolve_target_blocks_shared` over increasing targets. It succeeds exactly when the first target can be
        bracketed from its estimate and each later one by stepping up from the pin before; then each pin is exact and
        the chosen numbers never go down. Each carried lower bound is already at or before the next target, and
        neither error of the scripts can occur. */
    method ResolveShared(targets: seq<int>, estimator: Estimator) returns (r: Outcome<seq<int>>)
      requires Valid() && Monotone(chain)
      requires forall i, j :: 0 <= i < j < |targets| ==> targets[i] < targets[j]
      modifies this`known
      ensures Valid() && (r.Done? || r.BlockFailure?)
      ensures r.Done? <==> Resolvable(chain, old(known), targets, estimator)
      ensures r.Done? ==> |r.value| == |targets|
      ensures r.Done? ==> forall i :: 0 <= i < |targets| ==> Pins(chain, r.value[i], targets[i])
      ensures r.Done? ==> forall i, j :: 0 <= i < j < |targets| ==> r.value[i] <= r.value[j]
    {
      hide Bracketed, LowReachable, HighReachable, LastAtMost, FirstBracket, Monotone;
      var chosen: seq<int> := [];
      if targets == [] {
        return Done([]);
      }
      var bracket := EstimateBracket(targets[0], estimator);
      if bracket.None? {
        assert !Bracketed(chain, old(known), targets, estimator, 0) by {
          FirstIsBracketed(old(known), targets, estimator);
        }
        return BlockFailure;
      }
      var low, high := bracket.value.0, bracket.value.1;
      FirstIsBracketed(old(known), targets, estimator);
      var i := 0;
      while i < |targets|
        invariant 0 <= i <= |targets| && |chosen| == i && Valid()
        invariant forall k :: 0 <= k < i ==> Pins(chain, chosen[k], targets[k])
        invariant forall k, l :: 0 <= k < l < i ==> chosen[k] <= chosen[l]
        invariant i == 0 ==> bracket == Some((low, high))
        invariant i > 0 ==> low == chosen[i - 1] && high == low + 100
        invariant forall k :: 0 <= k < i ==> Bracketed(chain, old(known), targets, estimator, k)
      {
        if i > 0 {
          NextIsBracketed(old(known), targets, estimator, i, low);
        }
        var found := ResolveOne(targets[i], low, high);
        if !found.Done? {
          return if found.BoundsViolated? then BoundsViolated else BlockFailure;
        }
        low, high := found.value, found.value + 100;
        chosen := chosen + [found.value];
        i := i + 1;
      }
      r := Done(chosen);
    }

    lemma FirstIsBracketed(known: map<int, int>, targets: seq<int>, estimator: Estimator)
      requires targets != []
      ensures Bracketed(chain, known, targets, estimator, 0) <==>
        var bracket := FirstBracket(chain, known, targets[0], estimator);
        bracket.Some? && LowReachable(chain, targets[0], bracket.value.0, 20)
          && HighReachable(chain, targets[0], bracket.value.1)
    {
    }

    /** From the pin before, the low side is always there, so only the high side decides. */
    lemma NextIsBracketed(known: map<int, int>, targets: seq<int>, estimator: Estimator, i: nat, number: int)
      requires Monotone(chain) && 0 < i < |targets| && targets[i - 1] < targets[i]
        && Pins(chain, number, targets[i - 1])
      ensures LowReachable(chain, targets[i], number, 20) && Exists(chain, number) && chain[number] <= targets[i]
      ensures Bracketed(chain, known, targets, estimator, i) <==> HighReachable(chain, targets[i], number + 100)
    {
      PinsCarry(number, targets[i - 1], targets[i]);
    }

    /** The pin of a target is its last block, and a valid lower bound for any later target. */
    lemma PinsCarry(number: int, target: int, later: int)
      requires Monotone(chain) && Pins(chain, number, target) && target < later
      ensures LastAtMost(chain, target) == number && chain[number] <= later
      ensures LowReachable(chain, later, number, 20)
    {
      assert chain[number % 20] <= chain[number];
    }

    /** A search between a block at or before the target and one after it cannot fail. */
    method PinBefore(target: int, low: int, high: int) returns (number: int)
      requires Valid() && Monotone(chain) && Exists(chain, low) && Exists(chain, high)
        && chain[low] <= target < chain[high]
      modifies this`known
      ensures Valid() && Pins(chain, number, target) && low <= number < high
    {
      assert chain[low % 20] <= chain[low];
      assert chain[high] <= chain[high + 20 * ((|chain| - 1 - high) / 20)];
      var found := FindBlock(target, low, high);
      number := found.value;
    }

    /** `resolve_145_target_blocks` for `count` targets, `step` seconds apart, that end at the anchor block: it
        succeeds exactly when stepping down by 50 from its estimate reaches the oldest target within the chain. */
    method ResolveRecent(anchor: int, step: int, count: int) returns (r: Outcome<seq<int>>)
      requires Valid() && Monotone(chain) && Exists(chain, anchor) && step > 0 && count >= 1
      modifies this`known
      ensures Valid() && (r.Done? || r.BlockFailure?)
      ensures r.Done? <==> LowReachable(chain, RecentTarget(anchor, step, count, 0), Estimate(anchor, step, count), 50)
      ensures r.Done? ==> |r.value| == count && r.value[count - 1] == anchor
      ensures r.Done? ==> forall i :: 0 <= i < count - 1 ==>
        Pins(chain, r.value[i], RecentTarget(anchor, step, count, i))
      ensures r.Done? ==> forall i, j :: 0 <= i < j < count ==> r.value[i] <= r.value[j]
    {
      hide RecentTarget, Estimate, LowReachable;
      var oldest := LowerBound(RecentTarget(anchor, step, count, 0), Estimate(anchor, step, count), 50);
      if oldest.None? {
        return BlockFailure;
      }
      var chosen: seq<int> := [];
      var currentLow := oldest.value;
      var i := 0;
      while i < count
        invariant 0 <= i <= count && |chosen| == i && Valid()
        invariant forall k :: 0 <= k < i && k < count - 1 ==>
          Pins(chain, chosen[k], RecentTarget(anchor, step, count, k))
        invariant forall k, l :: 0 <= k < l < i ==> chosen[k] <= chosen[l]
        invariant i == count ==> chosen[count - 1] == anchor
        invariant i < count ==> Exists(chain, currentLow) && chain[currentLow] <= RecentTarget(anchor, step, count, i)
        invariant i < count ==> forall k :: 0 <= k < i ==> chosen[k] <= currentLow
        invariant 0 < i < count ==> currentLow < anchor
      {
        var target := RecentTarget(anchor, step, count, i);
        if i == count - 1 {
          chosen := chosen + [anchor];
        } else {
          TargetsIncrease(anchor, step, count, i);
          currentLow := PinBefore(target, currentLow, anchor);
          chosen := chosen + [currentLow];
        }
        i := i + 1;
      }
      r := Done(chosen);
    }

    function RecentTarget(anchor: int, step: int, count: int, i: int): int
      requires Exists(chain, anchor)
    {
      chain[anchor] - (count - 1 - i) * step
    }

    function Estimate(anchor: int, step: int, count: int): int {
      anchor - (count * step) / 12 - 100
    }

    /** On a chain whose blocks are at least 12 seconds apart the estimate is at least 1,189 seconds before the oldest
        target, so that stepping down starts where it may end. */
    lemma EstimateIsEarly(anchor: int, step: int, count: int)
      requires Exists(chain, anchor) && step > 0 && count >= 1
      requires forall n :: 0 < n < |chain| ==> chain[n] - chain[n - 1] >= 12
      ensures Exists(chain, Estimate(anchor, step, count)) ==>
        && chain[Estimate(anchor, step, count)] + 1189 <= RecentTarget(anchor, step, count, 0)
        && LowReachable(chain, RecentTarget(anchor, step, count, 0), Estimate(anchor, step, count), 50)
    {
      var total := count * step;
      assert (count - 1) * step == total - step && total > 0;
      var back := total / 12 + 100;
      if Exists(chain, anchor - back) {
        BlocksApart(anchor - back, anchor);
        BlocksApart((anchor - back) % 50, anchor - back);
      }
    }

    lemma {:induction false} BlocksApart(m: int, n: int)
      requires 0 <= m <= n < |chain|
      requires forall n :: 0 < n < |chain| ==> chain[n] - chain[n - 1] >= 12
      ensures chain[n] - chain[m] >= 12 * (n - m)
      decreases n - m
    {
      if m < n {
        BlocksApart(m, n - 1);
      }
    }

    lemma TargetsIncrease(anchor: int, step: int, count: int, i: int)
      requires Exists(chain, anchor) && step > 0 && 0 <= i < count - 1
      ensures RecentTarget(anchor, step, count, i) < RecentTarget(anchor, step, count, i + 1) <= chain[anchor]
      ensures RecentTarget(anchor, step, count, i + 1) - RecentTarget(anchor, step, count, i) == step
      ensures RecentTarget(anchor, step, count, count - 1) == chain[anchor]
    {
      OneStepMore(count - 2 - i, step);
      assert count - 1 - i == count - 2 - i + 1;
    }

    lemma OneStepMore(n: nat, step: nat)
      ensures (n + 1) * step == n * step + step && n * step >= 0
    {
    }
  }
}
