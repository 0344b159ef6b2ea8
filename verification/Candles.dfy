/** Minute candles: extraction of a standard window around a crash, and the matcher that another script runs on it. */
module Candles {
  import opened Market

  type Price(==, !new, 0)

  /** A candle as read back from a file; a missing close time counts as 0. */
  datatype Candle = Candle(openTime: Option<int>, closeTime: Option<int>, close: Option<Price>)

  // ---------------------------------------------------------------- extraction

  datatype Bar = Bar(openTime: int, closeTime: int, close: Price)

  datatype Extraction = Extracted(bars: seq<Bar>) | MissingCandle(openTime: int)

  /** The last bar read for an opening time. */
  function ByOpen(bars: seq<Bar>): (m: map<int, Bar>)
    ensures forall t :: t in m ==> m[t].openTime == t && m[t] in bars
  {
    if bars == [] then map[]
    else
      var last := bars[|bars| - 1];
      assert bars == bars[..|bars| - 1] + [last];
      ByOpen(bars[..|bars| - 1])[last.openTime := last]
  }

  /** The dictionary has the opening times of the bars, each with the last bar that has it. */
  lemma {:induction false} ByOpenKeepsTheLast(bars: seq<Bar>, t: int)
    ensures t in ByOpen(bars) <==> exists i :: 0 <= i < |bars| && bars[i].openTime == t
    ensures t in ByOpen(bars) ==> exists i :: 0 <= i < |bars| && bars[i] == ByOpen(bars)[t] && LastWith(bars, i)
  {
    if bars != [] {
      var n := |bars| - 1;
      ByOpenKeepsTheLast(bars[..n], t);
      if bars[n].openTime == t {
        assert bars[n] == ByOpen(bars)[t] && LastWith(bars, n);
      } else if t in ByOpen(bars) {
        var i :| 0 <= i < n && bars[..n][i] == ByOpen(bars[..n])[t] && LastWith(bars[..n], i);
        assert bars[i] == ByOpen(bars)[t] && LastWith(bars, i);
      }
    }
  }

  ghost predicate LastWith(bars: seq<Bar>, i: nat)
    requires i < |bars|
  {
    forall j :: i < j < |bars| ==> bars[j].openTime != bars[i].openTime
  }

  /** The number of minute openings from `first` to `last`. */
  function Openings(first: int, last: int): nat {
    if last < first then 0 else (last - first) / 60 + 1
  }

  /** The `while` loop of the extraction: every minute of the window, or the first one that is missing. */
  method Extract(byOpen: map<int, Bar>, windowStart: int, windowEnd: int) returns (r: Extraction)
    requires forall t :: t in byOpen ==> byOpen[t].openTime == t
    ensures r.Extracted? <==>
      forall i :: 0 <= i < Openings(windowStart - 119, windowEnd - 59) ==> windowStart - 119 + 60 * i in byOpen
    ensures r.Extracted? ==> |r.bars| == Openings(windowStart - 119, windowEnd - 59)
    ensures r.Extracted? ==> forall i :: 0 <= i < |r.bars| ==>
      r.bars[i].openTime == windowStart - 119 + 60 * i && r.bars[i] == byOpen[r.bars[i].openTime]
    ensures r.MissingCandle? ==> r.openTime !in byOpen && windowStart - 119 <= r.openTime <= windowEnd - 59
  {
    var latestOpen := windowEnd - 59;
    var currOpen := windowStart - 119;
    ghost var n := Openings(currOpen, latestOpen);
    var bars: seq<Bar> := [];
    while currOpen <= latestOpen
      invariant currOpen == windowStart - 119 + 60 * |bars|
      invariant currOpen <= latestOpen ==> |bars| < n
      invariant |bars| <= n && (currOpen > latestOpen ==> |bars| == n)
      invariant forall i :: 0 <= i < |bars| ==> windowStart - 119 + 60 * i in byOpen
      invariant forall i :: 0 <= i < |bars| ==>
        bars[i].openTime == windowStart - 119 + 60 * i && bars[i] == byOpen[windowStart - 119 + 60 * i]
      decreases latestOpen - currOpen
    {
      if currOpen !in byOpen {
        assert windowStart - 119 + 60 * |bars| !in byOpen;
        return MissingCandle(currOpen);
      }
      bars := bars + [byOpen[currOpen]];
      currOpen := currOpen + 60;
    }
    r := Extracted(bars);
  }

  // ---------------------------------------------------------------- matching

  datatype Match =
    | MissingFile
    | SymbolMismatch
    | NoCandles
    | NoCompletedCandle
    | FutureRejected
    | Matched(index: nat, completion: int, closeTime: int, lag: int, close: Option<Price>)

  datatype File = File(isEthUsdc: bool, candles: seq<Candle>)

  /** Milliseconds are recognised by their size and floored to seconds. */
  function Seconds(t: int): int {
    if t > 10_000_000_000 then t / 1000 else t
  }

  function CloseSeconds(c: Candle): int {
    Seconds(if c.closeTime.Some? then c.closeTime.value else 0)
  }

  function Completion(c: Candle): int {
    if c.openTime.Some? then Seconds(c.openTime.value) + 60 else CloseSeconds(c) + 1
  }

  /** A minute that opened at `t` seconds is read the same from seconds as from milliseconds, and by its opening as
      by its close: it completed at `t` + 60. */
  lemma TimesAgree(t: int, close: Option<Price>)
    requires 10_000_000 < t && t + 59 <= 10_000_000_000
    ensures var seconds, millis :=
        Candle(Some(t), Some(t + 59), close), Candle(Some(1000 * t), Some(1000 * t + 59_999), close);
      && Completion(seconds) == Completion(millis) == t + 60
      && Completion(seconds.(openTime := None)) == Completion(millis.(openTime := None)) == t + 60
      && CloseSeconds(seconds) == CloseSeconds(millis) == t + 59
  {
    assert (1000 * t + 59_999) / 1000 == t + 59;
  }

  /** `bisect_right`. On any list the entry before the result is not above `x`, nor the entry at it at most `x`. */
  method BisectRight(xs: seq<int>, x: int) returns (at: nat)
    ensures at <= |xs| && (at > 0 ==> xs[at - 1] <= x) && (at < |xs| ==> x < xs[at])
  {
    var lo, hi := 0, |xs|;
    while lo < hi
      invariant 0 <= lo <= hi <= |xs|
      invariant lo > 0 ==> xs[lo - 1] <= x
      invariant hi < |xs| ==> x < xs[hi]
    {
      var mid := (lo + hi) / 2;
      if x < xs[mid] {
        hi := mid;
      } else {
        lo := mid + 1;
      }
    }
    at := lo;
  }

  /** The candles complete one after the other. */
  ghost predicate InOrder(candles: seq<Candle>) {
    forall i, j :: 0 <= i < j < |candles| ==> Completion(candles[i]) <= Completion(candles[j])
  }

  /** `match_binance_candle`: never a candle that completes after the block, on any file at all; its last defensive
      check cannot fire. On files in completion order the match is the latest completed candle, and there is none
      exactly when the first is still to complete. */
  method MatchCandle(file: Option<File>, blockTime: int) returns (m: Match)
    ensures m.MissingFile? <==> file.None?
    ensures m.SymbolMismatch? <==> file.Some? && !file.value.isEthUsdc
    ensures m.NoCandles? <==> file.Some? && file.value.isEthUsdc && file.value.candles == []
    ensures !m.FutureRejected?
    ensures m.Matched? ==>
      m.index < |file.value.candles| && m.completion == Completion(file.value.candles[m.index]) <= blockTime
    ensures m.Matched? ==> m.lag == blockTime - m.completion && m.close == file.value.candles[m.index].close
    ensures m.Matched? ==> m.closeTime == CloseSeconds(file.value.candles[m.index])
    ensures m.Matched? && m.index + 1 < |file.value.candles| ==> blockTime < Completion(file.value.candles[m.index + 1])
    ensures m.NoCompletedCandle? ==> blockTime < Completion(file.value.candles[0])
    ensures file.Some? && file.value.isEthUsdc && file.value.candles != [] && InOrder(file.value.candles) ==>
      (m.NoCompletedCandle? <==> blockTime < Completion(file.value.candles[0]))
    ensures m.Matched? && InOrder(file.value.candles) ==>
      forall i :: m.index < i < |file.value.candles| ==> blockTime < Completion(file.value.candles[i])
  {
    if file.None? {
      return MissingFile;
    }
    if !file.value.isEthUsdc {
      return SymbolMismatch;
    }
    var candles := file.value.candles;
    if candles == [] {
      return NoCandles;
    }
    var completions, closes: seq<int> := [], [];
    for i := 0 to |candles|
      invariant |completions| == |closes| == i
      invariant forall j :: 0 <= j < i ==>
        completions[j] == Completion(candles[j]) && closes[j] == CloseSeconds(candles[j])
    {
      completions := completions + [Completion(candles[i])];
      closes := closes + [CloseSeconds(candles[i])];
    }
    var at := BisectRight(completions, blockTime);
    if at == 0 {
      return NoCompletedCandle;
    }
    var index := at - 1;
    if completions[index] > blockTime {
      return FutureRejected;
    }
    m := Matched(index, completions[index], closes[index], blockTime - completions[index], candles[index].close);
  }

  // ---------------------------------------------------------------- across the two scripts

  /** The trough minute's recorded close is the window's centre, 12 hours from either end. */
  function WindowStart(troughOpen: int): int {
    troughOpen + 59 - 12 * 3600
  }

  function WindowEnd(troughOpen: int): int {
    troughOpen + 59 + 12 * 3600
  }

  /** The window is centred on the trough minute's close, 59 seconds after its opening, and a day long. */
  lemma WindowIsCentred(troughOpen: int)
    ensures WindowStart(troughOpen) + WindowEnd(troughOpen) == 2 * (troughOpen + 59)
    ensures WindowEnd(troughOpen) - WindowStart(troughOpen) == 86_400
  {
  }

  /** An exported window as the matcher reads it. */
  function Exported(bars: seq<Bar>): (candles: seq<Candle>)
    ensures |candles| == |bars|
    ensures forall i :: 0 <= i < |bars| ==>
      candles[i] == Candle(Some(bars[i].openTime), Some(bars[i].closeTime), Some(bars[i].close))
  {
    seq(|bars|, i requires 0 <= i < |bars| =>
      Candle(Some(bars[i].openTime), Some(bars[i].closeTime), Some(bars[i].close)))
  }

  /** Every opening time of the window is small enough for the matcher to take it for seconds. */
  predicate ReadAsSeconds(troughOpen: int) {
    WindowEnd(troughOpen) - 59 <= 10_000_000_000
  }

  /** A successful extraction has exactly 1,442 consecutive candles, and the matcher finds a candle that completed
      less than a minute before a block exactly for the block times from 59 seconds before the window to 60
      seconds after it. That takes opening times that are read as seconds: otherwise the last minute is missed. */
  method CoverWindow(bars: seq<Bar>, troughOpen: int, blockTime: int) returns (e: Extraction, m: Match)
    ensures e.Extracted? ==> |e.bars| == 1442
    ensures e.Extracted? ==> forall i :: 0 <= i < 1442 ==> e.bars[i].openTime == WindowStart(troughOpen) - 119 + 60 * i
    ensures e.Extracted? && ReadAsSeconds(troughOpen) ==>
      ((m.Matched? && m.lag < 60) <==> WindowStart(troughOpen) - 59 <= blockTime <= WindowEnd(troughOpen) + 60)
    ensures e.Extracted? && ReadAsSeconds(troughOpen) && m.Matched? ==>
      m.lag >= 0 && m.index < 1442 && m.completion == e.bars[m.index].openTime + 60
    ensures e.Extracted? && m.Matched? ==> m.lag == blockTime - m.completion
    ensures e.Extracted? && m.Matched? ==> m.index < 1442 && m.close == Some(e.bars[m.index].close)
    ensures e.Extracted? && ReadAsSeconds(troughOpen) && m.Matched? ==>
      forall i :: m.index < i < 1442 ==> blockTime < e.bars[i].openTime + 60
    ensures e.Extracted? && !ReadAsSeconds(troughOpen) && blockTime == WindowEnd(troughOpen) + 1 ==>
      !(m.Matched? && m.lag < 60)
  {
    var byOpen := ByOpen(bars);
    e := Extract(byOpen, WindowStart(troughOpen), WindowEnd(troughOpen));
    if e.MissingCandle? {
      return e, MissingFile;
    }
    var candles := Exported(e.bars);
    m := MatchCandle(Some(File(true, candles)), blockTime);
    if ReadAsSeconds(troughOpen) {
      assert Completion(candles[0]) == WindowStart(troughOpen) - 59;
      assert Completion(candles[1441]) == WindowEnd(troughOpen) + 1;
      if m.Matched? && m.index < 1441 {
        assert Completion(candles[m.index + 1]) == Completion(candles[m.index]) + 60;
      }
    } else if m.Matched? && m.index < 1441 {
      assert Completion(candles[m.index + 1]) <= e.bars[m.index + 1].openTime + 60;
    }
  }

  /** The 145 targets of a window of exactly 144 steps, or None where the span is wrong. */
  function WindowTargets(windowStart: int, windowEnd: int, step: int): (targets: Option<seq<int>>)
    ensures targets.Some? <==> windowEnd - windowStart == 144 * step
    ensures targets.Some? ==>
      |targets.value| == 145 && targets.value[0] == windowStart && targets.value[144] == windowEnd
    ensures targets.Some? ==> forall i :: 0 < i < 145 ==> targets.value[i] - targets.value[i - 1] == step
  {
    if windowEnd - windowStart != 144 * step then None
    else Some(seq(145, i => windowStart + i * step))
  }

  /** The block of any target of the 24-hour window, up to 59 seconds before the target, is matched with the latest
      candle completed before it, less than a minute old. */
  method MatchTarget(bars: seq<Bar>, troughOpen: int, i: nat, blockTime: int) returns (e: Extraction, m: Match)
    requires i < 145
    requires var targets := WindowTargets(WindowStart(troughOpen), WindowEnd(troughOpen), 600);
      targets.Some? ==> targets.value[i] - 59 <= blockTime <= targets.value[i]
    ensures WindowTargets(WindowStart(troughOpen), WindowEnd(troughOpen), 600).Some?
    ensures e.Extracted? ==> |e.bars| == 1442
    ensures e.Extracted? && ReadAsSeconds(troughOpen) ==> m.Matched? && 0 <= m.lag < 60
    ensures e.Extracted? && ReadAsSeconds(troughOpen) ==>
      m.index < 1442 && m.completion == e.bars[m.index].openTime + 60 <= blockTime
    ensures e.Extracted? && ReadAsSeconds(troughOpen) ==>
      forall j :: m.index < j < 1442 ==> blockTime < e.bars[j].openTime + 60
  {
    e, m := CoverWindow(bars, troughOpen, blockTime);
  }
}
