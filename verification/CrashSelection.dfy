/** Greedy choice of crash hours: the deepest drops that lie some days apart. */
module CrashSelection {
  import opened Lists
  import opened Market
  import opened StableSorts

  /** An hour of the universe, opened some seconds after the Unix epoch. */
  datatype Hour = Hour(openTime: nat, drop: real)

  /** The UTC date, as a day number. */
  function Day(h: Hour): nat { h.openTime / 86400 }

  predicate TooClose(a: Hour, b: Hour, separation: int) {
    -separation < Day(a) - Day(b) < separation
  }

  predicate Deeper(a: Hour, b: Hour) { a.drop > b.drop }

  predicate Earlier(a: Hour, b: Hour) { a.openTime < b.openTime }

  function Ranked(universe: seq<Hour>): seq<Hour> { Sorted(Deeper, universe) }

  function Chronological(hours: seq<Hour>): seq<Hour> { Sorted(Earlier, hours) }

  /** Position i of the ranking is kept exactly when no earlier kept position is too close to it. */
  ghost predicate Kept(ranked: seq<Hour>, separation: int, i: nat)
    requires i < |ranked|
    decreases i
  {
    forall j :: 0 <= j < i && Kept(ranked, separation, j) ==> !TooClose(ranked[i], ranked[j], separation)
  }

  /** The kept hours among the first n, deepest first. */
  ghost function Picks(ranked: seq<Hour>, separation: int, n: nat): (picks: seq<Hour>)
    requires n <= |ranked|
    ensures forall h :: h in picks <==> exists j :: 0 <= j < n && Kept(ranked, separation, j) && ranked[j] == h
  {
    if n == 0 then [] else
      Picks(ranked, separation, n - 1) + if Kept(ranked, separation, n - 1) then [ranked[n - 1]] else []
  }

  /** What the selection comes to: the first `count` picks of the whole ranking, in order of time, or nothing. */
  ghost function Selection(ranked: seq<Hour>, separation: int, count: int): Option<seq<Hour>> {
    var picks := Picks(ranked, separation, |ranked|);
    if count == |picks| || 1 <= count < |picks| then Some(Chronological(picks[..count])) else None
  }

  lemma {:induction false} PicksGrow(ranked: seq<Hour>, separation: int, n: nat)
    requires n <= |ranked|
    ensures Picks(ranked, separation, n) <= Picks(ranked, separation, |ranked|)
    decreases |ranked| - n
  {
    if n < |ranked| {
      PicksGrow(ranked, separation, n + 1);
    }
  }

  lemma KeptIsClearOfPicks(ranked: seq<Hour>, separation: int, i: nat)
    requires i < |ranked|
    ensures Kept(ranked, separation, i) <==>
      forall s :: s in Picks(ranked, separation, i) ==> !TooClose(ranked[i], s, separation)
  {
    forall j | 0 <= j < i && Kept(ranked, separation, j)
      ensures ranked[j] in Picks(ranked, separation, i)
    {
    }
  }

  /** The inner loop: is some chosen hour too close? */
  method Crowded(candidate: Hour, selected: seq<Hour>, separation: int) returns (tooClose: bool)
    ensures tooClose <==> exists s :: s in selected && TooClose(candidate, s, separation)
  {
    for k := 0 to |selected|
      invariant forall l :: 0 <= l < k ==> !TooClose(candidate, selected[l], separation)
    {
      if TooClose(candidate, selected[k], separation) {
        return true;
      }
    }
    tooClose := false;
  }

  method RankAndSelect(universe: seq<Hour>, separation: int, count: int)
    returns (ranked: seq<Hour>, crashes: Option<seq<Hour>>)
    ensures ranked == Ranked(universe)
    ensures crashes == Selection(ranked, separation, count)
  {
    hide Kept, Ranked, Chronological, TooClose;
    ranked := Ranked(universe);
    var selected: seq<Hour> := [];
    var i := 0;
    while i < |ranked|
      invariant i <= |ranked|
      invariant selected == Picks(ranked, separation, i)
      invariant 1 <= count ==> |selected| < count
    {
      KeptIsClearOfPicks(ranked, separation, i);
      var tooClose := Crowded(ranked[i], selected, separation);
      if !tooClose {
        selected := selected + [ranked[i]];
        if |selected| == count {
          PicksGrow(ranked, separation, i + 1);
          break;
        }
      }
      i := i + 1;
    }
    if |selected| != count {
      return ranked, None;
    }
    assert Picks(ranked, separation, |ranked|)[..count] == selected;
    crashes := Some(Chronological(selected));
  }

  // ---------------------------------------------------------------- what greedy choice gives

  ghost predicate Separated(hours: seq<Hour>, separation: int) {
    forall i, j :: 0 <= i < j < |hours| ==> !TooClose(hours[i], hours[j], separation)
  }

  lemma {:induction false} PicksAreSeparated(ranked: seq<Hour>, separation: int, n: nat)
    requires n <= |ranked|
    ensures Separated(Picks(ranked, separation, n), separation)
  {
    if n > 0 {
      PicksAreSeparated(ranked, separation, n - 1);
      KeptIsClearOfPicks(ranked, separation, n - 1);
      var before := Picks(ranked, separation, n - 1);
      forall i | 0 <= i < |before| && Kept(ranked, separation, n - 1)
        ensures !TooClose(before[i], ranked[n - 1], separation)
      {
        assert before[i] in before;
      }
    }
  }

  /** Two hours at different places of a separated list are different hours, unless no separation is asked for. */
  lemma PermutationKeepsSeparation(s: seq<Hour>, r: seq<Hour>, separation: int)
    requires Separated(s, separation) && multiset(s) == multiset(r)
    ensures Separated(r, separation)
  {
    forall i, j | 0 <= i < j < |r| ensures !TooClose(r[i], r[j], separation) {
      if separation >= 1 {
        assert r[i] in multiset(r) && r[j] in multiset(r);
        var p :| 0 <= p < |s| && s[p] == r[i];
        var q :| 0 <= q < |s| && s[q] == r[j];
        if p == q {
          CountedTwice(r, i, j);
          CountOnce(s, p, separation);
        }
      }
    }
  }

  lemma CountOnce(s: seq<Hour>, p: nat, separation: int)
    requires separation >= 1 && Separated(s, separation) && p < |s|
    ensures multiset(s)[s[p]] == 1
  {
    assert s == s[..p] + [s[p]] + s[p + 1..];
    assert s[p] !in s[..p];
    assert s[p] !in s[p + 1..];
  }

  lemma {:induction false} PicksFallInDepth(ranked: seq<Hour>, separation: int, n: nat)
    requires n <= |ranked| && Ordered(Deeper, ranked)
    ensures Ordered(Deeper, Picks(ranked, separation, n))
  {
    if n > 0 {
      PicksFallInDepth(ranked, separation, n - 1);
      var before := Picks(ranked, separation, n - 1);
      forall i | 0 <= i < |before| ensures !Deeper(ranked[n - 1], before[i]) {
        assert before[i] in before;
      }
    }
  }

  /** An hour that is not picked is too close to a picked hour with no smaller drop. */
  lemma SkippedIsCovered(ranked: seq<Hour>, separation: int, i: nat)
    requires i < |ranked| && Ordered(Deeper, ranked)
    requires !Kept(ranked, separation, i)
    ensures exists j ::
      0 <= j < i && Kept(ranked, separation, j) && TooClose(ranked[i], ranked[j], separation)
        && ranked[j].drop >= ranked[i].drop
  {
    var j :| 0 <= j < i && Kept(ranked, separation, j) && TooClose(ranked[i], ranked[j], separation);
    assert !Deeper(ranked[i], ranked[j]);
  }

  /** In seconds: hours at most `separation - 1` days apart are always too close, and hours that are too close are less
      than `separation` days apart. */
  lemma TooCloseInTime(a: Hour, b: Hour, separation: nat)
    ensures var apart := if a.openTime < b.openTime then b.openTime - a.openTime else a.openTime - b.openTime;
      && (separation > 0 && apart <= (separation - 1) * 86400 ==> TooClose(a, b, separation))
      && (TooClose(a, b, separation) ==> apart < separation * 86400)
  {
  }

  /** The chosen crashes: as many as asked for, far enough apart, in order of time, all from the universe. */
  lemma SelectionIsWellFormed(universe: seq<Hour>, separation: int, count: int)
    requires Selection(Ranked(universe), separation, count).Some?
    ensures var crashes := Selection(Ranked(universe), separation, count).value;
      && |crashes| == count
      && multiset(crashes) <= multiset(universe)
      && Separated(crashes, separation)
      && forall i, j :: 0 <= i < j < |crashes| ==> crashes[i].openTime <= crashes[j].openTime
  {
    hide Kept, TooClose, Sorted;
    var ranked := Ranked(universe);
    var best := Picks(ranked, separation, |ranked|)[..count];
    var crashes := Chronological(best);
    PicksAreSeparated(ranked, separation, |ranked|);
    PermutationKeepsSeparation(best, crashes, separation);
    BestComeFromTheUniverse(ranked, separation, |ranked|, count);
    assert ranked[..|ranked|] == ranked;
    assert multiset(crashes) == multiset(best) <= multiset(ranked);
    SortedIsOrdered(Earlier, best);
    forall i, j | 0 <= i < j < |crashes| ensures crashes[i].openTime <= crashes[j].openTime {
      assert !Earlier(crashes[j], crashes[i]);
    }
  }

  /** An hour left out is too close to a chosen one that fell at least as far, or fell no further than any of them. */
  ghost predicate Accounted(h: Hour, chosen: seq<Hour>, separation: int) {
    || h in chosen
    || (exists s :: s in chosen && TooClose(h, s, separation) && s.drop >= h.drop)
    || (forall s :: s in chosen ==> s.drop >= h.drop)
  }

  lemma SelectionIsGreedy(universe: seq<Hour>, separation: int, count: int, h: Hour)
    requires Selection(Ranked(universe), separation, count).Some? && h in universe
    ensures Accounted(h, Selection(Ranked(universe), separation, count).value, separation)
  {
    var ranked := Ranked(universe);
    SortedIsOrdered(Deeper, universe);
    hide Kept, TooClose, Sorted;
    var best := Picks(ranked, separation, |ranked|)[..count];
    PicksFallInDepth(ranked, separation, |ranked|);
    assert h in multiset(ranked);
    HourIsAccountedFor(ranked, separation, h, count);
    forall s ensures s in best <==> s in Chronological(best) {
      assert s in multiset(best) <==> s in multiset(Chronological(best));
    }
  }

  lemma {:induction false} BestComeFromTheUniverse(ranked: seq<Hour>, separation: int, n: nat, count: nat)
    requires n <= |ranked| && count <= |Picks(ranked, separation, n)|
    ensures multiset(Picks(ranked, separation, n)[..count]) <= multiset(ranked[..n])
  {
    hide Kept;
    if n > 0 {
      var before := Picks(ranked, separation, n - 1);
      var picks := Picks(ranked, separation, n);
      assert ranked[..n] == ranked[..n - 1] + [ranked[n - 1]];
      if count <= |before| {
        BestComeFromTheUniverse(ranked, separation, n - 1, count);
        assert picks[..count] == before[..count];
      } else {
        BestComeFromTheUniverse(ranked, separation, n - 1, |before|);
        assert picks[..count] == before[..|before|] + [ranked[n - 1]];
      }
    }
  }

  lemma HourIsAccountedFor(ranked: seq<Hour>, separation: int, h: Hour, count: nat)
    requires Ordered(Deeper, ranked) && h in ranked
    requires var picks := Picks(ranked, separation, |ranked|);
      count <= |picks| && Ordered(Deeper, picks)
    ensures Accounted(h, Picks(ranked, separation, |ranked|)[..count], separation)
  {
    hide TooClose;
    var picks := Picks(ranked, separation, |ranked|);
    var best := picks[..count];
    var i :| 0 <= i < |ranked| && ranked[i] == h;
    var p := h;
    if !Kept(ranked, separation, i) {
      SkippedIsCovered(ranked, separation, i);
      var j :| 0 <= j < i && Kept(ranked, separation, j) && TooClose(h, ranked[j], separation)
        && ranked[j].drop >= h.drop;
      p := ranked[j];
    }
    assert p in picks && p.drop >= h.drop;
    var k :| 0 <= k < |picks| && picks[k] == p;
    if k >= count {
      forall l | 0 <= l < count ensures best[l].drop >= h.drop {
        assert !Deeper(picks[k], picks[l]);
      }
    } else {
      assert best[k] == p;
    }
  }

  /** Hours with equal drops are ranked in the order they came in. */
  lemma TiesKeepTheirOrder(universe: seq<Hour>, drop: real)
    ensures Filter((h: Hour) => h.drop == drop, Ranked(universe)) == Filter((h: Hour) => h.drop == drop, universe)
  {
    SortedIsStable(Deeper, (h: Hour) => h.drop == drop, universe);
  }

  /** The position agrees with the picks on everything ranked before i. */
  ghost predicate Agree(ranked: seq<Hour>, separation: int, other: set<nat>, i: nat)
    requires i <= |ranked|
  {
    forall j: nat :: j < i ==> (j in other <==> Kept(ranked, separation, j))
  }

  /**
   * No separated choice beats the greedy one: where any other separated set of ranked positions first differs from
   * the picks, it lacks a pick.
   */
  lemma {:induction false} PicksAreLexicographicallyFirst(ranked: seq<Hour>, separation: int, other: set<nat>, n: nat)
    requires n <= |ranked| && !Agree(ranked, separation, other, n)
    requires forall j, k :: j in other && k in other && j < k < |ranked| ==> !TooClose(ranked[k], ranked[j], separation)
    ensures exists i ::
      0 <= i < n && Agree(ranked, separation, other, i) && Kept(ranked, separation, i) && i !in other
  {
    if !Agree(ranked, separation, other, n - 1) {
      PicksAreLexicographicallyFirst(ranked, separation, other, n - 1);
    } else {
      var i := n - 1;
      assert i in other <==> !Kept(ranked, separation, i);
      assert Agree(ranked, separation, other, i) && Kept(ranked, separation, i) && i !in other;
    }
  }

  // ---------------------------------------------------------------- when the choice cannot fail

  function Days(hours: seq<Hour>): (days: set<nat>)
    ensures forall d :: d in days <==> exists h :: h in hours && Day(h) == d
  {
    set h | h in hours :: Day(h)
  }

  /** The days less than `separation` away from a day. */
  function Around(day: nat, separation: nat): (days: set<nat>)
    requires separation >= 1
    ensures forall d: nat :: d in days <==> day - separation < d < day + separation
    ensures |days| <= 2 * separation - 1
  {
    var low := if day < separation then 0 else day - separation + 1;
    DaysBetween(low, day + separation - low)
  }

  function DaysBetween(low: nat, n: nat): (days: set<nat>)
    ensures |days| == n
    ensures forall d: nat :: d in days <==> low <= d < low + n
  {
    if n == 0 then {} else DaysBetween(low, n - 1) + {low + n - 1}
  }

  ghost function Covered(picks: seq<Hour>, separation: nat): (days: set<nat>)
    requires separation >= 1
    ensures |days| <= |picks| * (2 * separation - 1)
    ensures forall s, d :: s in picks && d in Around(Day(s), separation) ==> d in days
  {
    if picks == [] then {} else
      var rest := Covered(picks[1..], separation);
      var all := rest + Around(Day(picks[0]), separation);
      assert |all| <= |rest| + (2 * separation - 1);
      assert (|picks| - 1) * (2 * separation - 1) + (2 * separation - 1) == |picks| * (2 * separation - 1);
      all
  }

  lemma CoverBounds(picks: nat, count: nat, width: nat, days: nat)
    requires count >= 1 && days > (count - 1) * width && days <= picks * width
    ensures picks >= count
  {
    if picks < count {
      Widen(picks, count - 1, width);
    }
  }

  lemma Widen(a: nat, b: nat, width: nat)
    requires a <= b
    ensures a * width <= b * width
  {
  }

  /** A universe with more than (count - 1) * (2 * separation - 1) days always has enough crashes. */
  lemma EnoughDaysSuffice(universe: seq<Hour>, separation: nat, count: nat)
    requires separation >= 1 && count >= 1
    requires |Days(universe)| > (count - 1) * (2 * separation - 1)
    ensures Selection(Ranked(universe), separation, count).Some?
  {
    hide Kept, Ranked, Days, Covered, Picks;
    var picks := Picks(Ranked(universe), separation, |Ranked(universe)|);
    DaysAreCovered(universe, separation);
    CardinalityGrows(Days(universe), Covered(picks, separation));
    CoverBounds(|picks|, count, 2 * separation - 1, |Days(universe)|);
  }

  lemma DaysAreCovered(universe: seq<Hour>, separation: nat)
    requires separation >= 1
    ensures Days(universe) <= Covered(Picks(Ranked(universe), separation, |Ranked(universe)|), separation)
  {
    hide Kept, Days, Covered, Picks, Sorted;
    var ranked := Ranked(universe);
    forall d | d in Days(universe)
      ensures d in Covered(Picks(ranked, separation, |ranked|), separation)
    {
      var h :| h in universe && Day(h) == d;
      assert h in multiset(ranked);
      var i :| 0 <= i < |ranked| && ranked[i] == h;
      DayIsCovered(ranked, separation, i);
    }
  }

  lemma CardinalityGrows(a: set<nat>, b: set<nat>)
    requires a <= b
    ensures |a| <= |b|
  {
    assert b == a + (b - a);
  }

  lemma DayIsCovered(ranked: seq<Hour>, separation: nat, i: nat)
    requires separation >= 1 && i < |ranked|
    ensures Day(ranked[i]) in Covered(Picks(ranked, separation, |ranked|), separation)
  {
    var picks := Picks(ranked, separation, |ranked|);
    if Kept(ranked, separation, i) {
      assert ranked[i] in picks;
      assert Day(ranked[i]) in Around(Day(ranked[i]), separation);
    } else {
      var j :| 0 <= j < i && Kept(ranked, separation, j) && TooClose(ranked[i], ranked[j], separation);
      assert ranked[j] in picks;
      assert Day(ranked[i]) in Around(Day(ranked[j]), separation);
    }
  }

  // ---------------------------------------------------------------- the bound is sharp

  function At(day: nat, drop: real): Hour { Hour(day * 86400, drop) }

  /** One deep hour in the middle of each stretch of 2 * separation - 1 days, then a shallow hour on every day. */
  function Crowd(separation: nat, stretches: nat): (universe: seq<Hour>)
    requires separation >= 1
    ensures |universe| == stretches + stretches * (2 * separation - 1)
  {
    var width := 2 * separation - 1;
    seq(stretches, i requires 0 <= i => At(i * width + separation - 1, 1.0))
      + seq(stretches * width, d requires 0 <= d => At(d, 0.0))
  }

  lemma CrowdDays(separation: nat, stretches: nat, i: nat)
    requires separation >= 1 && i < |Crowd(separation, stretches)|
    ensures var width, h := 2 * separation - 1, Crowd(separation, stretches)[i];
      if i < stretches then Day(h) == i * width + separation - 1 < stretches * width && h.drop == 1.0
      else Day(h) == i - stretches < stretches * width && h.drop == 0.0
  {
    if i < stretches {
      Widen(i + 1, stretches, 2 * separation - 1);
    }
  }

  lemma CrowdSpans(separation: nat, stretches: nat)
    requires separation >= 1
    ensures |Days(Crowd(separation, stretches))| == stretches * (2 * separation - 1)
  {
    var universe := Crowd(separation, stretches);
    var n := stretches * (2 * separation - 1);
    forall d: nat ensures d in Days(universe) <==> d in DaysBetween(0, n) {
      if d in Days(universe) {
        var h :| h in universe && Day(h) == d;
        var i :| 0 <= i < |universe| && universe[i] == h;
        CrowdDays(separation, stretches, i);
      }
      if d < n {
        CrowdDays(separation, stretches, stretches + d);
        assert universe[stretches + d] in universe;
      }
    }
    assert Days(universe) == DaysBetween(0, n);
  }

  lemma CrowdIsRanked(separation: nat, stretches: nat)
    requires separation >= 1
    ensures Ranked(Crowd(separation, stretches)) == Crowd(separation, stretches)
  {
    var universe := Crowd(separation, stretches);
    forall i, j | 0 <= i < j < |universe| ensures !Deeper(universe[j], universe[i]) {
      CrowdDays(separation, stretches, i);
      CrowdDays(separation, stretches, j);
    }
    OrderedIsFixed(Deeper, universe);
  }

  lemma MiddlesAreApart(separation: nat, stretches: nat, j: nat, i: nat)
    requires separation >= 1 && j < i < stretches
    ensures var universe := Crowd(separation, stretches); !TooClose(universe[i], universe[j], separation)
  {
    hide Crowd, Day;
    CrowdDays(separation, stretches, i);
    CrowdDays(separation, stretches, j);
    StretchesApart(j, i, 2 * separation - 1);
  }

  lemma StretchesApart(j: nat, i: nat, width: nat)
    requires j < i
    ensures i * width >= j * width + width
  {
    Widen(j + 1, i, width);
    assert (j + 1) * width == j * width + width;
  }

  lemma {:induction false} StretchOf(d: nat, stretches: nat, width: nat) returns (c: nat)
    requires width >= 1 && d < stretches * width
    ensures c < stretches && c * width <= d < c * width + width
  {
    if d < width {
      c := 0;
    } else {
      assert (stretches - 1) * width == stretches * width - width;
      c := StretchOf(d - width, stretches - 1, width);
      assert (c + 1) * width == c * width + width;
      c := c + 1;
    }
  }

  lemma OthersAreClose(separation: nat, stretches: nat, i: nat)
    requires separation >= 1 && stretches <= i < |Crowd(separation, stretches)|
    ensures var universe := Crowd(separation, stretches);
      exists c :: 0 <= c < stretches && TooClose(universe[i], universe[c], separation)
  {
    hide Crowd;
    var c := StretchOf(i - stretches, stretches, 2 * separation - 1);
    CrowdDays(separation, stretches, i);
    CrowdDays(separation, stretches, c);
    assert TooClose(Crowd(separation, stretches)[i], Crowd(separation, stretches)[c], separation);
  }

  /** Exactly the middles are kept: two middles are 2 * separation - 1 apart, every other day is next to one. */
  lemma MiddlesAreKept(separation: nat, stretches: nat, i: nat)
    requires separation >= 1 && i < |Crowd(separation, stretches)|
    ensures Kept(Crowd(separation, stretches), separation, i) <==> i < stretches
  {
    hide TooClose, Crowd;
    var universe := Crowd(separation, stretches);
    if i < stretches {
      forall j | 0 <= j < i ensures !TooClose(universe[i], universe[j], separation) {
        MiddlesAreApart(separation, stretches, j, i);
      }
    } else {
      OthersAreClose(separation, stretches, i);
      var c :| 0 <= c < stretches && TooClose(universe[i], universe[c], separation);
      MiddlesAreKept(separation, stretches, c);
    }
  }

  lemma {:induction false} MiddlesArePicked(separation: nat, stretches: nat, n: nat)
    requires separation >= 1 && n <= |Crowd(separation, stretches)|
    ensures |Picks(Crowd(separation, stretches), separation, n)| == if n < stretches then n else stretches
  {
    if n > 0 {
      MiddlesArePicked(separation, stretches, n - 1);
      MiddlesAreKept(separation, stretches, n - 1);
    }
  }

  /** With one day less the selection can fail. */
  lemma EnoughDaysIsSharp(separation: nat, count: nat)
    requires separation >= 1 && count >= 1
    ensures exists universe: seq<Hour> ::
      |Days(universe)| == (count - 1) * (2 * separation - 1) && Selection(Ranked(universe), separation, count).None?
  {
    var universe := Crowd(separation, count - 1);
    CrowdSpans(separation, count - 1);
    CrowdIsRanked(separation, count - 1);
    MiddlesArePicked(separation, count - 1, |universe|);
  }
}
