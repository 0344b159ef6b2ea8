/** What a split search reports: which diagnostics its log has, said of routes and quotes alone. */
module SplitReports {
  import opened Market
  import opened Evaluator
  import opened Routes
  import opened Capacity
  import opened SplitSearch

  // ---------------------------------------------------------------- relations and quotes

  predicate MeetsPool(first: Route, second: Route) {
    exists h, k :: h in first.hops && k in second.hops && h.poolId == k.poolId
  }

  /** A hop through an unknown pool, or hops through different pools with a capacity in common. */
  predicate Unusable(hops: seq<RouteHop>, pools: map<PoolId, PoolState>) {
    || (exists h :: h in hops && h.poolId !in pools)
    || exists h, k, c :: h in hops && k in hops && h.poolId != k.poolId && h.poolId in pools && k.poolId in pools
         && c in pools[h.poolId].capacityIds && c in pools[k.poolId].capacityIds
  }

  /** Overlapping pairs share a pool; of the others those conflict whose hops cannot all be used. */
  lemma RelationMeans(first: Route, second: Route, pools: map<PoolId, PoolState>)
    ensures RelationOf(first, second, pools) == Overlapping <==> MeetsPool(first, second)
    ensures RelationOf(first, second, pools) == Conflicting <==>
      !MeetsPool(first, second) && Unusable(first.hops + second.hops, pools)
  {
    var all := first.hops + second.hops;
    assert MeetsPool(first, second) <==> Overlap(first, second);
    if Broken(first, pools) || Broken(second, pools) || CrossClash(first, second, pools) {
      ClashIsUnusable(first, second, pools);
    }
    if Unusable(all, pools) {
      UnusableClashes(first, second, pools);
    }
  }

  lemma UnusableClashes(first: Route, second: Route, pools: map<PoolId, PoolState>)
    requires Unusable(first.hops + second.hops, pools)
    ensures Broken(first, pools) || Broken(second, pools) || CrossClash(first, second, pools)
  {
    var all := first.hops + second.hops;
    if forall h :: h in all ==> h.poolId in pools {
      var h, k, c :| h in all && k in all && h.poolId != k.poolId && h.poolId in pools && k.poolId in pools
        && c in pools[h.poolId].capacityIds && c in pools[k.poolId].capacityIds;
      assert Clash(pools, h.poolId, k.poolId) && Clash(pools, k.poolId, h.poolId);
    }
  }

  lemma ClashIsUnusable(first: Route, second: Route, pools: map<PoolId, PoolState>)
    requires Broken(first, pools) || Broken(second, pools) || CrossClash(first, second, pools)
    ensures Unusable(first.hops + second.hops, pools)
  {
    var all := first.hops + second.hops;
    if forall h :: h in all ==> h.poolId in pools {
      var h, k :| h in all && k in all && Clash(pools, h.poolId, k.poolId);
      assert Clash(pools, h.poolId, k.poolId);
      var c :| c in pools[h.poolId].capacityIds && c in pools[k.poolId].capacityIds;
    }
  }

  /** Hop i is where the quote stops: the hops before it yield this amount, and it fails in this way. */
  ghost predicate StopsAt(
    venue: Venue, hops: seq<RouteHop>, amount: int, pools: map<PoolId, PoolState>, i: nat, failure: Option<Failure>)
    requires i < |hops|
  {
    var id := hops[i].poolId;
    match Quote(venue, hops[..i], amount, pools)
    case Stuck(_) => false
    case Reached(a, now) =>
      if id !in now then failure == Some(Failure(id, a, "unknown pool"))
      else match venue.swap(now[id], hops[i].tokenIn, hops[i].tokenOut, a)
        case Unsupported(why) => failure == Some(Failure(id, a, why))
        case Swapped(out, _) => out < 0 && failure.None?
  }

  /** A quote that is stuck stops at one hop, for its reason; otherwise it goes from hop to hop. */
  lemma {:induction false} QuoteStops(venue: Venue, hops: seq<RouteHop>, amount: int, pools: map<PoolId, PoolState>)
    ensures Quote(venue, hops, amount, pools).Stuck? ==>
      exists i :: 0 <= i < |hops| && StopsAt(venue, hops, amount, pools, i, Quote(venue, hops, amount, pools).failure)
    decreases |hops|
  {
    if hops != [] {
      var front, n := hops[..|hops| - 1], |hops| - 1;
      QuoteStops(venue, front, amount, pools);
      var q := Quote(venue, hops, amount, pools);
      if Quote(venue, front, amount, pools).Stuck? {
        var i :| 0 <= i < n && StopsAt(venue, front, amount, pools, i, q.failure);
        assert hops[..i] == front[..i] && hops[i] == front[i];
        assert StopsAt(venue, hops, amount, pools, i, q.failure);
      } else if q.Stuck? {
        assert StopsAt(venue, hops, amount, pools, n, q.failure);
      }
    }
  }

  /** A route without an amount stops at one hop, and its pools are reported with the reason if there is one. */
  lemma RouteStops(venue: Venue, route: Route, amount: int, pools: map<PoolId, PoolState>)
    ensures var q := RouteOutput(venue, route, amount, pools);
      && (q.amount.Some? ==> q.log == [])
      && (q.amount.None? ==> exists i, failure ::
            0 <= i < |route.hops| && StopsAt(venue, route.hops, amount, pools, i, failure)
            && q.log == if failure.None? then [] else [NoQuote(PathOf(route.hops), failure.value)])
  {
    hide Quote, StopsAt;
    QuoteStops(venue, route.hops, amount, pools);
  }

  // ---------------------------------------------------------------- the log of the scan

  /** The routes cannot be split, since they draw on one capacity. */
  predicate Conflict(p: Problem, it: Item, d: Diagnostic)
    requires it.i < it.j < |p.routes|
  {
    var first, second := p.routes[it.i], p.routes[it.j];
    && !MeetsPool(first, second) && Unusable(first.hops + second.hops, PoolsById(p.states))
    && d == Infeasible(PathOf(first.hops) + PathOf(second.hops), p.request.amountIn, [SharedCapacity])
  }

  /** A quote that the turn takes stops with a reason: an ordered one, or that of one route alone. */
  predicate StopReported(p: Problem, it: Item, d: Diagnostic)
    requires it.i < it.j < |p.routes|
  {
    var pools, rest := PoolsById(p.states), p.request.amountIn - it.amount;
    if MeetsPool(p.routes[it.i], p.routes[it.j])
    then d in Ordered(p, Forward(p, it)).log || d in Ordered(p, Backward(p, it)).log
    else
      && !Unusable(p.routes[it.i].hops + p.routes[it.j].hops, pools)
      && (d in RouteOutput(p.venue, p.routes[it.i], it.amount, pools).log
          || d in RouteOutput(p.venue, p.routes[it.j], rest, pools).log)
  }

  /** A trial of the turn that was compiled and not accepted. */
  predicate TrialReported(p: Problem, it: Item, d: Diagnostic)
    requires it.i < it.j < |p.routes|
  {
    d in Propose(p, Forward(p, it)).log || d in Propose(p, Backward(p, it)).log
  }

  /** With caches that tell the routes apart: a conflict seen or a quote cached has been reported. */
  ghost predicate CachesReported(p: Problem, name: seq<nat>, s: Scan)
    requires |name| == |p.routes|
  {
    && (forall i, a :: 0 <= i < |name| && (name[i], a) in s.quoted ==>
          forall d :: d in RouteOutput(p.venue, p.routes[i], a, PoolsById(p.states)).log ==> d in s.log)
    && forall i, j :: 0 <= i < j < |name| && (name[i], name[j]) in s.conflicts ==>
          ConflictReport(p, Item(0, i, j)) in s.log
  }

  lemma ConsiderReports(p: Problem, s: Scan, t: Trial, predicted: Option<int>)
    requires t.first < |p.routes| && t.second < |p.routes|
    ensures var u := Consider(p, s, t, predicted);
      && u.quoted == s.quoted && u.conflicts == s.conflicts
      && forall d :: d in u.log ==> d in s.log || d in Propose(p, t).log
    ensures forall d :: d in s.log ==> d in Consider(p, s, t, predicted).log
  {
    hide Propose;
  }

  lemma ConsultReports(p: Problem, s: Scan, i: nat, amount: int)
    requires i < |p.routes| && CachesReported(p, Identity(|p.routes|), s)
    ensures var name := Identity(|p.routes|); var u := Consult(p, name, s, i, amount);
      && CachesReported(p, name, u) && u.best == s.best
      && (forall d :: d in u.log <==>
            d in s.log || d in RouteOutput(p.venue, p.routes[i], amount, PoolsById(p.states)).log)
  {
    hide RouteOutput;
  }

  /** One turn reports what it should and nothing else, and keeps the caches reported. */
  lemma ItemReports(p: Problem, s: Scan, it: Item)
    requires it.i < it.j < |p.routes| && CachesReported(p, Identity(|p.routes|), s)
    ensures var name := Identity(|p.routes|); var u := ScanItem(p, name, s, it);
      && CachesReported(p, name, u)
      && (forall d :: d in s.log ==> d in u.log)
      && (forall d :: Conflict(p, it, d) || StopReported(p, it, d) ==> d in u.log)
      && (forall d :: d in u.log ==>
            d in s.log || Conflict(p, it, d) || StopReported(p, it, d) || TrialReported(p, it, d))
  {
    RelationMeans(p.routes[it.i], p.routes[it.j], PoolsById(p.states));
    hide RelationOf, MeetsPool, Unusable, Propose, RouteOutput, Consider, Consult, CachesReported, Ordered;
    match RelationOf(p.routes[it.i], p.routes[it.j], PoolsById(p.states)) {
      case Conflicting => ConflictIsReported(p, s, it);
      case Overlapping => OverlapIsReported(p, s, it);
      case Independent => SeparateIsReported(p, s, it);
    }
  }

  lemma ConflictIsReported(p: Problem, s: Scan, it: Item)
    requires it.i < it.j < |p.routes| && CachesReported(p, Identity(|p.routes|), s)
    requires RelationOf(p.routes[it.i], p.routes[it.j], PoolsById(p.states)) == Conflicting
    ensures var name := Identity(|p.routes|); var u := ScanItem(p, name, s, it);
      && CachesReported(p, name, u)
      && forall d :: d in u.log <==> d in s.log || d == ConflictReport(p, it)
  {
    hide RelationOf, RouteOutput;
    assert ConflictReport(p, Item(0, it.i, it.j)) == ConflictReport(p, it);
  }

  lemma OverlapIsReported(p: Problem, s: Scan, it: Item)
    requires it.i < it.j < |p.routes| && CachesReported(p, Identity(|p.routes|), s)
    requires RelationOf(p.routes[it.i], p.routes[it.j], PoolsById(p.states)) == Overlapping
    ensures var name := Identity(|p.routes|); var u := ScanItem(p, name, s, it);
      var quoted := Ordered(p, Forward(p, it)).log + Ordered(p, Backward(p, it)).log;
      && CachesReported(p, name, u)
      && (forall d :: d in s.log || d in quoted ==> d in u.log)
      && (forall d :: d in u.log ==> d in s.log || d in quoted || TrialReported(p, it, d))
  {
    hide RelationOf, RouteOutput, Consider, Propose, Ordered;
    var there, back := Forward(p, it), Backward(p, it);
    var s1 := s.(log := s.log + Ordered(p, there).log);
    ConsiderReports(p, s1, there, Ordered(p, there).amount);
    var s2 := ConsiderInOrder(p, s, there);
    var s3 := s2.(log := s2.log + Ordered(p, back).log);
    ConsiderReports(p, s3, back, Ordered(p, back).amount);
    MoreIsReported(p, s, ConsiderInOrder(p, s2, back));
  }

  lemma MoreIsReported(p: Problem, s: Scan, u: Scan)
    requires CachesReported(p, Identity(|p.routes|), s) && u.quoted == s.quoted && u.conflicts == s.conflicts
    requires forall d :: d in s.log ==> d in u.log
    ensures CachesReported(p, Identity(|p.routes|), u)
  {
    hide RouteOutput;
  }

  lemma SeparateIsReported(p: Problem, s: Scan, it: Item)
    requires it.i < it.j < |p.routes| && CachesReported(p, Identity(|p.routes|), s)
    requires RelationOf(p.routes[it.i], p.routes[it.j], PoolsById(p.states)) == Independent
    ensures var name := Identity(|p.routes|); var u := ScanItem(p, name, s, it);
      var pools := PoolsById(p.states);
      var quoted := RouteOutput(p.venue, p.routes[it.i], it.amount, pools).log
        + RouteOutput(p.venue, p.routes[it.j], p.request.amountIn - it.amount, pools).log;
      && CachesReported(p, name, u)
      && (forall d :: d in s.log || d in quoted ==> d in u.log)
      && (forall d :: d in u.log ==> d in s.log || d in quoted || TrialReported(p, it, d))
  {
    hide RelationOf, RouteOutput, Consider, Propose, Consult, Separate, CachesReported;
    var name, rest := Identity(|p.routes|), p.request.amountIn - it.amount;
    var there, back, predicted := Forward(p, it), Backward(p, it), Separate(p, it);
    ConsultReports(p, s, it.i, it.amount);
    var s1 := Consult(p, name, s, it.i, it.amount);
    ConsultReports(p, s1, it.j, rest);
    var s2 := Consult(p, name, s1, it.j, rest);
    ConsiderReports(p, s2, there, predicted);
    var s3 := Consider(p, s2, there, predicted);
    ConsiderReports(p, s3, back, predicted);
    MoreIsReported(p, s2, Consider(p, s3, back, predicted));
  }

  /** All that some turn is to report is in the log, and all that is in the log some turn reports. */
  ghost predicate Reported(p: Problem, items: seq<Item>, before: seq<Diagnostic>, log: seq<Diagnostic>)
    requires ItemsFit(p, items)
  {
    && (forall d :: d in before ==> d in log)
    && (forall it, d :: it in items && (Conflict(p, it, d) || StopReported(p, it, d)) ==> d in log)
    && forall d :: d in log ==> d in before || exists it :: it in items && Reports(p, it, d)
  }

  ghost predicate Reports(p: Problem, it: Item, d: Diagnostic)
    requires it.i < it.j < |p.routes|
  {
    Conflict(p, it, d) || StopReported(p, it, d) || TrialReported(p, it, d)
  }

  lemma {:induction false} ScanReports(p: Problem, before: seq<Diagnostic>, items: seq<Item>)
    requires ItemsFit(p, items)
    ensures var s := ScanAll(p, Identity(|p.routes|), Begin(before), items);
      CachesReported(p, Identity(|p.routes|), s) && Reported(p, items, before, s.log)
    decreases |items|
  {
    hide ScanItem, Conflict, StopReported, TrialReported, RouteOutput;
    if items != [] {
      var front, it := items[..|items| - 1], items[|items| - 1];
      assert items == front + [it] && it in items;
      ScanReports(p, before, front);
      var s := ScanAll(p, Identity(|p.routes|), Begin(before), front);
      ItemReports(p, s, it);
      hide CachesReported;
      var u := ScanItem(p, Identity(|p.routes|), s, it);
      forall d | d in u.log
        ensures d in before || exists o :: o in items && Reports(p, o, d)
      {
        if d in s.log && d !in before {
          var o :| o in front && Reports(p, o, d);
          assert o in items;
        } else if d !in s.log {
          assert Reports(p, it, d);
        }
      }
    }
  }

  /** The log of a search: every conflicting pair, every quote that stops, and besides those only trials that were
      compiled and not accepted. */
  lemma SearchReports(p: Problem, parts: int, before: seq<Diagnostic>)
    requires parts > 0
    ensures ItemsFit(p, AllItems(p, parts)) && Reported(p, AllItems(p, parts), before, Search(p, parts, before).1)
  {
    SearchScans(p, parts, before);
    hide ScanAll, Search, Reported, AllItems;
    ScanReports(p, before, AllItems(p, parts));
  }
}
