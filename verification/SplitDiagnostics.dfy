/** The two forms of the split optimiser side by side: one result always, and one list of diagnostics exactly
    when no route is listed twice in a way that the caches can tell. */
module SplitDiagnostics {
  import opened Market
  import opened Evaluator
  import opened Lists
  import opened Routes
  import opened Capacity
  import opened SplitSearch

  // ---------------------------------------------------------------- the routes that `solve` builds

  function RoutesBetween(tokenIn: Address, tokenOut: Address, states: seq<PoolState>): (routes: seq<Route>)
    ensures forall r :: r in routes ==> exists id :: r == Route([RouteHop(id, tokenIn, tokenOut)])
  {
    if states == [] then []
    else
      var rest := RoutesBetween(tokenIn, tokenOut, states[1..]);
      if tokenIn in states[0].tokens && tokenOut in states[0].tokens
      then [Route([RouteHop(states[0].poolId, tokenIn, tokenOut)])] + rest else rest
  }

  function Joined(first: Route, seconds: seq<Route>): (routes: seq<Route>)
    ensures forall r :: r in routes ==> exists s :: s in seconds && r == Route(first.hops + s.hops)
  {
    if seconds == [] then [] else [Route(first.hops + seconds[0].hops)] + Joined(first, seconds[1..])
  }

  function Products(firsts: seq<Route>, seconds: seq<Route>): (routes: seq<Route>)
    ensures forall r :: r in routes ==> exists f, s :: f in firsts && s in seconds && r == Route(f.hops + s.hops)
  {
    if firsts == [] then [] else Joined(firsts[0], seconds) + Products(firsts[1..], seconds)
  }

  function PathRoutes(request: Request, intermediates: seq<Address>, states: seq<PoolState>): (routes: seq<Route>) {
    if intermediates == [] then []
    else
      var rest := PathRoutes(request, intermediates[1..], states);
      var via := intermediates[0];
      if via in {request.tokenIn.address, request.tokenOut.address} then rest
      else Products(RoutesBetween(request.tokenIn.address, via, states),
                    RoutesBetween(via, request.tokenOut.address, states)) + rest
  }

  /** Every route the solver enumerates leads from the request's input token to its output token. */
  lemma {:induction false} EnumeratedRoutesServe(request: Request, intermediates: seq<Address>, states: seq<PoolState>)
    ensures forall r ::
      r in RoutesBetween(request.tokenIn.address, request.tokenOut.address, states)
        + PathRoutes(request, intermediates, states)
      ==> Serves(r, request)
    decreases |intermediates|
  {
    if intermediates != [] {
      EnumeratedRoutesServe(request, intermediates[1..], states);
      var via := intermediates[0];
      var firsts := RoutesBetween(request.tokenIn.address, via, states);
      var seconds := RoutesBetween(via, request.tokenOut.address, states);
      forall r | r in Products(firsts, seconds)
        ensures Serves(r, request)
      {
        var f, s :| f in firsts && s in seconds && r == Route(f.hops + s.hops);
      }
    }
  }

  // ---------------------------------------------------------------- one result

  ghost function Outcome(p: Problem, name: seq<nat>, parts: int): Scan
    requires parts > 0 && |name| == |p.routes|
  {
    AllItemsFit(p, parts);
    ScanAll(p, name, Begin([]), AllItems(p, parts))
  }

  /** Both forms return the first best trial of the exhaustive scan over all pairs, amounts and orders. */
  lemma BothFormsAreExhaustive(p: Problem, parts: int)
    requires parts > 0 && WellPosed(p)
    ensures var ts := Trials(p, AllItems(p, parts));
      && TrialsFit(p, ts)
      && Outcome(p, ByValue(p.routes), parts).best == Exhaust(p, ts) == Outcome(p, Identity(|p.routes|), parts).best
  {
    AllItemsFit(p, parts);
    ScanIsExhaustive(p, ByValue(p.routes), [], AllItems(p, parts));
    ScanIsExhaustive(p, Identity(|p.routes|), [], AllItems(p, parts));
  }

  /** The routes between two tokens are exactly the pools that hold both, one hop each. */
  lemma {:induction false} DirectRoutesAreAll(tokenIn: Address, tokenOut: Address, states: seq<PoolState>, r: Route)
    ensures r in RoutesBetween(tokenIn, tokenOut, states) <==>
      exists i :: 0 <= i < |states| && HopsThrough(states[i], tokenIn, tokenOut, r)
  {
    if states != [] {
      DirectRoutesAreAll(tokenIn, tokenOut, states[1..], r);
      if i :| 0 <= i < |states| && HopsThrough(states[i], tokenIn, tokenOut, r) {
        assert i > 0 ==> HopsThrough(states[1..][i - 1], tokenIn, tokenOut, r);
      }
      if i :| 0 <= i < |states| - 1 && HopsThrough(states[1..][i], tokenIn, tokenOut, r) {
        assert HopsThrough(states[i + 1], tokenIn, tokenOut, r);
      }
      assert r in RoutesBetween(tokenIn, tokenOut, states) <==>
        HopsThrough(states[0], tokenIn, tokenOut, r) || r in RoutesBetween(tokenIn, tokenOut, states[1..]);
    }
  }

  predicate HopsThrough(state: PoolState, tokenIn: Address, tokenOut: Address, r: Route) {
    tokenIn in state.tokens && tokenOut in state.tokens && r == Route([RouteHop(state.poolId, tokenIn, tokenOut)])
  }

  lemma {:induction false} JoinedAreAll(first: Route, seconds: seq<Route>, r: Route)
    ensures r in Joined(first, seconds) <==> exists s :: s in seconds && r == Route(first.hops + s.hops)
  {
    if seconds != [] {
      JoinedAreAll(first, seconds[1..], r);
      assert seconds == [seconds[0]] + seconds[1..];
    }
  }

  lemma {:induction false} ProductsAreAll(firsts: seq<Route>, seconds: seq<Route>, r: Route)
    ensures r in Products(firsts, seconds) <==>
      exists f, s :: f in firsts && s in seconds && r == Route(f.hops + s.hops)
  {
    if firsts != [] {
      ProductsAreAll(firsts[1..], seconds, r);
      JoinedAreAll(firsts[0], seconds, r);
      assert firsts == [firsts[0]] + firsts[1..];
    }
  }

  /** From the input to another token that is listed, and on to the output, through any pools that hold them. */
  ghost predicate GoesVia(request: Request, via: Address, states: seq<PoolState>, r: Route) {
    && via != request.tokenIn.address && via != request.tokenOut.address
    && exists f, s ::
         f in RoutesBetween(request.tokenIn.address, via, states)
         && s in RoutesBetween(via, request.tokenOut.address, states) && r == Route(f.hops + s.hops)
  }

  lemma {:induction false} PathRoutesAreAll(
    request: Request, intermediates: seq<Address>, states: seq<PoolState>, r: Route)
    ensures r in PathRoutes(request, intermediates, states) <==>
      exists via :: via in intermediates && GoesVia(request, via, states, r)
  {
    if intermediates != [] {
      var via, rest := intermediates[0], intermediates[1..];
      PathRoutesAreAll(request, rest, states, r);
      ProductsAreAll(RoutesBetween(request.tokenIn.address, via, states),
        RoutesBetween(via, request.tokenOut.address, states), r);
      hide Products, RoutesBetween;
      assert r in PathRoutes(request, intermediates, states) <==>
        GoesVia(request, via, states, r) || r in PathRoutes(request, rest, states);
      hide GoesVia, PathRoutes;
      if other :| other in intermediates && GoesVia(request, other, states, r) {
        assert other == via || other in rest;
      }
    }
  }

  /** The solver enumerates exactly the pools that hold both tokens, and the pairs of pools that lead through a listed
      token other than those. */
  lemma EnumeratedRoutesAreAll(request: Request, intermediates: seq<Address>, states: seq<PoolState>, r: Route)
    ensures r in AllRoutes(request, intermediates, states) <==>
      || (exists i :: 0 <= i < |states| && HopsThrough(states[i], request.tokenIn.address, request.tokenOut.address, r))
      || (exists via, i, j :: 0 <= i < |states| && 0 <= j < |states| && via in intermediates
            && TwoHops(request, via, states[i], states[j], r))
  {
    DirectRoutesAreAll(request.tokenIn.address, request.tokenOut.address, states, r);
    PathRoutesAreAll(request, intermediates, states, r);
    hide PathRoutes;
    forall via
      ensures GoesVia(request, via, states, r) <==>
        exists i, j :: 0 <= i < |states| && 0 <= j < |states| && TwoHops(request, via, states[i], states[j], r)
    {
      ViaIsTwoHops(request, via, states, r);
    }
    hide GoesVia, TwoHops, HopsThrough;
  }

  predicate TwoHops(request: Request, via: Address, first: PoolState, second: PoolState, r: Route) {
    && via != request.tokenIn.address && via != request.tokenOut.address
    && request.tokenIn.address in first.tokens && via in first.tokens
    && via in second.tokens && request.tokenOut.address in second.tokens
    && r == Route([RouteHop(first.poolId, request.tokenIn.address, via),
                   RouteHop(second.poolId, via, request.tokenOut.address)])
  }

  lemma ViaIsTwoHops(request: Request, via: Address, states: seq<PoolState>, r: Route)
    ensures GoesVia(request, via, states, r) <==>
      exists i, j :: 0 <= i < |states| && 0 <= j < |states| && TwoHops(request, via, states[i], states[j], r)
  {
    if GoesVia(request, via, states, r) {
      var f, s :| f in RoutesBetween(request.tokenIn.address, via, states)
        && s in RoutesBetween(via, request.tokenOut.address, states) && r == Route(f.hops + s.hops);
      DirectRoutesAreAll(request.tokenIn.address, via, states, f);
      DirectRoutesAreAll(via, request.tokenOut.address, states, s);
      var i :| 0 <= i < |states| && HopsThrough(states[i], request.tokenIn.address, via, f);
      var j :| 0 <= j < |states| && HopsThrough(states[j], via, request.tokenOut.address, s);
      assert TwoHops(request, via, states[i], states[j], r);
    }
    if i, j :| 0 <= i < |states| && 0 <= j < |states| && TwoHops(request, via, states[i], states[j], r) {
      var f := Route([RouteHop(states[i].poolId, request.tokenIn.address, via)]);
      var s := Route([RouteHop(states[j].poolId, via, request.tokenOut.address)]);
      DirectRoutesAreAll(request.tokenIn.address, via, states, f);
      DirectRoutesAreAll(via, request.tokenOut.address, states, s);
      assert HopsThrough(states[i], request.tokenIn.address, via, f);
      assert HopsThrough(states[j], via, request.tokenOut.address, s);
    }
  }

  // ---------------------------------------------------------------- when the diagnostics agree

  function Related(p: Problem, i: nat, j: nat): Relation
    requires i < |p.routes| && j < |p.routes|
  {
    RelationOf(p.routes[i], p.routes[j], PoolsById(p.states))
  }

  /** Positions a < b hold one route, and position c a route that the caches pair with it twice. */
  ghost predicate CountedTwice(p: Problem, a: nat, b: nat, c: nat) {
    && a < b < |p.routes| && c < |p.routes| && p.routes[a] == p.routes[b]
    && (Related(p, a, c) == Independent || (Related(p, a, c) == Conflicting && (c < a || b < c)))
  }

  ghost predicate Doubled(p: Problem, parts: int)
    requires parts > 0
  {
    Grid(p.request.amountIn, parts, parts) != [] && exists a, b, c :: CountedTwice(p, a, b, c)
  }

  lemma RelatedIsSymmetric(p: Problem, i: nat, j: nat)
    requires i < |p.routes| && j < |p.routes|
    ensures Related(p, i, j) == Related(p, j, i)
  {
    var pools, x, y := PoolsById(p.states), p.routes[i], p.routes[j];
    assert forall a, b :: Clash(pools, a, b) ==> Clash(pools, b, a);
    assert Overlap(x, y) ==> Overlap(y, x);
    assert Overlap(y, x) ==> Overlap(x, y);
    if CrossClash(x, y, pools) {
      var h, k :| h in x.hops && k in y.hops && Clash(pools, h.poolId, k.poolId);
      assert Clash(pools, k.poolId, h.poolId);
    }
    if CrossClash(y, x, pools) {
      var h, k :| h in y.hops && k in x.hops && Clash(pools, h.poolId, k.poolId);
      assert Clash(pools, k.poolId, h.poolId);
    }
  }

  ghost predicate Clear(p: Problem) {
    forall a, b, c :: !CountedTwice(p, a, b, c)
  }

  /** Without a doubled route, independent routes are their own first occurrence. */
  lemma IndependentNamesAreOwn(p: Problem, i: nat, j: nat)
    requires Clear(p) && i < |p.routes| && j < |p.routes| && Related(p, i, j) == Independent
    ensures ByValue(p.routes)[i] == i && ByValue(p.routes)[j] == j
  {
    hide RelationOf;
    RelatedIsSymmetric(p, i, j);
    var k, l := ByValue(p.routes)[i], ByValue(p.routes)[j];
    assert CountedTwice(p, k, i, j) || k == i;
    assert CountedTwice(p, l, j, i) || l == j;
  }

  /** Without a doubled route, conflicting pairs have names of their own. */
  lemma ConflictNamesAreDistinct(p: Problem, i: nat, j: nat, i': nat, j': nat)
    requires Clear(p) && i < j < |p.routes| && i' < j' < |p.routes|
    requires Related(p, i, j) == Conflicting == Related(p, i', j')
    requires p.routes[i] == p.routes[i'] && p.routes[j] == p.routes[j']
    ensures i == i' && j == j'
  {
    hide RelationOf;
    RelatedIsSymmetric(p, i, j);
    RelatedIsSymmetric(p, i', j');
    assert i < i' ==> CountedTwice(p, i, i', j');
    assert i' < i ==> CountedTwice(p, i', i, j);
    assert j < j' && i == i' ==> CountedTwice(p, j, j', i);
    assert j' < j && i == i' ==> CountedTwice(p, j', j, i);
  }

  ghost predicate SameScan(p: Problem, s: Scan, t: Scan) {
    var name := ByValue(p.routes);
    && s.best == t.best && s.log == t.log && s.quoted == t.quoted
    && (forall i, j :: 0 <= i < j < |p.routes| && Related(p, i, j) == Conflicting ==>
         ((name[i], name[j]) in s.conflicts <==> (i, j) in t.conflicts))
  }

  lemma ConsiderIgnoresConflicts(p: Problem, s: Scan, t: Trial, predicted: Option<int>, conflicts: set<(nat, nat)>)
    requires t.first < |p.routes| && t.second < |p.routes|
    ensures Consider(p, s.(conflicts := conflicts), t, predicted) ==
      Consider(p, s, t, predicted).(conflicts := conflicts)
  {
    hide Propose;
  }

  /** Away from conflicts an item reads only the quote names of its own two routes. */
  lemma ItemReadsOwnNames(p: Problem, n1: seq<nat>, n2: seq<nat>, s: Scan, conflicts: set<(nat, nat)>, it: Item)
    requires it.i < it.j < |p.routes| && |n1| == |n2| == |p.routes|
    requires Related(p, it.i, it.j) == Overlapping || (n1[it.i] == n2[it.i] && n1[it.j] == n2[it.j])
    requires Related(p, it.i, it.j) != Conflicting
    ensures ScanItem(p, n2, s.(conflicts := conflicts), it) == ScanItem(p, n1, s, it).(conflicts := conflicts)
  {
    hide RelationOf, Consider, RouteOutput, OrderedOutput, PoolsById;
    var there, back := Forward(p, it), Backward(p, it);
    if Related(p, it.i, it.j) == Overlapping {
      var s1 := s.(log := s.log + Ordered(p, there).log);
      ConsiderIgnoresConflicts(p, s1, there, Ordered(p, there).amount, conflicts);
      var s2 := Consider(p, s1, there, Ordered(p, there).amount);
      ConsiderIgnoresConflicts(p, s2.(log := s2.log + Ordered(p, back).log), back, Ordered(p, back).amount, conflicts);
    } else {
      var s1 := Consult(p, n1, Consult(p, n1, s, it.i, it.amount), it.j, p.request.amountIn - it.amount);
      ConsiderIgnoresConflicts(p, s1, there, Separate(p, it), conflicts);
      ConsiderIgnoresConflicts(p, Consider(p, s1, there, Separate(p, it)), back, Separate(p, it), conflicts);
    }
  }

  lemma ItemLeavesConflicts(p: Problem, name: seq<nat>, s: Scan, it: Item)
    requires it.i < it.j < |p.routes| && |name| == |p.routes| && Related(p, it.i, it.j) != Conflicting
    ensures ScanItem(p, name, s, it).conflicts == s.conflicts
  {
    ItemReadsOwnNames(p, name, name, s, s.conflicts, it);
  }

  lemma ItemKeepsSameScan(p: Problem, s: Scan, t: Scan, it: Item)
    requires Clear(p) && it.i < it.j < |p.routes| && SameScan(p, s, t)
    ensures SameScan(p, ScanItem(p, ByValue(p.routes), s, it), ScanItem(p, Identity(|p.routes|), t, it))
  {
    hide RelationOf, Clear, Consider, RouteOutput, OrderedOutput, PoolsById;
    var name, own := ByValue(p.routes), Identity(|p.routes|);
    if Related(p, it.i, it.j) == Conflicting {
      ConflictKeepsSameScan(p, s, t, it);
    } else {
      hide ScanItem;
      if Related(p, it.i, it.j) == Independent {
        IndependentNamesAreOwn(p, it.i, it.j);
      }
      ItemReadsOwnNames(p, name, own, s, t.conflicts, it);
      assert s.(conflicts := t.conflicts) == t;
      ItemLeavesConflicts(p, name, s, it);
      ItemLeavesConflicts(p, own, t, it);
    }
  }

  lemma ConflictKeepsSameScan(p: Problem, s: Scan, t: Scan, it: Item)
    requires Clear(p) && it.i < it.j < |p.routes| && SameScan(p, s, t) && Related(p, it.i, it.j) == Conflicting
    ensures SameScan(p, ScanItem(p, ByValue(p.routes), s, it), ScanItem(p, Identity(|p.routes|), t, it))
  {
    hide RelationOf, Clear, Consider, RouteOutput, OrderedOutput, PoolsById;
    var name := ByValue(p.routes);
    forall i, j | 0 <= i < j < |p.routes| && Related(p, i, j) == Conflicting && name[i] == name[it.i]
      && name[j] == name[it.j]
      ensures i == it.i && j == it.j
    {
      ConflictNamesAreDistinct(p, i, j, it.i, it.j);
    }
  }

  lemma {:induction false} ClearScansAgree(p: Problem, items: seq<Item>)
    requires Clear(p) && ItemsFit(p, items)
    ensures SameScan(p, ScanAll(p, ByValue(p.routes), Begin([]), items),
      ScanAll(p, Identity(|p.routes|), Begin([]), items))
    decreases |items|
  {
    hide ScanItem, SameScan, Clear;
    if items == [] {
      NothingScanned(p);
    } else {
      var front, it := items[..|items| - 1], items[|items| - 1];
      assert it in items;
      ClearScansAgree(p, front);
      ItemKeepsSameScan(p, ScanAll(p, ByValue(p.routes), Begin([]), front),
        ScanAll(p, Identity(|p.routes|), Begin([]), front), it);
    }
  }

  lemma NothingScanned(p: Problem)
    ensures SameScan(p, Begin([]), Begin([]))
  {
  }

  // ---------------------------------------------------------------- a doubled route can show

  /** A venue that refuses everything. */
  const DEAD_VENUE := Venue((s, i, o, a) => Unsupported("refused"), (s, i, o) => GasUnsupported("refused"))

  function OverlapCount(p: Problem, items: seq<Item>): nat
    requires forall it :: it in items ==> it.i < it.j < |p.routes|
    decreases |items|
  {
    if items == [] then 0
    else
      assert items[|items| - 1] in items;
      OverlapCount(p, items[..|items| - 1]) +
      if Related(p, items[|items| - 1].i, items[|items| - 1].j) == Overlapping then 2 else 0
  }

  lemma DeadRoutes(route: Route, amount: int, states: map<PoolId, PoolState>)
    requires route.hops != []
    ensures var q := Quote(DEAD_VENUE, route.hops, amount, states); q.Stuck? && q.failure.Some?
  {
    assert route.hops[..1][..0] == [];
    QuoteSticks(DEAD_VENUE, route.hops, amount, states, 1);
  }

  ghost predicate Counted(p: Problem, s: Scan, items: seq<Item>)
    requires ItemsFit(p, items)
  {
    s.best.None? && |s.log| == |s.quoted| + |s.conflicts| + OverlapCount(p, items)
  }

  lemma DeadQuotes(p: Problem, i: nat, amount: int)
    requires p.venue == DEAD_VENUE && WellPosed(p) && i < |p.routes|
    ensures var q := RouteOutput(p.venue, p.routes[i], amount, PoolsById(p.states)); q.amount.None? && |q.log| == 1
  {
    hide Quote;
    assert p.routes[i] in p.routes;
    DeadRoutes(p.routes[i], amount, PoolsById(p.states));
  }

  lemma DeadOrders(p: Problem, t: Trial)
    requires p.venue == DEAD_VENUE && WellPosed(p) && t.first < |p.routes| && t.second < |p.routes|
    ensures Ordered(p, t).amount.None? && |Ordered(p, t).log| == 1
  {
    hide Quote;
    assert p.routes[t.first] in p.routes;
    DeadRoutes(p.routes[t.first], t.firstAmount, PoolsById(p.states));
  }

  lemma DeadItemCounts(p: Problem, name: seq<nat>, s: Scan, it: Item)
    requires p.venue == DEAD_VENUE && WellPosed(p) && it.i < it.j < |p.routes| && |name| == |p.routes|
    ensures var after := ScanItem(p, name, s, it);
      && after.best == s.best
      && |after.log| - |s.log| == |after.quoted| - |s.quoted| + |after.conflicts| - |s.conflicts|
           + if Related(p, it.i, it.j) == Overlapping then 2 else 0
  {
    hide RelationOf, RouteOutput, OrderedOutput, Propose, PoolsById, WellPosed, Ordered;
    match Related(p, it.i, it.j) {
      case Conflicting =>
      case Overlapping =>
        DeadOrders(p, Forward(p, it));
        DeadOrders(p, Backward(p, it));
      case Independent =>
        DeadQuotes(p, it.i, it.amount);
        DeadQuotes(p, it.j, p.request.amountIn - it.amount);
    }
  }

  /** On the dead venue every cache entry, conflict and overlapping order leaves one diagnostic. */
  lemma {:induction false} DeadScanCounts(p: Problem, name: seq<nat>, items: seq<Item>)
    requires p.venue == DEAD_VENUE && WellPosed(p) && ItemsFit(p, items) && |name| == |p.routes|
    ensures Counted(p, ScanAll(p, name, Begin([]), items), items)
    decreases |items|
  {
    hide RelationOf, ScanItem, WellPosed;
    if items != [] {
      var front, it := items[..|items| - 1], items[|items| - 1];
      assert it in items;
      DeadScanCounts(p, name, front);
      DeadItemCounts(p, name, ScanAll(p, name, Begin([]), front), it);
    }
  }

  function Image<A, B>(s: set<A>, f: A -> B): set<B> {
    set a | a in s :: f(a)
  }

  lemma {:induction false} ImageIsNoLarger<A, B>(s: set<A>, f: A -> B)
    ensures |Image(s, f)| <= |s|
    decreases s
  {
    if a :| a in s {
      var rest := s - {a};
      ImageIsNoLarger(rest, f);
      assert Image(s, f) == Image(rest, f) + {f(a)};
    }
  }

  lemma ImageIsSmaller<A, B>(s: set<A>, f: A -> B, a: A, b: A)
    requires a in s && b in s && a != b && f(a) == f(b)
    ensures |Image(s, f)| < |s|
  {
    var rest := s - {a};
    ImageIsNoLarger(rest, f);
    assert f(b) in Image(rest, f);
    assert Image(s, f) == Image(rest, f);
  }

  function QuoteName(name: seq<nat>): ((nat, int)) -> (nat, int) {
    (q: (nat, int)) => (if q.0 < |name| then name[q.0] else q.0, q.1)
  }

  function PairName(name: seq<nat>): ((nat, nat)) -> (nat, nat) {
    (c: (nat, nat)) => (if c.0 < |name| then name[c.0] else c.0, if c.1 < |name| then name[c.1] else c.1)
  }

  /** The caches keyed by value hold the images of those keyed by index. */
  ghost predicate Imaged(p: Problem, s: Scan, t: Scan) {
    var name := ByValue(p.routes);
    s.quoted == Image(t.quoted, QuoteName(name)) && s.conflicts == Image(t.conflicts, PairName(name))
  }

  function QuotesOf(p: Problem, name: seq<nat>, it: Item): set<(nat, int)>
    requires it.i < it.j < |p.routes| && |name| == |p.routes|
  {
    if Related(p, it.i, it.j) != Independent then {}
    else {(name[it.i], it.amount), (name[it.j], p.request.amountIn - it.amount)}
  }

  function ConflictsOf(p: Problem, name: seq<nat>, it: Item): set<(nat, nat)>
    requires it.i < it.j < |p.routes| && |name| == |p.routes|
  {
    if Related(p, it.i, it.j) != Conflicting then {} else {(name[it.i], name[it.j])}
  }

  /** What one item adds to the caches. */
  lemma ItemCaches(p: Problem, name: seq<nat>, s: Scan, it: Item)
    requires it.i < it.j < |p.routes| && |name| == |p.routes|
    ensures var after := ScanItem(p, name, s, it);
      after.quoted == s.quoted + QuotesOf(p, name, it) && after.conflicts == s.conflicts + ConflictsOf(p, name, it)
  {
    hide RelationOf, RouteOutput, OrderedOutput, Propose, PoolsById, Ordered;
  }

  ghost predicate ImagedAndHeld(p: Problem, s: Scan, t: Scan, items: seq<Item>)
    requires ItemsFit(p, items)
  {
    && Imaged(p, s, t)
    && forall it :: it in items ==>
         QuotesOf(p, Identity(|p.routes|), it) <= t.quoted && ConflictsOf(p, Identity(|p.routes|), it) <= t.conflicts
  }

  lemma {:induction false} CachesAreImages(p: Problem, items: seq<Item>)
    requires ItemsFit(p, items)
    ensures ImagedAndHeld(p, ScanAll(p, ByValue(p.routes), Begin([]), items),
      ScanAll(p, Identity(|p.routes|), Begin([]), items), items)
    decreases |items|
  {
    hide ScanItem, QuotesOf, ConflictsOf;
    if items != [] {
      var front, it := items[..|items| - 1], items[|items| - 1];
      assert items == front + [it] && it in items;
      CachesAreImages(p, front);
      var name, own := ByValue(p.routes), Identity(|p.routes|);
      var s, t := ScanAll(p, name, Begin([]), front), ScanAll(p, own, Begin([]), front);
      ItemCaches(p, name, s, it);
      ItemCaches(p, own, t, it);
      ItemImages(p, it, t.quoted, t.conflicts);
    }
  }

  lemma ItemImages(p: Problem, it: Item, quoted: set<(nat, int)>, conflicts: set<(nat, nat)>)
    requires it.i < it.j < |p.routes|
    ensures var name, own := ByValue(p.routes), Identity(|p.routes|);
      && Image(quoted + QuotesOf(p, own, it), QuoteName(name)) == Image(quoted, QuoteName(name)) + QuotesOf(p, name, it)
      && Image(conflicts + ConflictsOf(p, own, it), PairName(name)) ==
        Image(conflicts, PairName(name)) + ConflictsOf(p, name, it)
  {
    hide RelationOf, ByValue, PoolsById;
    var name, own := ByValue(p.routes), Identity(|p.routes|);
    ImageOfUnion(quoted, QuotesOf(p, own, it), QuoteName(name));
    ImageOfUnion(conflicts, ConflictsOf(p, own, it), PairName(name));
    assert Image(QuotesOf(p, own, it), QuoteName(name)) == QuotesOf(p, name, it);
    assert Image(ConflictsOf(p, own, it), PairName(name)) == ConflictsOf(p, name, it);
  }

  lemma ImageOfUnion<A, B>(s: set<A>, t: set<A>, f: A -> B)
    ensures Image(s + t, f) == Image(s, f) + Image(t, f)
  {
  }

  /** The items that pair c with either copy, at an amount each copy is quoted for. */
  function Meeting(p: Problem, k: nat, c: nat, amount: int): Item
    requires k < |p.routes| && c < |p.routes| && k != c
  {
    if k < c then Item(amount, k, c) else Item(p.request.amountIn - amount, c, k)
  }

  lemma MeetingIsScanned(p: Problem, parts: int, k: nat, c: nat, amount: int)
    requires parts > 0 && k < |p.routes| && c < |p.routes| && k != c && OnGrid(p.request.amountIn, parts, parts, amount)
    ensures Meeting(p, k, c, amount) in AllItems(p, parts)
  {
    GridIsClosed(p.request.amountIn, parts, amount);
    ItemsCover(Grid(p.request.amountIn, parts, parts), Pairs(|p.routes|), Meeting(p, k, c, amount));
  }

  /** A route is never unrelated to itself. */
  lemma RelatedToItself(p: Problem, k: nat)
    requires WellPosed(p) && k < |p.routes|
    ensures Related(p, k, k) == Overlapping
  {
    assert p.routes[k] in p.routes;
    assert p.routes[k].hops[0] in p.routes[k].hops;
  }

  /** With a doubled route some cache keyed by value is strictly smaller than its counterpart. */
  lemma DoubledShrinksACache(p: Problem, parts: int, a: nat, b: nat, c: nat)
    requires parts > 0 && WellPosed(p) && CountedTwice(p, a, b, c) && Grid(p.request.amountIn, parts, parts) != []
    ensures var s, t := Outcome(p, ByValue(p.routes), parts), Outcome(p, Identity(|p.routes|), parts);
      |s.quoted| + |s.conflicts| < |t.quoted| + |t.conflicts|
  {
    hide RelationOf, WellPosed, ByValue, PoolsById, ScanAll;
    var name := ByValue(p.routes);
    AllItemsFit(p, parts);
    CachesAreImages(p, AllItems(p, parts));
    var t := Outcome(p, Identity(|p.routes|), parts);
    ImageIsNoLarger(t.quoted, QuoteName(name));
    ImageIsNoLarger(t.conflicts, PairName(name));
    RelatedToItself(p, a);
    RelatedIsSymmetric(p, a, c);
    RelatedIsSymmetric(p, b, c);
    assert p.routes[a] == p.routes[b];
    assert Related(p, a, c) == Related(p, b, c) && Related(p, a, b) == Overlapping;
    var x := Grid(p.request.amountIn, parts, parts)[0];
    assert x in Grid(p.request.amountIn, parts, parts);
    MeetingIsScanned(p, parts, a, c, x);
    MeetingIsScanned(p, parts, b, c, x);
    if Related(p, a, c) == Independent {
      assert (a, x) in t.quoted && (b, x) in t.quoted;
      ImageIsSmaller(t.quoted, QuoteName(name), (a, x), (b, x));
    } else if c < a {
      assert (c, a) in t.conflicts && (c, b) in t.conflicts;
      ImageIsSmaller(t.conflicts, PairName(name), (c, a), (c, b));
    } else {
      assert (a, c) in t.conflicts && (b, c) in t.conflicts;
      ImageIsSmaller(t.conflicts, PairName(name), (a, c), (b, c));
    }
  }

  /** The diagnostics of the two forms agree on every venue exactly when no route is counted twice. */
  lemma DiagnosticsAgree(p: Problem, parts: int)
    requires parts > 0 && WellPosed(p)
    ensures (forall v: Venue :: var q := p.(venue := v);
      Outcome(q, ByValue(q.routes), parts).log == Outcome(q, Identity(|q.routes|), parts).log)
      <==> !Doubled(p, parts)
  {
    hide ScanAll;
    if Doubled(p, parts) {
      var a, b, c :| CountedTwice(p, a, b, c);
      var q := p.(venue := DEAD_VENUE);
      assert CountedTwice(q, a, b, c);
      AllItemsFit(q, parts);
      DeadScanCounts(q, ByValue(q.routes), AllItems(q, parts));
      DeadScanCounts(q, Identity(|q.routes|), AllItems(q, parts));
      DoubledShrinksACache(q, parts, a, b, c);
    } else {
      forall v: Venue
        ensures var q := p.(venue := v);
          Outcome(q, ByValue(q.routes), parts).log == Outcome(q, Identity(|q.routes|), parts).log
      {
        var q := p.(venue := v);
        if Grid(p.request.amountIn, parts, parts) == [] {
          EmptyGrid(q, parts);
        } else {
          AllItemsFit(q, parts);
          forall a, b, c
            ensures !CountedTwice(q, a, b, c)
          {
            assert !CountedTwice(p, a, b, c);
          }
          ClearScansAgree(q, AllItems(q, parts));
        }
      }
    }
  }

  lemma EmptyGrid(p: Problem, parts: int)
    requires parts > 0 && Grid(p.request.amountIn, parts, parts) == []
    ensures Outcome(p, ByValue(p.routes), parts) == Outcome(p, Identity(|p.routes|), parts)
  {
  }

  // ---------------------------------------------------------------- for the routes that `solve` builds

  function AllRoutes(request: Request, intermediates: seq<Address>, states: seq<PoolState>): seq<Route> {
    RoutesBetween(request.tokenIn.address, request.tokenOut.address, states)
      + PathRoutes(request, intermediates, states)
  }

  /** A direct route names a pool of the list. */
  lemma {:induction false} DirectRoutesName(tokenIn: Address, tokenOut: Address, states: seq<PoolState>)
    ensures forall r :: r in RoutesBetween(tokenIn, tokenOut, states) ==>
      |r.hops| == 1 && exists i :: 0 <= i < |states| && r.hops[0] == RouteHop(states[i].poolId, tokenIn, tokenOut)
  {
    if states != [] {
      DirectRoutesName(tokenIn, tokenOut, states[1..]);
      forall r | r in RoutesBetween(tokenIn, tokenOut, states)
        ensures |r.hops| == 1
        ensures exists i :: 0 <= i < |states| && r.hops[0] == RouteHop(states[i].poolId, tokenIn, tokenOut)
      {
        if r in RoutesBetween(tokenIn, tokenOut, states[1..]) {
          var i :| 0 <= i < |states[1..]| && r.hops[0] == RouteHop(states[1..][i].poolId, tokenIn, tokenOut);
          assert states[1..][i] == states[i + 1];
        }
      }
    }
  }

  lemma PutInFront<T>(x: T, xs: seq<T>)
    requires Distinct(xs) && x !in xs
    ensures Distinct([x] + xs)
  {
    forall j | 0 <= j < |xs| ensures xs[j] != x {
      assert xs[j] in xs;
    }
  }

  lemma HeadIsNew<T>(xs: seq<T>)
    requires Distinct(xs) && xs != []
    ensures xs[0] !in xs[1..]
  {
  }

  lemma PutTogether<T(!new)>(xs: seq<T>, ys: seq<T>)
    requires Distinct(xs) && Distinct(ys) && forall x :: x in xs ==> x !in ys
    ensures Distinct(xs + ys)
  {
    forall i, j | 0 <= i < |xs| && 0 <= j < |ys| ensures xs[i] != ys[j] {
      assert xs[i] in xs && ys[j] in ys;
    }
  }

  lemma {:induction false} DirectRoutesAreDistinct(tokenIn: Address, tokenOut: Address, states: seq<PoolState>)
    requires DistinctIds(states)
    ensures Distinct(RoutesBetween(tokenIn, tokenOut, states))
  {
    if states != [] {
      var rest := RoutesBetween(tokenIn, tokenOut, states[1..]);
      DirectRoutesAreDistinct(tokenIn, tokenOut, states[1..]);
      DirectRoutesName(tokenIn, tokenOut, states[1..]);
      var first := Route([RouteHop(states[0].poolId, tokenIn, tokenOut)]);
      forall r | r in rest ensures r != first {
        var i :| 0 <= i < |states[1..]| && r.hops[0] == RouteHop(states[1..][i].poolId, tokenIn, tokenOut);
        assert states[1..][i] == states[i + 1];
      }
      PutInFront(first, rest);
    }
  }

  /** Routes of one hop each, all from one token and to another. */
  ghost predicate OneHop(routes: seq<Route>, tokenIn: Address, tokenOut: Address) {
    forall r :: r in routes ==> |r.hops| == 1 && r.hops[0].tokenIn == tokenIn && r.hops[0].tokenOut == tokenOut
  }

  lemma {:induction false} JoinedAreDistinct(first: Route, seconds: seq<Route>)
    requires Distinct(seconds)
    ensures Distinct(Joined(first, seconds))
  {
    if seconds != [] {
      var rest := Joined(first, seconds[1..]);
      JoinedAreDistinct(first, seconds[1..]);
      var r := Route(first.hops + seconds[0].hops);
      HeadIsNew(seconds);
      forall q | q in rest ensures q != r {
        var s :| s in seconds[1..] && q == Route(first.hops + s.hops);
        assert q.hops[|first.hops|..] == s.hops && r.hops[|first.hops|..] == seconds[0].hops;
      }
      PutInFront(r, rest);
    }
  }

  lemma {:induction false} ProductsAreDistinct(firsts: seq<Route>, seconds: seq<Route>, tokenIn: Address, via: Address)
    requires Distinct(firsts) && Distinct(seconds) && OneHop(firsts, tokenIn, via)
    ensures Distinct(Products(firsts, seconds))
  {
    if firsts != [] {
      var f, rest := firsts[0], firsts[1..];
      assert forall r :: r in rest ==> r in firsts;
      ProductsAreDistinct(rest, seconds, tokenIn, via);
      JoinedAreDistinct(f, seconds);
      HeadIsNew(firsts);
      forall r, q | r in Joined(f, seconds) && q in Products(rest, seconds) ensures r != q {
        var s :| s in seconds && r == Route(f.hops + s.hops);
        var g, t :| g in rest && t in seconds && q == Route(g.hops + t.hops);
        assert r.hops[..1] == f.hops && q.hops[..1] == g.hops;
      }
      PutTogether(Joined(f, seconds), Products(rest, seconds));
    }
  }

  /** A path route has two hops and goes through a listed intermediate. */
  lemma {:induction false} PathRoutesGoVia(request: Request, intermediates: seq<Address>, states: seq<PoolState>)
    ensures forall r :: r in PathRoutes(request, intermediates, states) ==>
      |r.hops| == 2 && r.hops[0].tokenOut in intermediates
  {
    if intermediates != [] {
      PathRoutesGoVia(request, intermediates[1..], states);
      ProductsGoVia(request, intermediates[0], states);
    }
  }

  lemma ProductsGoVia(request: Request, via: Address, states: seq<PoolState>)
    ensures forall r ::
      r in Products(RoutesBetween(request.tokenIn.address, via, states),
        RoutesBetween(via, request.tokenOut.address, states)) ==>
      |r.hops| == 2 && r.hops[0].tokenOut == via
  {
  }

  lemma {:induction false} PathRoutesAreDistinct(request: Request, intermediates: seq<Address>, states: seq<PoolState>)
    requires DistinctIds(states) && Distinct(intermediates)
    ensures Distinct(PathRoutes(request, intermediates, states))
  {
    if intermediates != [] {
      var via, rest := intermediates[0], intermediates[1..];
      var firsts := RoutesBetween(request.tokenIn.address, via, states);
      var seconds := RoutesBetween(via, request.tokenOut.address, states);
      PathRoutesAreDistinct(request, rest, states);
      DirectRoutesAreDistinct(request.tokenIn.address, via, states);
      DirectRoutesAreDistinct(via, request.tokenOut.address, states);
      ProductsAreDistinct(firsts, seconds, request.tokenIn.address, via);
      ProductsGoVia(request, via, states);
      PathRoutesGoVia(request, rest, states);
      assert via !in rest;
      hide Products, RoutesBetween;
      PutTogether(Products(firsts, seconds), PathRoutes(request, rest, states));
    }
  }

  /** Unique pool ids and intermediates that are not repeated give a route list without repeats. */
  lemma EnumeratedRoutesAreDistinct(request: Request, intermediates: seq<Address>, states: seq<PoolState>)
    requires DistinctIds(states) && Distinct(intermediates)
    ensures Distinct(AllRoutes(request, intermediates, states))
  {
    DirectRoutesAreDistinct(request.tokenIn.address, request.tokenOut.address, states);
    DirectRoutesName(request.tokenIn.address, request.tokenOut.address, states);
    PathRoutesAreDistinct(request, intermediates, states);
    PathRoutesGoVia(request, intermediates, states);
    PutTogether(RoutesBetween(request.tokenIn.address, request.tokenOut.address, states),
      PathRoutes(request, intermediates, states));
  }

  /** On the solver's own routes the two forms record the same diagnostics, on every venue, unless the constructor was
      given an intermediate twice; the intermediates that the solver infers itself are a set. */
  lemma EnumeratedDiagnosticsAgree(
    venue: Venue, request: Request, intermediates: seq<Address>, states: seq<PoolState>, parts: int)
    requires parts > 0 && DistinctIds(states) && Distinct(intermediates)
    ensures var p := Problem(venue, AllRoutes(request, intermediates, states), request, states);
      Outcome(p, ByValue(p.routes), parts).log == Outcome(p, Identity(|p.routes|), parts).log
  {
    hide AllRoutes, Doubled, Outcome;
    var p := Problem(venue, AllRoutes(request, intermediates, states), request, states);
    EnumeratedRoutesAreDistinct(request, intermediates, states);
    EnumeratedIsWellPosed(venue, request, intermediates, states);
    assert !Doubled(p, parts) by {
      DistinctIsNotDoubled(p, parts);
    }
    DiagnosticsAgree(p, parts);
    var q := p.(venue := venue);
    assert q == p;
  }

  lemma EnumeratedIsWellPosed(venue: Venue, request: Request, intermediates: seq<Address>, states: seq<PoolState>)
    ensures WellPosed(Problem(venue, AllRoutes(request, intermediates, states), request, states))
  {
    EnumeratedRoutesServe(request, intermediates, states);
  }

  lemma DistinctIsNotDoubled(p: Problem, parts: int)
    requires parts > 0 && Distinct(p.routes)
    ensures !Doubled(p, parts)
  {
  }

  /** A constructor that is given one intermediate twice makes the solver list a route twice, and then some venue gets
      different diagnostics. */
  lemma RepeatedIntermediateDoubles(venue: Venue) returns (request: Request, via: Address, states: seq<PoolState>)
    ensures ValidRequest(request) && DistinctIds(states)
    ensures var p := Problem(venue, AllRoutes(request, [via, via], states), request, states);
      && Doubled(p, 10)
      && exists v: Venue :: var q := p.(venue := v);
           Outcome(q, ByValue(q.routes), 10).log != Outcome(q, Identity(|q.routes|), 10).log
  {
    var depth: Depth :| true;
    request, via := Request(Token(1, "in"), Token(1, "out"), 10, false), "via";
    var direct := PoolState("d", 1, ["in", "out"], [], None, depth);
    var a, b := PoolState("a", 1, ["in", "via"], [], None, depth), PoolState("b", 1, ["via", "out"], [], None, depth);
    states := [direct, a, b];
    DifferentIds();
    var p := Problem(venue, AllRoutes(request, [via, via], states), request, states);
    hide AllRoutes, RelationOf, Grid, Outcome, WellPosed, Doubled;
    ThreeRoutes(request, direct, a, b);
    IndependentExample(p, direct, a, b);
    assert CountedTwice(p, 1, 2, 0);
    OneOfTen(p);
    EnumeratedIsWellPosed(venue, request, [via, via], states);
    DiagnosticsAgree(p, 10);
  }

  lemma DifferentIds()
    ensures "d" != "a" && "a" != "b" && "d" != "b"
  {
    assert "d"[0] != "a"[0] && "a"[0] != "b"[0] && "d"[0] != "b"[0];
  }

  lemma OneOfTen(p: Problem)
    requires p.request.amountIn == 10 && exists a, b, c :: CountedTwice(p, a, b, c)
    ensures Doubled(p, 10)
  {
    hide CountedTwice, Grid;
    assert Share(10, 1, 10) == 1 && OnGrid(10, 10, 10, 1);
    assert 1 in Grid(10, 10, 10);
  }

  lemma ThreeRoutes(request: Request, direct: PoolState, a: PoolState, b: PoolState)
    requires request.tokenIn.address == "in" && request.tokenOut.address == "out"
    requires direct.tokens == ["in", "out"] && a.tokens == ["in", "via"] && b.tokens == ["via", "out"]
    ensures AllRoutes(request, ["via", "via"], [direct, a, b]) ==
      [Route([RouteHop(direct.poolId, "in", "out")]),
       Route([RouteHop(a.poolId, "in", "via"), RouteHop(b.poolId, "via", "out")]),
       Route([RouteHop(a.poolId, "in", "via"), RouteHop(b.poolId, "via", "out")])]
  {
    var states := [direct, a, b];
    assert "in"[0] != "out"[0] && "in"[0] != "via"[0] && "out"[0] != "via"[0];
    assert states[1..] == [a, b] && [a, b][1..] == [b] && [b][1..] == [];
    assert RoutesBetween("in", "out", [b]) == [] && RoutesBetween("in", "out", [a, b]) == [];
    assert RoutesBetween("in", "via", [b]) == [];
    assert RoutesBetween("in", "via", [a, b]) == [Route([RouteHop(a.poolId, "in", "via")])];
    assert RoutesBetween("in", "via", states) == [Route([RouteHop(a.poolId, "in", "via")])];
    assert RoutesBetween("via", "out", [b]) == [Route([RouteHop(b.poolId, "via", "out")])];
    assert RoutesBetween("via", "out", [a, b]) == [Route([RouteHop(b.poolId, "via", "out")])];
    assert RoutesBetween("via", "out", states) == [Route([RouteHop(b.poolId, "via", "out")])];
    var first, second := Route([RouteHop(a.poolId, "in", "via")]), Route([RouteHop(b.poolId, "via", "out")]);
    var path := Route(first.hops + second.hops);
    assert path.hops == [RouteHop(a.poolId, "in", "via"), RouteHop(b.poolId, "via", "out")];
    assert [first][1..] == [] && [second][1..] == [];
    assert Joined(first, [second]) == [path];
    assert Products([first], [second]) == [path];
    assert ["via", "via"][1..] == ["via"] && ["via"][1..] == [];
    assert PathRoutes(request, ["via"], states) == [path];
    assert PathRoutes(request, ["via", "via"], states) == [path, path];
  }

  lemma IndependentExample(p: Problem, direct: PoolState, a: PoolState, b: PoolState)
    requires p.states == [direct, a, b] && DistinctIds(p.states)
    requires direct.capacityIds == [] && a.capacityIds == [] && b.capacityIds == []
    requires |p.routes| == 3 && p.routes[0] == Route([RouteHop(direct.poolId, "in", "out")])
    requires p.routes[1] == Route([RouteHop(a.poolId, "in", "via"), RouteHop(b.poolId, "via", "out")])
    ensures Related(p, 1, 0) == Independent
  {
    PoolsByIdLists(p.states);
    var pools := PoolsById(p.states);
    assert p.states[0] == direct && p.states[1] == a && p.states[2] == b;
    assert forall h :: h in p.routes[0].hops ==> h.poolId == direct.poolId;
    assert forall h :: h in p.routes[1].hops ==> h.poolId in {a.poolId, b.poolId};
  }
}
