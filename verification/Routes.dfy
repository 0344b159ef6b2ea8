/** Routes of the baseline solver: quoting them hop by hop, compiling them to plans, and why the two agree. */
module Routes {
  import opened Market
  import opened Evaluator

  datatype RouteHop = RouteHop(poolId: PoolId, tokenIn: Address, tokenOut: Address)

  datatype Route = Route(hops: seq<RouteHop>)

  function PathOf(hops: seq<RouteHop>): (ids: seq<PoolId>)
    ensures |ids| == |hops|
    ensures forall i :: 0 <= i < |hops| ==> ids[i] == hops[i].poolId
  {
    seq(|hops|, i requires 0 <= i < |hops| => hops[i].poolId)
  }

  /** Where a quote stopped: the pool, the amount it was offered and the reason. */
  datatype Failure = Failure(poolId: PoolId, amount: int, why: string)

  /** An entry of the solver's `unsupported` list. */
  datatype Diagnostic =
    | NoQuote(path: seq<PoolId>, failure: Failure)
    | Infeasible(path: seq<PoolId>, amount: int, reasons: seq<Reason>)

  /** A route walked hop by hop. `Stuck(None)` is a malformed amount, which leaves no diagnostic. */
  datatype Quoting = Reached(amount: int, current: map<PoolId, PoolState>) | Stuck(failure: Option<Failure>)

  function QuoteHop(venue: Venue, hop: RouteHop, amount: int, current: map<PoolId, PoolState>): Quoting {
    if hop.poolId !in current then Stuck(Some(Failure(hop.poolId, amount, "unknown pool")))
    else match venue.swap(current[hop.poolId], hop.tokenIn, hop.tokenOut, amount)
      case Unsupported(why) => Stuck(Some(Failure(hop.poolId, amount, why)))
      case Swapped(out, next) => if out < 0 then Stuck(None) else Reached(out, current[hop.poolId := next])
  }

  function Quote(venue: Venue, hops: seq<RouteHop>, amount: int, current: map<PoolId, PoolState>): Quoting {
    if hops == [] then Reached(amount, current)
    else match Quote(venue, hops[..|hops| - 1], amount, current)
      case Stuck(f) => Stuck(f)
      case Reached(a, now) => QuoteHop(venue, hops[|hops| - 1], a, now)
  }

  lemma {:induction false} QuoteSticks(
    venue: Venue, hops: seq<RouteHop>, amount: int, current: map<PoolId, PoolState>, n: nat)
    requires n <= |hops| && Quote(venue, hops[..n], amount, current).Stuck?
    ensures Quote(venue, hops, amount, current) == Quote(venue, hops[..n], amount, current)
    decreases |hops|
  {
    if n < |hops| {
      assert hops[..|hops| - 1][..n] == hops[..n];
      QuoteSticks(venue, hops[..|hops| - 1], amount, current, n);
    } else {
      assert hops[..n] == hops;
    }
  }

  function Report(route: Route, failure: Option<Failure>): seq<Diagnostic> {
    match failure case None => [] case Some(f) => [NoQuote(PathOf(route.hops), f)]
  }

  /** An amount, if there is one, and the diagnostics recorded on the way. */
  datatype Quoted = Quoted(amount: Option<int>, log: seq<Diagnostic>)

  /** `_route_output` on an empty cache. */
  function RouteOutput(venue: Venue, route: Route, amount: int, states: map<PoolId, PoolState>): Quoted {
    match Quote(venue, route.hops, amount, states)
    case Stuck(f) => Quoted(None, Report(route, f))
    case Reached(a, _) => Quoted(Some(a), [])
  }

  /** `_ordered_output`: the second route runs on the states the first one left. */
  function OrderedOutput(
    venue: Venue, first: Route, second: Route, firstAmount: int, secondAmount: int, states: map<PoolId, PoolState>)
    : Quoted
  {
    match Quote(venue, first.hops, firstAmount, states)
    case Stuck(f) => Quoted(None, Report(first, f))
    case Reached(out, current) =>
      match Quote(venue, second.hops, secondAmount, current)
      case Stuck(f) => Quoted(None, Report(second, f))
      case Reached(more, _) => Quoted(Some(out + more), [])
  }

  // ---------------------------------------------------------------- disjoint routes quote independently

  predicate Overlap(a: Route, b: Route) {
    exists h :: h in a.hops && exists k :: k in b.hops && h.poolId == k.poolId
  }

  ghost predicate AgreeOn(ids: set<PoolId>, m: map<PoolId, PoolState>, n: map<PoolId, PoolState>) {
    forall p :: p in ids ==> (p in m <==> p in n) && (p in m ==> m[p] == n[p])
  }

  /** A quote reads only its own pools. */
  lemma {:induction false} QuoteReads(
    venue: Venue, hops: seq<RouteHop>, amount: int, ids: set<PoolId>, m: map<PoolId, PoolState>,
    n: map<PoolId, PoolState>)
    requires (forall h :: h in hops ==> h.poolId in ids) && AgreeOn(ids, m, n)
    ensures var x, y := Quote(venue, hops, amount, m), Quote(venue, hops, amount, n);
      && (x.Stuck? ==> x == y)
      && (x.Reached? ==> y.Reached? && x.amount == y.amount && AgreeOn(ids, x.current, y.current))
    decreases |hops|
  {
    if hops != [] {
      assert hops[|hops| - 1] in hops;
      QuoteReads(venue, hops[..|hops| - 1], amount, ids, m, n);
    }
  }

  /** A quote writes only its own pools. */
  lemma {:induction false} QuoteWrites(
    venue: Venue, hops: seq<RouteHop>, amount: int, ids: set<PoolId>, states: map<PoolId, PoolState>)
    requires (forall h :: h in hops ==> h.poolId !in ids) && Quote(venue, hops, amount, states).Reached?
    ensures AgreeOn(ids, Quote(venue, hops, amount, states).current, states)
    decreases |hops|
  {
    if hops != [] {
      assert hops[|hops| - 1] in hops;
      QuoteWrites(venue, hops[..|hops| - 1], amount, ids, states);
    }
  }

  /** On disjoint routes the ordered quote is the sum of the two separate quotes. */
  lemma DisjointRoutesAdd(
    venue: Venue, first: Route, second: Route, firstAmount: int, secondAmount: int, states: map<PoolId, PoolState>)
    requires !Overlap(first, second)
    ensures var a := RouteOutput(venue, first, firstAmount, states).amount;
      var b := RouteOutput(venue, second, secondAmount, states).amount;
      OrderedOutput(venue, first, second, firstAmount, secondAmount, states).amount
      == if a.Some? && b.Some? then Some(a.value + b.value) else None
  {
    hide Quote;
    var ids := set h | h in second.hops :: h.poolId;
    var x := Quote(venue, first.hops, firstAmount, states);
    if x.Reached? {
      QuoteWrites(venue, first.hops, firstAmount, ids, states);
      QuoteReads(venue, second.hops, secondAmount, ids, x.current, states);
    }
  }

  // ---------------------------------------------------------------- plans

  /** `_compile` in progress: it checks nothing about the amounts it passes on. */
  datatype Compiling =
    | Compiled(steps: seq<Step>, amount: int, current: map<PoolId, PoolState>)
    | NotCompiled(failure: Failure)

  function CompileHop(venue: Venue, hop: RouteHop, c: Compiling): Compiling
    requires c.Compiled?
  {
    if hop.poolId !in c.current then NotCompiled(Failure(hop.poolId, c.amount, "unknown pool"))
    else match venue.swap(c.current[hop.poolId], hop.tokenIn, hop.tokenOut, c.amount)
      case Unsupported(why) => NotCompiled(Failure(hop.poolId, c.amount, why))
      case Swapped(out, next) =>
        Compiled(c.steps + [Step(hop.poolId, hop.tokenIn, hop.tokenOut, c.amount)], out, c.current[hop.poolId := next])
  }

  /** One route compiled after the steps already there. */
  function Compile(venue: Venue, hops: seq<RouteHop>, before: seq<Step>, amount: int, current: map<PoolId, PoolState>)
    : Compiling
  {
    if hops == [] then Compiled(before, amount, current)
    else
      var c := Compile(venue, hops[..|hops| - 1], before, amount, current);
      if c.NotCompiled? then c else CompileHop(venue, hops[|hops| - 1], c)
  }

  datatype Proposal = Proposal(found: Option<(int, Plan)>, log: seq<Diagnostic>)

  /** `_candidate` on two routes: compile, then let the evaluator decide. */
  function Candidate(
    venue: Venue, first: Route, second: Route, firstAmount: int, secondAmount: int, request: Request,
    states: seq<PoolState>): Proposal
  {
    match Compile(venue, first.hops, [], firstAmount, PoolsById(states))
    case NotCompiled(f) => Proposal(None, Report(first, Some(f)))
    case Compiled(steps, _, current) =>
      match Compile(venue, second.hops, steps, secondAmount, current)
      case NotCompiled(f) => Proposal(None, Report(second, Some(f)))
      case Compiled(all, _, _) =>
        var plan := Plan(request, all, "baseline",
                         SplitInfo("split", [(PathOf(first.hops), firstAmount), (PathOf(second.hops), secondAmount)]));
        var e := Evaluate(venue, plan, states);
        if e.feasible then Proposal(Some((e.amountOut, plan)), [])
        else
          var path := PathOf(first.hops) + PathOf(second.hops);
          Proposal(None, [Infeasible(path, firstAmount + secondAmount, e.reasons)])
  }

  // ---------------------------------------------------------------- predictions are exact

  /** The hops hand one token to the next, starting from `from`. */
  predicate Chained(hops: seq<RouteHop>, from: Address) {
    hops != [] ==>
      hops[0].tokenIn == from && forall i :: 0 <= i < |hops| - 1 ==> hops[i].tokenOut == hops[i + 1].tokenIn
  }

  predicate Serves(route: Route, request: Request) {
    && route.hops != []
    && Chained(route.hops, request.tokenIn.address)
    && route.hops[|route.hops| - 1].tokenOut == request.tokenOut.address
  }

  function EndToken(hops: seq<RouteHop>, from: Address): Address {
    if hops == [] then from else hops[|hops| - 1].tokenOut
  }

  /** The first i steps of a run that does not fail do not fail either. */
  lemma {:induction false} PrefixRuns(venue: Venue, chain: int, steps: seq<Step>, start: Run, n: nat)
    requires n <= |steps| && Execute(venue, chain, steps, start).failure.None?
    ensures Execute(venue, chain, steps[..n], start).failure.None?
  {
    if Execute(venue, chain, steps[..n], start).failure.Some? {
      FailureSticks(venue, chain, steps, n, start);
    }
  }

  lemma {:induction false} CompileExtends(
    venue: Venue, hops: seq<RouteHop>, before: seq<Step>, amount: int, current: map<PoolId, PoolState>)
    requires Compile(venue, hops, before, amount, current).Compiled?
    ensures var c := Compile(venue, hops, before, amount, current);
      && |c.steps| == |before| + |hops| && c.steps[..|before|] == before
      && c.current.Keys == current.Keys
      && forall i :: 0 <= i < |hops| ==> c.steps[|before| + i].poolId == hops[i].poolId && hops[i].poolId in current
    decreases |hops|
  {
    if hops != [] {
      CompileExtends(venue, hops[..|hops| - 1], before, amount, current);
    }
  }

  /** While the evaluator runs the compiled steps without failing, its pools are the compiler's, its balances
      follow the route, and the quote reaches the same amount. */
  lemma {:induction false} EvaluatorFollows(
    venue: Venue, request: Request, hops: seq<RouteHop>, before: seq<Step>, amount: int, unspent: int, total: int,
    current: map<PoolId, PoolState>, start: Run)
    requires Chained(hops, request.tokenIn.address)
    requires var run := Execute(venue, request.tokenIn.chain, before, start);
      && run.failure.None? && run.pools == current
      && InHand(run.balances, request.tokenIn.address, request.tokenOut.address, unspent, total,
        request.tokenIn.address, amount)
    requires Compile(venue, hops, before, amount, current).Compiled?
    requires var steps := Compile(venue, hops, before, amount, current).steps;
      Execute(venue, request.tokenIn.chain, steps, start).failure.None?
    ensures var c := Compile(venue, hops, before, amount, current);
      var run := Execute(venue, request.tokenIn.chain, c.steps, start);
      && Quote(venue, hops, amount, current) == Reached(c.amount, c.current)
      && run.pools == c.current
      && InHand(run.balances, request.tokenIn.address, request.tokenOut.address, unspent, total,
        EndToken(hops, request.tokenIn.address), c.amount)
    decreases |hops|
  {
    hide ExecuteStep, Move;
    if hops != [] {
      var front, hop := hops[..|hops| - 1], hops[|hops| - 1];
      var c, d := Compile(venue, hops, before, amount, current), Compile(venue, front, before, amount, current);
      assert c.steps[..|c.steps| - 1] == d.steps;
      PrefixRuns(venue, request.tokenIn.chain, c.steps, start, |d.steps|);
      EvaluatorFollows(venue, request, front, before, amount, unspent, total, current, start);
      var mid := Execute(venue, request.tokenIn.chain, d.steps, start);
      StepOutcome(venue, request.tokenIn.chain, |d.steps|, c.steps[|d.steps|], mid);
      MoveChanges(mid.balances, hop.tokenIn, d.amount, hop.tokenOut, c.amount);
      assert hop.tokenIn == EndToken(front, request.tokenIn.address);
    }
  }

  /** A candidate that the evaluator accepts yields exactly the ordered prediction. */
  lemma CandidateIsPredicted(
    venue: Venue, first: Route, second: Route, firstAmount: int, secondAmount: int, request: Request,
    states: seq<PoolState>)
    requires Serves(first, request) && Serves(second, request) && firstAmount + secondAmount == request.amountIn
    requires Candidate(venue, first, second, firstAmount, secondAmount, request, states).found.Some?
    ensures OrderedOutput(venue, first, second, firstAmount, secondAmount, PoolsById(states)).amount
         == Some(Candidate(venue, first, second, firstAmount, secondAmount, request, states).found.value.0)
  {
    hide Execute, Compile, Quote, SharesCapacity, StrandedBalances, RefundOf, GasTotal, Listed, TokenOrder;
    var pools := PoolsById(states);
    var start := Start(request, pools);
    var a := Compile(venue, first.hops, [], firstAmount, pools);
    var b := Compile(venue, second.hops, a.steps, secondAmount, a.current);
    CompileExtends(venue, second.hops, a.steps, secondAmount, a.current);
    NothingRuns(venue, request.tokenIn.chain, start);
    PrefixRuns(venue, request.tokenIn.chain, b.steps, start, |a.steps|);
    EvaluatorFollows(venue, request, first.hops, [], firstAmount, secondAmount, 0, pools, start);
    EvaluatorFollows(venue, request, second.hops, a.steps, secondAmount, 0, a.amount, a.current, start);
  }

  lemma NothingRuns(venue: Venue, chain: int, start: Run)
    ensures Execute(venue, chain, [], start) == start
  {
  }
}
