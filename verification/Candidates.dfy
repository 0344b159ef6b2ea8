/** Exactly which splits the baseline solver's candidate check finds, and with which plan. */
module Candidates {
  import opened Market
  import opened Evaluator
  import opened Routes
  import opened Settlement

  /** Every pool that the quote meets on its way is on the chain and has a gas estimate. */
  ghost predicate Answers(
    venue: Venue, chain: int, hops: seq<RouteHop>, amount: int, pools: map<PoolId, PoolState>)
  {
    forall i :: 0 <= i < |hops| ==> AnswersAt(venue, chain, hops, amount, pools, i)
  }

  ghost predicate AnswersAt(
    venue: Venue, chain: int, hops: seq<RouteHop>, amount: int, pools: map<PoolId, PoolState>, i: nat)
    requires i < |hops|
  {
    match Quote(venue, hops[..i], amount, pools)
    case Stuck(_) => false
    case Reached(_, now) =>
      hops[i].poolId in now && now[hops[i].poolId].chain == chain
      && venue.gas(now[hops[i].poolId], hops[i].tokenIn, hops[i].tokenOut).Gas?
  }

  lemma AnswersOneMore(
    venue: Venue, chain: int, hops: seq<RouteHop>, amount: int, pools: map<PoolId, PoolState>)
    requires hops != []
    ensures var front := hops[..|hops| - 1];
      Answers(venue, chain, hops, amount, pools) <==>
        Answers(venue, chain, front, amount, pools) && AnswersAt(venue, chain, hops, amount, pools, |hops| - 1)
  {
    hide Quote;
    var front := hops[..|hops| - 1];
    assert forall i :: 0 <= i < |front| ==> front[..i] == hops[..i] && front[i] == hops[i];
    forall i | 0 <= i < |front|
      ensures AnswersAt(venue, chain, front, amount, pools, i) <==> AnswersAt(venue, chain, hops, amount, pools, i)
    {
    }
  }

  /** The compiled route is one that the evaluator gets through after the steps before it. */
  ghost predicate GetsThrough(
    venue: Venue, chain: int, hops: seq<RouteHop>, before: seq<Step>, amount: int, pools: map<PoolId, PoolState>,
    start: Run)
  {
    var c := Compile(venue, hops, before, amount, pools);
    c.Compiled? && Execute(venue, chain, c.steps, start).failure.None?
  }

  /** The evaluator gets through a compiled route exactly if the quote does and all its pools answer; then both are at
      the same pools, and the balances are in hand. */
  lemma {:induction false} GetsThroughIff(
    venue: Venue, request: Request, hops: seq<RouteHop>, before: seq<Step>, amount: int, unspent: int, total: int,
    current: map<PoolId, PoolState>, start: Run)
    requires Chained(hops, request.tokenIn.address) && amount >= 0 && unspent >= 0 && total >= 0
    requires var run := Execute(venue, request.tokenIn.chain, before, start);
      && run.failure.None? && run.pools == current
      && InHand(run.balances, request.tokenIn.address, request.tokenOut.address, unspent, total,
        request.tokenIn.address, amount)
    ensures var q, c := Quote(venue, hops, amount, current), Compile(venue, hops, before, amount, current);
      var through := GetsThrough(venue, request.tokenIn.chain, hops, before, amount, current, start);
      && (through <==> q.Reached? && Answers(venue, request.tokenIn.chain, hops, amount, current))
      && (through ==>
            var run := Execute(venue, request.tokenIn.chain, c.steps, start);
            && 0 <= c.amount == q.amount && c.current == run.pools == q.current
            && InHand(run.balances, request.tokenIn.address, request.tokenOut.address, unspent, total,
                 EndToken(hops, request.tokenIn.address), c.amount))
    decreases |hops|
  {
    if hops != [] {
      var front := hops[..|hops| - 1];
      assert Chained(front, request.tokenIn.address);
      GetsThroughIff(venue, request, front, before, amount, unspent, total, current, start);
      AnswersOneMore(venue, request.tokenIn.chain, hops, amount, current);
      FrontGetsThrough(venue, request.tokenIn.chain, hops, before, amount, current, start);
      hide Answers, Chained, InHand;
      if GetsThrough(venue, request.tokenIn.chain, front, before, amount, current, start) {
        HopGetsThroughIff(venue, request, hops, before, amount, unspent, total, current, start);
      }
    }
  }

  lemma FrontGetsThrough(
    venue: Venue, chain: int, hops: seq<RouteHop>, before: seq<Step>, amount: int, pools: map<PoolId, PoolState>,
    start: Run)
    requires hops != []
    ensures GetsThrough(venue, chain, hops, before, amount, pools, start) ==>
      GetsThrough(venue, chain, hops[..|hops| - 1], before, amount, pools, start)
  {
    hide ExecuteStep;
    var c := Compile(venue, hops, before, amount, pools);
    assert c.Compiled? ==> c.steps[..|c.steps| - 1] == Compile(venue, hops[..|hops| - 1], before, amount, pools).steps;
  }

  /** One more hop, where the hops before it go through. */
  lemma HopGetsThroughIff(
    venue: Venue, request: Request, hops: seq<RouteHop>, before: seq<Step>, amount: int, unspent: int, total: int,
    current: map<PoolId, PoolState>, start: Run)
    requires hops != [] && Chained(hops, request.tokenIn.address) && unspent >= 0 && total >= 0
    requires var front := hops[..|hops| - 1];
      var q, c := Quote(venue, front, amount, current), Compile(venue, front, before, amount, current);
      && q.Reached? && c.Compiled? && 0 <= c.amount == q.amount
      && var run := Execute(venue, request.tokenIn.chain, c.steps, start);
      && run.failure.None? && c.current == run.pools == q.current
      && InHand(run.balances, request.tokenIn.address, request.tokenOut.address, unspent, total,
           EndToken(front, request.tokenIn.address), c.amount)
    ensures var q, c := Quote(venue, hops, amount, current), Compile(venue, hops, before, amount, current);
      var through := GetsThrough(venue, request.tokenIn.chain, hops, before, amount, current, start);
      && (through <==>
            q.Reached? && AnswersAt(venue, request.tokenIn.chain, hops, amount, current, |hops| - 1))
      && (through ==>
            var run := Execute(venue, request.tokenIn.chain, c.steps, start);
            && 0 <= c.amount == q.amount && c.current == run.pools == q.current
            && InHand(run.balances, request.tokenIn.address, request.tokenOut.address, unspent, total,
                 EndToken(hops, request.tokenIn.address), c.amount))
  {
    var front, hop := hops[..|hops| - 1], hops[|hops| - 1];
    var c := Compile(venue, front, before, amount, current);
    var run := Execute(venue, request.tokenIn.chain, c.steps, start);
    assert hop.tokenIn == EndToken(front, request.tokenIn.address);
    var step := Step(hop.poolId, hop.tokenIn, hop.tokenOut, c.amount);
    assert (c.steps + [step])[..|c.steps|] == c.steps;
    StepRunsIff(venue, request.tokenIn.chain, |c.steps|, step, run);
    if Runs(venue, request.tokenIn.chain, step, run.balances, run.pools) {
      StepLeaves(venue, request.tokenIn.chain, |c.steps|, step, run);
    }
    hide ExecuteStep, Chained;
  }

  // ---------------------------------------------------------------- the amounts of the steps

  /** What the i-th hop of a quote is offered. */
  function Offered(venue: Venue, hops: seq<RouteHop>, amount: int, pools: map<PoolId, PoolState>, i: nat): int
    requires i < |hops|
  {
    match Quote(venue, hops[..i], amount, pools) case Reached(a, _) => a case Stuck(_) => 0
  }

  /** The steps are the hops in order, each with what the quote offers it. */
  ghost predicate StepsOf(
    venue: Venue, steps: seq<Step>, hops: seq<RouteHop>, amount: int, pools: map<PoolId, PoolState>)
  {
    && |steps| == |hops|
    && forall i :: 0 <= i < |hops| ==>
         steps[i] == Step(hops[i].poolId, hops[i].tokenIn, hops[i].tokenOut, Offered(venue, hops, amount, pools, i))
  }

  lemma {:induction false} CompiledStepsOf(
    venue: Venue, hops: seq<RouteHop>, before: seq<Step>, amount: int, pools: map<PoolId, PoolState>)
    requires Quote(venue, hops, amount, pools).Reached?
    ensures var q, c := Quote(venue, hops, amount, pools), Compile(venue, hops, before, amount, pools);
      && c.Compiled? && c.amount == q.amount && c.current == q.current
      && |c.steps| >= |before| && c.steps[..|before|] == before
      && StepsOf(venue, c.steps[|before|..], hops, amount, pools)
    decreases |hops|
  {
    if hops != [] {
      var front := hops[..|hops| - 1];
      CompiledStepsOf(venue, front, before, amount, pools);
      var c, d := Compile(venue, hops, before, amount, pools), Compile(venue, front, before, amount, pools);
      assert c.steps[|before|..] == d.steps[|before|..] + [c.steps[|d.steps|]];
      hide Compile;
      FrontIsOffered(venue, hops, amount, pools);
    }
  }

  /** The hops of a route are offered what those of its front are. */
  lemma FrontIsOffered(venue: Venue, hops: seq<RouteHop>, amount: int, pools: map<PoolId, PoolState>)
    requires hops != []
    ensures forall i :: 0 <= i < |hops| - 1 ==>
      && hops[..|hops| - 1][i] == hops[i]
      && Offered(venue, hops[..|hops| - 1], amount, pools, i) == Offered(venue, hops, amount, pools, i)
  {
    hide Quote;
    forall i | 0 <= i < |hops| - 1
      ensures Offered(venue, hops[..|hops| - 1], amount, pools, i) == Offered(venue, hops, amount, pools, i)
    {
      assert hops[..|hops| - 1][..i] == hops[..i];
    }
  }

  /** The steps before the first hop's are still run, and the first hop is run on the amount put in. */
  lemma FirstHopRuns(
    venue: Venue, request: Request, hops: seq<RouteHop>, before: seq<Step>, amount: int,
    pools: map<PoolId, PoolState>, start: Run)
    requires hops != [] && hops[0].tokenIn == request.tokenIn.address
    requires GetsThrough(venue, request.tokenIn.chain, hops, before, amount, pools, start)
    ensures var run := Execute(venue, request.tokenIn.chain, before, start);
      run.failure.None? && 0 <= amount <= Held(run.balances, request.tokenIn.address)
  {
    var c := Compile(venue, hops, before, amount, pools);
    CompiledFirst(venue, hops, before, amount, pools);
    hide Compile;
    FirstOfMoreRuns(venue, request.tokenIn.chain, c.steps, start, |before|);
  }

  /** The n-th step of a run that does not fail runs on what the steps before it left. */
  lemma FirstOfMoreRuns(venue: Venue, chain: int, steps: seq<Step>, start: Run, n: nat)
    requires n < |steps| && Execute(venue, chain, steps, start).failure.None?
    ensures var run := Execute(venue, chain, steps[..n], start);
      run.failure.None? && Runs(venue, chain, steps[n], run.balances, run.pools)
  {
    PrefixRuns(venue, chain, steps, start, n);
    PrefixRuns(venue, chain, steps, start, n + 1);
    assert steps[..n + 1][..n] == steps[..n];
    StepRunsIff(venue, chain, n, steps[n], Execute(venue, chain, steps[..n], start));
    hide ExecuteStep, Runs;
  }

  lemma {:induction false} CompiledFirst(
    venue: Venue, hops: seq<RouteHop>, before: seq<Step>, amount: int, pools: map<PoolId, PoolState>)
    requires hops != [] && Compile(venue, hops, before, amount, pools).Compiled?
    ensures var c := Compile(venue, hops, before, amount, pools);
      && |c.steps| == |before| + |hops| && c.steps[..|before|] == before
      && c.steps[|before|] == Step(hops[0].poolId, hops[0].tokenIn, hops[0].tokenOut, amount)
    decreases |hops|
  {
    if |hops| > 1 {
      CompiledFirst(venue, hops[..|hops| - 1], before, amount, pools);
    } else {
      assert hops[..|hops| - 1] == [];
    }
  }

  // ---------------------------------------------------------------- what is found

  /** Two different pools on the routes have a capacity in common. */
  ghost predicate RoutesShare(hops: seq<RouteHop>, pools: map<PoolId, PoolState>) {
    exists i, j, c :: 0 <= i < |hops| && 0 <= j < |hops| && hops[i].poolId != hops[j].poolId
      && hops[i].poolId in pools && hops[j].poolId in pools
      && c in pools[hops[i].poolId].capacityIds && c in pools[hops[j].poolId].capacityIds
  }

  /** A good request, parts that are not negative, no shared capacity, both routes quoted in order, and every pool on
      the way on the chain and with a gas estimate. */
  ghost predicate Works(
    venue: Venue, first: Route, second: Route, firstAmount: int, secondAmount: int, request: Request,
    states: seq<PoolState>)
  {
    var pools := PoolsById(states);
    && GoodRequest(request) && firstAmount >= 0 && secondAmount >= 0
    && !RoutesShare(first.hops + second.hops, pools)
    && var q := Quote(venue, first.hops, firstAmount, pools);
    && q.Reached? && Answers(venue, request.tokenIn.chain, first.hops, firstAmount, pools)
    && Quote(venue, second.hops, secondAmount, q.current).Reached?
    && Answers(venue, request.tokenIn.chain, second.hops, secondAmount, q.current)
  }

  /** A plan of the first route's hops and then the second's, each with the amount quoted for it. */
  ghost predicate PlanOf(
    venue: Venue, plan: Plan, first: Route, second: Route, firstAmount: int, secondAmount: int, request: Request,
    states: seq<PoolState>)
  {
    var pools, n := PoolsById(states), |first.hops|;
    && plan.request == request && |plan.steps| == n + |second.hops|
    && StepsOf(venue, plan.steps[..n], first.hops, firstAmount, pools)
    && var q := Quote(venue, first.hops, firstAmount, pools);
       q.Reached? && StepsOf(venue, plan.steps[n..], second.hops, secondAmount, q.current)
  }

  /** Both routes go through one after the other exactly if both are quoted and answered; then all is in the output. */
  lemma PairGetsThroughIff(
    venue: Venue, first: Route, second: Route, firstAmount: int, secondAmount: int, request: Request,
    states: seq<PoolState>)
    requires Serves(first, request) && Serves(second, request) && firstAmount + secondAmount == request.amountIn
    requires firstAmount >= 0 && secondAmount >= 0
    ensures var pools, start, chain := PoolsById(states), Start(request, PoolsById(states)), request.tokenIn.chain;
      var a, q := Compile(venue, first.hops, [], firstAmount, pools), Quote(venue, first.hops, firstAmount, pools);
      && (a.Compiled? && GetsThrough(venue, chain, second.hops, a.steps, secondAmount, a.current, start) <==>
            && q.Reached? && Answers(venue, chain, first.hops, firstAmount, pools)
            && Quote(venue, second.hops, secondAmount, q.current).Reached?
            && Answers(venue, chain, second.hops, secondAmount, q.current))
      && (a.Compiled? && GetsThrough(venue, chain, second.hops, a.steps, secondAmount, a.current, start) ==>
            var b := Compile(venue, second.hops, a.steps, secondAmount, a.current);
            InHand(Execute(venue, chain, b.steps, start).balances, request.tokenIn.address, request.tokenOut.address,
              0, a.amount, request.tokenOut.address, b.amount))
  {
    var pools, start, chain := PoolsById(states), Start(request, PoolsById(states)), request.tokenIn.chain;
    var a := Compile(venue, first.hops, [], firstAmount, pools);
    NothingRuns(venue, chain, start);
    GetsThroughIff(venue, request, first.hops, [], firstAmount, secondAmount, 0, pools, start);
    if a.Compiled? && GetsThrough(venue, chain, second.hops, a.steps, secondAmount, a.current, start) {
      FirstHopRuns(venue, request, second.hops, a.steps, secondAmount, a.current, start);
    }
    if GetsThrough(venue, chain, first.hops, [], firstAmount, pools, start) {
      hide Compile, Quote, Execute, Answers;
      GetsThroughIff(venue, request, second.hops, a.steps, secondAmount, 0, a.amount, a.current, start);
    }
  }

  /** Steps through the pools of the hops share a capacity exactly if the routes do. */
  lemma StepsShareIff(steps: seq<Step>, hops: seq<RouteHop>, states: seq<PoolState>)
    requires |steps| == |hops| && forall i :: 0 <= i < |hops| ==> steps[i].poolId == hops[i].poolId
    ensures CapacityIsShared(steps, states) <==> RoutesShare(hops, PoolsById(states))
  {
    var pools := PoolsById(states);
    hide PoolsById;
    if CapacityIsShared(steps, states) {
      var i, j, c :| 0 <= i < |steps| && 0 <= j < |steps| && steps[i].poolId != steps[j].poolId
        && steps[i].poolId in pools && steps[j].poolId in pools
        && c in pools[steps[i].poolId].capacityIds && c in pools[steps[j].poolId].capacityIds;
      assert hops[i].poolId != hops[j].poolId;
    }
    if RoutesShare(hops, pools) {
      var i, j, c :| 0 <= i < |hops| && 0 <= j < |hops| && hops[i].poolId != hops[j].poolId
        && hops[i].poolId in pools && hops[j].poolId in pools
        && c in pools[hops[i].poolId].capacityIds && c in pools[hops[j].poolId].capacityIds;
      assert steps[i].poolId != steps[j].poolId;
    }
  }

  /** The pools of the compiled pair are those of the hops. */
  lemma PairStepsShareIff(
    venue: Venue, first: Route, second: Route, firstAmount: int, secondAmount: int, states: seq<PoolState>)
    requires var a := Compile(venue, first.hops, [], firstAmount, PoolsById(states));
      a.Compiled? && Compile(venue, second.hops, a.steps, secondAmount, a.current).Compiled?
    ensures var a := Compile(venue, first.hops, [], firstAmount, PoolsById(states));
      var b := Compile(venue, second.hops, a.steps, secondAmount, a.current);
      CapacityIsShared(b.steps, states) <==> RoutesShare(first.hops + second.hops, PoolsById(states))
  {
    var a := Compile(venue, first.hops, [], firstAmount, PoolsById(states));
    var b := Compile(venue, second.hops, a.steps, secondAmount, a.current);
    CompileExtends(venue, first.hops, [], firstAmount, PoolsById(states));
    CompileExtends(venue, second.hops, a.steps, secondAmount, a.current);
    hide Compile, CapacityIsShared, RoutesShare;
    var n := |first.hops|;
    forall i | 0 <= i < |b.steps|
      ensures b.steps[i].poolId == (first.hops + second.hops)[i].poolId
    {
      if i < n {
        assert b.steps[i] == b.steps[..n][i] == a.steps[i];
      } else {
        assert b.steps[n + (i - n)].poolId == second.hops[i - n].poolId;
      }
    }
    StepsShareIff(b.steps, first.hops + second.hops, states);
  }

  lemma WorkingIsFound(
    venue: Venue, first: Route, second: Route, firstAmount: int, secondAmount: int, request: Request,
    states: seq<PoolState>)
    requires Serves(first, request) && Serves(second, request) && firstAmount + secondAmount == request.amountIn
    requires Works(venue, first, second, firstAmount, secondAmount, request, states)
    ensures var found := Candidate(venue, first, second, firstAmount, secondAmount, request, states).found;
      found.Some? && PlanOf(venue, found.value.1, first, second, firstAmount, secondAmount, request, states)
  {
    var pools := PoolsById(states);
    PairGetsThroughIff(venue, first, second, firstAmount, secondAmount, request, states);
    CompiledStepsOf(venue, first.hops, [], firstAmount, pools);
    var a := Compile(venue, first.hops, [], firstAmount, pools);
    CompiledStepsOf(venue, second.hops, a.steps, secondAmount, a.current);
    var b := Compile(venue, second.hops, a.steps, secondAmount, a.current);
    PairStepsShareIff(venue, first, second, firstAmount, secondAmount, states);
    var plan := Plan(request, b.steps, "baseline",
      SplitInfo("split", [(PathOf(first.hops), firstAmount), (PathOf(second.hops), secondAmount)]));
    assert b.steps[..|b.steps|] == b.steps && a.steps[0..] == a.steps;
    AcceptedIffNothingIsLeft(venue, plan, states);
    hide Compile, Quote, Answers, RoutesShare, CapacityIsShared, Execute, Evaluate, StepsOf, Refunds;
  }

  lemma FoundWorks(
    venue: Venue, first: Route, second: Route, firstAmount: int, secondAmount: int, request: Request,
    states: seq<PoolState>)
    requires Serves(first, request) && Serves(second, request) && firstAmount + secondAmount == request.amountIn
    requires Candidate(venue, first, second, firstAmount, secondAmount, request, states).found.Some?
    ensures Works(venue, first, second, firstAmount, secondAmount, request, states)
  {
    var pools, start := PoolsById(states), Start(request, PoolsById(states));
    var a := Compile(venue, first.hops, [], firstAmount, pools);
    var b := Compile(venue, second.hops, a.steps, secondAmount, a.current);
    var plan := Plan(request, b.steps, "baseline",
      SplitInfo("split", [(PathOf(first.hops), firstAmount), (PathOf(second.hops), secondAmount)]));
    ReportIsTheRun(venue, plan, states);
    assert b.steps[..|b.steps|] == b.steps;
    PairStepsShareIff(venue, first, second, firstAmount, secondAmount, states);
    hide Compile, Quote, Answers, RoutesShare, CapacityIsShared, Execute, Evaluate, Refunds;
    FirstHopRuns(venue, request, second.hops, a.steps, secondAmount, a.current, start);
    FirstHopRuns(venue, request, first.hops, [], firstAmount, pools, start);
    NothingRuns(venue, request.tokenIn.chain, start);
    PairGetsThroughIff(venue, first, second, firstAmount, secondAmount, request, states);
  }

  /** The candidate check finds a split exactly if it works, and then with its ordered output and that plan. */
  lemma FoundIffWorks(
    venue: Venue, first: Route, second: Route, firstAmount: int, secondAmount: int, request: Request,
    states: seq<PoolState>)
    requires Serves(first, request) && Serves(second, request) && firstAmount + secondAmount == request.amountIn
    ensures var found := Candidate(venue, first, second, firstAmount, secondAmount, request, states).found;
      && (found.Some? <==> Works(venue, first, second, firstAmount, secondAmount, request, states))
      && (found.Some? ==>
            && OrderedOutput(venue, first, second, firstAmount, secondAmount, PoolsById(states)).amount
                 == Some(found.value.0)
            && PlanOf(venue, found.value.1, first, second, firstAmount, secondAmount, request, states))
  {
    if Candidate(venue, first, second, firstAmount, secondAmount, request, states).found.Some? {
      FoundWorks(venue, first, second, firstAmount, secondAmount, request, states);
      CandidateIsPredicted(venue, first, second, firstAmount, secondAmount, request, states);
    }
    if Works(venue, first, second, firstAmount, secondAmount, request, states) {
      WorkingIsFound(venue, first, second, firstAmount, secondAmount, request, states);
    }
  }
}
