/** What the evaluator reports, read off the run of the plan's steps alone. */
module Settlement {
  import opened Market
  import opened Evaluator
  import opened Lists

  // ---------------------------------------------------------------- one step

  /** The pool is known and on the chain, the input is held, and swap and gas estimate answer. */
  predicate Runs(venue: Venue, chain: int, step: Step, balances: Ledger, pools: map<PoolId, PoolState>) {
    && step.poolId in pools && pools[step.poolId].chain == chain
    && 0 <= step.amountIn <= Held(balances, step.tokenIn)
    && var quote := venue.swap(pools[step.poolId], step.tokenIn, step.tokenOut, step.amountIn);
    && quote.Swapped? && quote.amountOut >= 0
    && venue.gas(pools[step.poolId], step.tokenIn, step.tokenOut).Gas?
  }

  /** A step succeeds exactly where it runs; otherwise its reason is the first of the checks that fails. */
  lemma StepRunsIff(venue: Venue, chain: int, index: nat, step: Step, run: Run)
    requires run.failure.None?
    ensures var after := ExecuteStep(venue, chain, index, step, run);
      && (after.failure.None? <==> Runs(venue, chain, step, run.balances, run.pools))
      && (after.failure.Some? ==> match after.failure.value
          case UnknownPool(i, id) => i == index && id == step.poolId && id !in run.pools
          case NegativeInput(i) => i == index && step.poolId in run.pools && step.amountIn < 0
          case WrongChain(i) =>
            i == index && step.poolId in run.pools && step.amountIn >= 0 && run.pools[step.poolId].chain != chain
          case Unheld(i, amount, token) =>
            && i == index && token == step.tokenIn && amount == step.amountIn && amount >= 0
            && Held(run.balances, token) < amount
            && step.poolId in run.pools && run.pools[step.poolId].chain == chain
          case StepUnsupported(i, why) =>
            && i == index && step.poolId in run.pools
            && var state := run.pools[step.poolId];
            && state.chain == chain && 0 <= step.amountIn <= Held(run.balances, step.tokenIn)
            && var quote := venue.swap(state, step.tokenIn, step.tokenOut, step.amountIn);
               (if quote.Unsupported? then why == quote.reason
                else venue.gas(state, step.tokenIn, step.tokenOut) == GasUnsupported(why))
          case InvalidOutput(i) =>
            && i == index && step.poolId in run.pools
            && var state := run.pools[step.poolId];
            && state.chain == chain && 0 <= step.amountIn <= Held(run.balances, step.tokenIn)
            && venue.gas(state, step.tokenIn, step.tokenOut).Gas?
            && var quote := venue.swap(state, step.tokenIn, step.tokenOut, step.amountIn);
               quote.Swapped? && quote.amountOut < 0
          case _ => false)
  {
  }

  /** What a step that runs leaves behind. */
  lemma StepLeaves(venue: Venue, chain: int, index: nat, step: Step, run: Run)
    requires run.failure.None? && Runs(venue, chain, step, run.balances, run.pools)
    ensures var after := ExecuteStep(venue, chain, index, step, run);
      var state := run.pools[step.poolId];
      var quote := venue.swap(state, step.tokenIn, step.tokenOut, step.amountIn);
      && (forall t :: Held(after.balances, t) ==
            Held(run.balances, t) - (if t == step.tokenIn then step.amountIn else 0)
            + (if t == step.tokenOut then quote.amountOut else 0))
      && after.pools == run.pools[step.poolId := quote.next]
      && after.results == run.results
           + [StepResult(step, quote.amountOut, venue.gas(state, step.tokenIn, step.tokenOut).estimate)]
      && after.psmBuys == run.psmBuys + if Buys(state, step) then [PsmBuy(index, state.psm.value)] else []
  {
  }

  /** A positive amount of DAI for the gem of a LitePSM. */
  predicate Buys(state: PoolState, step: Step) {
    state.psm.Some? && step.tokenIn == state.psm.value.dai && step.tokenOut == state.psm.value.gem && step.amountIn > 0
  }

  // ---------------------------------------------------------------- the run of a plan

  /** The run after the first n steps. */
  function After(venue: Venue, plan: Plan, states: seq<PoolState>, n: nat): Run
    requires n <= |plan.steps|
  {
    Execute(venue, plan.request.tokenIn.chain, plan.steps[..n], Start(plan.request, PoolsById(states)))
  }

  lemma OneMore(venue: Venue, plan: Plan, states: seq<PoolState>, n: nat)
    requires n < |plan.steps|
    ensures var run, after := After(venue, plan, states, n), After(venue, plan, states, n + 1);
      after == if run.failure.Some? then run
               else ExecuteStep(venue, plan.request.tokenIn.chain, n, plan.steps[n], run)
  {
    hide ExecuteStep;
    assert plan.steps[..n + 1][..n] == plan.steps[..n];
  }

  /** Step k is executed and buys the gem of the pool that it finds. */
  ghost predicate BuysAt(venue: Venue, plan: Plan, states: seq<PoolState>, k: nat, psm: Psm) {
    && k < |plan.steps| && After(venue, plan, states, k + 1).failure.None?
    && var pools := After(venue, plan, states, k).pools;
    && plan.steps[k].poolId in pools && pools[plan.steps[k].poolId].psm == Some(psm)
    && plan.steps[k].amountIn > 0 && plan.steps[k].tokenIn == psm.dai && plan.steps[k].tokenOut == psm.gem
  }

  /** The recorded purchases are those of the executed steps, in order. */
  ghost predicate Recorded(venue: Venue, plan: Plan, states: seq<PoolState>, n: nat, buys: seq<PsmBuy>) {
    && (forall b :: b in buys ==> b.index < n && BuysAt(venue, plan, states, b.index, b.psm))
    && (forall k: nat, psm :: k < n && BuysAt(venue, plan, states, k, psm) ==> PsmBuy(k, psm) in buys)
    && (forall i, j :: 0 <= i < j < |buys| ==> buys[i].index < buys[j].index)
  }

  lemma {:induction false} BuysAreRecorded(venue: Venue, plan: Plan, states: seq<PoolState>, n: nat)
    requires n <= |plan.steps|
    ensures Recorded(venue, plan, states, n, After(venue, plan, states, n).psmBuys)
  {
    if n > 0 {
      BuysAreRecorded(venue, plan, states, n - 1);
      NextPurchase(venue, plan, states, n - 1);
      hide After, BuysAt;
      RecordedOneMore(venue, plan, states, n - 1, After(venue, plan, states, n - 1).psmBuys,
        After(venue, plan, states, n).psmBuys);
    }
  }

  lemma RecordedOneMore(
    venue: Venue, plan: Plan, states: seq<PoolState>, n: nat, buys: seq<PsmBuy>, more: seq<PsmBuy>)
    requires Recorded(venue, plan, states, n, buys)
    requires more == buys || exists psm :: BuysAt(venue, plan, states, n, psm) && more == buys + [PsmBuy(n, psm)]
    requires forall psm :: BuysAt(venue, plan, states, n, psm) ==> more == buys + [PsmBuy(n, psm)]
    ensures Recorded(venue, plan, states, n + 1, more)
  {
    hide BuysAt;
    forall i, j | 0 <= i < j < |more|
      ensures more[i].index < more[j].index
    {
      assert buys[i] in buys;
    }
    forall k: nat, psm | k < n + 1 && BuysAt(venue, plan, states, k, psm)
      ensures PsmBuy(k, psm) in more
    {
      if k == n {
        assert more[|more| - 1] == PsmBuy(k, psm);
      }
    }
  }

  /** One more step records a purchase exactly if it makes one. */
  lemma NextPurchase(venue: Venue, plan: Plan, states: seq<PoolState>, n: nat)
    requires n < |plan.steps|
    ensures var buys, more := After(venue, plan, states, n).psmBuys, After(venue, plan, states, n + 1).psmBuys;
      && (more == buys || exists psm :: BuysAt(venue, plan, states, n, psm) && more == buys + [PsmBuy(n, psm)])
      && forall psm :: BuysAt(venue, plan, states, n, psm) ==> more == buys + [PsmBuy(n, psm)]
  {
    OneMore(venue, plan, states, n);
    var run := After(venue, plan, states, n);
    if run.failure.None? {
      var chain, step := plan.request.tokenIn.chain, plan.steps[n];
      StepRunsIff(venue, chain, n, step, run);
      StepOutcome(venue, chain, n, step, run);
      if Runs(venue, chain, step, run.balances, run.pools) {
        StepLeaves(venue, chain, n, step, run);
        hide After, ExecuteStep;
        if Buys(run.pools[step.poolId], step) {
          assert BuysAt(venue, plan, states, n, run.pools[step.poolId].psm.value);
        }
      }
    }
  }

  // ---------------------------------------------------------------- refund, gas and acceptance

  /** The only purchase of DAI for a gem: its fee is zero, less than one gem of DAI is left, and no later step of the
      plan yields DAI. */
  ghost predicate Refunds(venue: Venue, plan: Plan, states: seq<PoolState>, balances: Ledger, token: Address) {
    exists k: nat, psm :: SolePurchase(venue, plan, states, k, psm)
      && token == psm.dai && psm.tout == 0 && 0 < Held(balances, token) < psm.to18
      && forall j :: k < j < |plan.steps| ==> plan.steps[j].tokenOut != token
  }

  ghost predicate SolePurchase(venue: Venue, plan: Plan, states: seq<PoolState>, k: nat, psm: Psm) {
    && BuysAt(venue, plan, states, k, psm)
    && forall j: nat, other :: BuysAt(venue, plan, states, j, other) ==> j == k
  }

  /** Two different pools of the plan have a capacity in common. */
  ghost predicate CapacityIsShared(steps: seq<Step>, states: seq<PoolState>) {
    var pools := PoolsById(states);
    exists i, j, c :: 0 <= i < |steps| && 0 <= j < |steps| && steps[i].poolId != steps[j].poolId
      && steps[i].poolId in pools && steps[j].poolId in pools
      && c in pools[steps[i].poolId].capacityIds && c in pools[steps[j].poolId].capacityIds
  }

  lemma CapacityIsSharedIff(steps: seq<Step>, states: seq<PoolState>)
    ensures SharesCapacity(steps, PoolsById(states)) <==> CapacityIsShared(steps, states)
  {
    var pools := PoolsById(states);
    if SharesCapacity(steps, pools) {
      var i, j :| 0 <= i < |steps| && 0 <= j < |steps| && Clash(pools, steps[i].poolId, steps[j].poolId);
      var c :| c in pools[steps[i].poolId].capacityIds && c in pools[steps[j].poolId].capacityIds;
    }
    if CapacityIsShared(steps, states) {
      var i, j, c :| 0 <= i < |steps| && 0 <= j < |steps| && steps[i].poolId != steps[j].poolId
        && steps[i].poolId in pools && steps[j].poolId in pools
        && c in pools[steps[i].poolId].capacityIds && c in pools[steps[j].poolId].capacityIds;
      assert Clash(pools, steps[i].poolId, steps[j].poolId);
    }
  }

  /** The refund is exactly what is left of the DAI, where the request allows it and the plan leaves one. */
  lemma RefundIff(venue: Venue, plan: Plan, states: seq<PoolState>, token: Address)
    ensures var run := After(venue, plan, states, |plan.steps|);
      var refund := RefundOf(plan, run.balances, run.psmBuys);
      && (token in refund <==>
            plan.request.allowPsmDaiRefund && Refunds(venue, plan, states, run.balances, token))
      && (token in refund ==> refund[token] == Held(run.balances, token))
  {
    var run := After(venue, plan, states, |plan.steps|);
    var buys := run.psmBuys;
    BuysAreRecorded(venue, plan, states, |plan.steps|);
    hide After, BuysAt;
    if |buys| == 1 {
      var b := buys[0];
      assert b in buys && BuysAt(venue, plan, states, b.index, b.psm);
      forall j: nat, other | BuysAt(venue, plan, states, j, other)
        ensures j == b.index && other == b.psm
      {
        BuysInPlan(venue, plan, states, j, other);
        assert PsmBuy(j, other) in buys;
      }
      assert SolePurchase(venue, plan, states, b.index, b.psm);
    } else {
      forall k: nat, psm
        ensures !SolePurchase(venue, plan, states, k, psm)
      {
        SoleIsAlone(venue, plan, states, buys, k, psm);
      }
    }
  }

  lemma SoleIsAlone(venue: Venue, plan: Plan, states: seq<PoolState>, buys: seq<PsmBuy>, k: nat, psm: Psm)
    requires Recorded(venue, plan, states, |plan.steps|, buys)
    ensures SolePurchase(venue, plan, states, k, psm) ==> |buys| == 1
  {
    hide BuysAt;
    if SolePurchase(venue, plan, states, k, psm) {
      BuysInPlan(venue, plan, states, k, psm);
      assert PsmBuy(k, psm) in buys;
      forall i | 0 <= i < |buys|
        ensures buys[i].index == k
      {
        assert buys[i] in buys;
      }
      LaterIndices(buys, |buys| - 1);
    }
  }

  lemma {:induction false} LaterIndices(buys: seq<PsmBuy>, i: nat)
    requires i < |buys| && forall i, j :: 0 <= i < j < |buys| ==> buys[i].index < buys[j].index
    ensures buys[i].index >= buys[0].index + i
  {
    if i > 0 {
      LaterIndices(buys, i - 1);
    }
  }

  lemma BuysInPlan(venue: Venue, plan: Plan, states: seq<PoolState>, k: nat, psm: Psm)
    requires BuysAt(venue, plan, states, k, psm)
    ensures k < |plan.steps|
  {
  }

  /** The gas values of the results added up from the first on. */
  function GasSum(results: seq<StepResult>): int
    requires forall r :: r in results ==> r.gas.Some?
  {
    if results == [] then 0 else results[0].gas.value + GasSum(results[1..])
  }

  lemma {:induction false} GasAddsUp(results: seq<StepResult>)
    ensures GasTotal(results).Some? <==> forall r :: r in results ==> r.gas.Some?
    ensures GasTotal(results).Some? ==> GasTotal(results).value == GasSum(results)
  {
    if results != [] {
      var front, last := results[..|results| - 1], results[|results| - 1];
      assert results == front + [last];
      GasAddsUp(front);
      if GasTotal(results).Some? {
        GasSumAppends(front, last);
      }
    }
  }

  lemma {:induction false} GasSumAppends(front: seq<StepResult>, last: StepResult)
    requires (forall r :: r in front ==> r.gas.Some?) && last.gas.Some?
    ensures GasSum(front + [last]) == GasSum(front) + last.gas.value
  {
    if front == [] {
      assert front + [last] == [last];
    } else {
      GasSumAppends(front[1..], last);
      assert (front + [last])[1..] == front[1..] + [last];
    }
  }

  ghost predicate GoodRequest(request: Request) {
    request.amountIn > 0 && request.tokenIn.chain == request.tokenOut.chain
    && request.tokenIn.address != request.tokenOut.address
  }

  /** A bad request or a shared capacity is refused before any step; otherwise the report is what the steps left. */
  lemma ReportIsTheRun(venue: Venue, plan: Plan, states: seq<PoolState>)
    ensures var e, request := Evaluate(venue, plan, states), plan.request;
      var run := After(venue, plan, states, |plan.steps|);
      if !GoodRequest(request) || CapacityIsShared(plan.steps, states) then
        && !e.feasible && e.steps == [] && e.amountOut == 0 && e.amountInSpent == 0 && e.residualIn == request.amountIn
        && e.terminalRefund == map[] && e.gasEstimate == None
        && e.reasons == [if GoodRequest(request) then SharedCapacity else BadRequest]
      else
        && e.steps == run.results && e.amountOut == Held(run.balances, request.tokenOut.address)
        && e.residualIn == Held(run.balances, request.tokenIn.address)
        && e.amountInSpent + e.residualIn == request.amountIn
        && (run.failure.Some? ==> !e.feasible && e.reasons == [run.failure.value])
        && (e.gasEstimate.Some? <==> e.steps != [] && forall r :: r in e.steps ==> r.gas.Some?)
        && (e.gasEstimate.Some? ==> e.gasEstimate.value == GasSum(e.steps))
  {
    CapacityIsSharedIff(plan.steps, states);
    assert plan.steps[..|plan.steps|] == plan.steps;
    var run := After(venue, plan, states, |plan.steps|);
    GasAddsUp(run.results);
    hide Execute, RefundOf, StrandedBalances, Listed, TokenOrder, GasTotal, SharesCapacity, CapacityIsShared;
  }

  /** The refund that is reported, for a run that fails as well. */
  lemma RefundIsReported(venue: Venue, plan: Plan, states: seq<PoolState>, token: Address)
    requires GoodRequest(plan.request) && !CapacityIsShared(plan.steps, states)
    ensures var refund, balances :=
        Evaluate(venue, plan, states).terminalRefund, After(venue, plan, states, |plan.steps|).balances;
      && (token in refund <==> plan.request.allowPsmDaiRefund && Refunds(venue, plan, states, balances, token))
      && (token in refund ==> refund[token] == Held(balances, token))
  {
    CapacityIsSharedIff(plan.steps, states);
    assert plan.steps[..|plan.steps|] == plan.steps;
    RefundIff(venue, plan, states, token);
    hide Execute, RefundOf, StrandedBalances, Listed, TokenOrder, GasTotal, SharesCapacity, CapacityIsShared, Refunds;
  }

  /** A plan that gets through all its steps is accepted exactly if nothing is left but the output and the refund. */
  lemma AcceptedIffNothingIsLeft(venue: Venue, plan: Plan, states: seq<PoolState>)
    requires GoodRequest(plan.request) && !CapacityIsShared(plan.steps, states)
    requires After(venue, plan, states, |plan.steps|).failure.None?
    ensures var e, run := Evaluate(venue, plan, states), After(venue, plan, states, |plan.steps|);
      var input, output := plan.request.tokenIn.address, plan.request.tokenOut.address;
      && (forall t :: t in e.terminalRefund <==>
            plan.request.allowPsmDaiRefund && Refunds(venue, plan, states, run.balances, t))
      && (forall t :: t in e.terminalRefund ==> e.terminalRefund[t] == Held(run.balances, t))
      && (e.feasible <==>
            Held(run.balances, input) == 0
            && forall t :: t != output && t !in e.terminalRefund ==> Held(run.balances, t) == 0)
      && (forall t: Address, n :: Stranded(t, n) in e.reasons <==>
            t !in {input, output} && t !in e.terminalRefund && n == Held(run.balances, t) != 0)
      && (InputRemains in e.reasons <==>
            Held(run.balances, input) != 0
            && forall t :: t !in {input, output} && t !in e.terminalRefund ==> Held(run.balances, t) == 0)
      && Distinct(e.reasons)
  {
    CapacityIsSharedIff(plan.steps, states);
    assert plan.steps[..|plan.steps|] == plan.steps;
    var run := After(venue, plan, states, |plan.steps|);
    StrandedAreReported(venue, plan, states);
    forall t
      ensures var refund := Evaluate(venue, plan, states).terminalRefund;
        && (t in refund <==> plan.request.allowPsmDaiRefund && Refunds(venue, plan, states, run.balances, t))
        && (t in refund ==> refund[t] == Held(run.balances, t))
    {
      RefundIsReported(venue, plan, states, t);
    }
    hide Execute, RefundOf, Listed, TokenOrder, GasTotal, SharesCapacity, CapacityIsShared, Refunds;
    LeftOver(plan.request, run.balances, RefundOf(plan, run.balances, run.psmBuys));
  }

  lemma LeftOver(request: Request, balances: Ledger, refund: Ledger)
    ensures var stranded := StrandedBalances(request, balances, refund);
      && (forall t :: t in stranded <==>
            t !in {request.tokenIn.address, request.tokenOut.address} && t !in refund && Held(balances, t) != 0)
      && (forall t :: t in stranded ==> stranded[t] == Held(balances, t))
      && (stranded == map[] <==> forall t :: t !in stranded)
  {
  }

  // ---------------------------------------------------------------- the order of the reasons

  /** The request's input token, then the input and output token of each result. */
  function Touched(first: Address, results: seq<StepResult>): seq<Address> {
    if results == [] then [first]
    else
      var step := results[|results| - 1].step;
      Touched(first, results[..|results| - 1]) + [step.tokenIn, step.tokenOut]
  }

  /** The first token is met before the second. */
  ghost predicate MetBefore(touched: seq<Address>, a: Address, b: Address) {
    exists p :: 0 <= p < |touched| && touched[p] == a && b !in touched[..p + 1]
  }

  ghost predicate InOrder(touched: seq<Address>, order: seq<Address>) {
    && (forall a :: a in order <==> a in touched)
    && forall i, j :: 0 <= i < j < |order| ==> MetBefore(touched, order[i], order[j])
  }

  lemma MetOneMore(touched: seq<Address>, order: seq<Address>, x: Address)
    requires InOrder(touched, order)
    ensures InOrder(touched + [x], AddNew(order, x))
  {
    var more, order' := touched + [x], AddNew(order, x);
    forall i, j | 0 <= i < j < |order'|
      ensures MetBefore(more, order'[i], order'[j])
    {
      assert order[i] in order;
      var p: nat;
      if j < |order| {
        assert MetBefore(touched, order[i], order[j]);
        p :| p < |touched| && touched[p] == order[i] && order[j] !in touched[..p + 1];
      } else {
        p :| p < |touched| && touched[p] == order[i];
      }
      assert more[..p + 1] == touched[..p + 1] && more[p] == touched[p];
    }
  }

  lemma {:induction false} TokensInOrder(first: Address, results: seq<StepResult>)
    ensures InOrder(Touched(first, results), TokenOrder(first, results))
  {
    hide InOrder, AddNew;
    if results == [] {
      OnlyFirst(first);
    } else {
      var front, step := results[..|results| - 1], results[|results| - 1].step;
      TokensInOrder(first, front);
      var touched, order := Touched(first, front), TokenOrder(first, front);
      MetOneMore(touched, order, step.tokenIn);
      MetOneMore(touched + [step.tokenIn], AddNew(order, step.tokenIn), step.tokenOut);
      assert touched + [step.tokenIn] + [step.tokenOut] == touched + [step.tokenIn, step.tokenOut];
    }
  }

  lemma OnlyFirst(first: Address)
    ensures InOrder(Touched(first, []), TokenOrder(first, []))
  {
  }

  /** Listing keeps the order of the tokens. */
  lemma {:induction false} ListedInOrder(stranded: Ledger, touched: seq<Address>, order: seq<Address>)
    requires forall i, j :: 0 <= i < j < |order| ==> MetBefore(touched, order[i], order[j])
    ensures var reasons := Listed(stranded, order);
      && (forall r :: r in reasons ==> r.Stranded? && r.token in order)
      && forall i, j :: 0 <= i < j < |reasons| ==> MetBefore(touched, reasons[i].token, reasons[j].token)
  {
    if order != [] {
      var front, a := order[..|order| - 1], order[|order| - 1];
      ListedInOrder(stranded, touched, front);
      var reasons := Listed(stranded, front);
      forall i | 0 <= i < |reasons|
        ensures reasons[i].Stranded? && MetBefore(touched, reasons[i].token, a)
      {
        assert reasons[i] in reasons;
        var k :| 0 <= k < |front| && front[k] == reasons[i].token;
        assert order[k] == front[k];
      }
    }
  }

  /** Stranded tokens are reported in the order in which the run first meets them. */
  lemma StrandedInOrder(venue: Venue, plan: Plan, states: seq<PoolState>, i: nat, j: nat)
    requires i < j < |Evaluate(venue, plan, states).reasons|
    requires Evaluate(venue, plan, states).reasons[i].Stranded? && Evaluate(venue, plan, states).reasons[j].Stranded?
    ensures var e := Evaluate(venue, plan, states);
      MetBefore(Touched(plan.request.tokenIn.address, e.steps), e.reasons[i].token, e.reasons[j].token)
  {
    var run := Execute(venue, plan.request.tokenIn.chain, plan.steps, Start(plan.request, PoolsById(states)));
    var first := plan.request.tokenIn.address;
    TokensInOrder(first, run.results);
    ListedInOrder(StrandedBalances(plan.request, run.balances, RefundOf(plan, run.balances, run.psmBuys)),
      Touched(first, run.results), TokenOrder(first, run.results));
    hide Execute, RefundOf, StrandedBalances, Listed, TokenOrder, GasTotal, SharesCapacity, MetBefore, Touched;
  }
}
