/** The ordered, integer-exact plan evaluator that every solver and checker defers to. */
module Evaluator {
  import opened Market
  import opened Lists

  datatype Reason =
    | BadRequest
    | SharedCapacity
    | UnknownPool(index: nat, poolId: PoolId)
    | NegativeInput(index: nat)
    | WrongChain(index: nat)
    | Unheld(index: nat, amount: int, token: Address)
    | StepUnsupported(index: nat, why: string)
    | InvalidOutput(index: nat)
    | Stranded(token: Address, amount: int)
    | InputRemains

  datatype Evaluation = Evaluation(
    plan: Plan, amountOut: int, amountInSpent: int, residualIn: int, steps: seq<StepResult>, feasible: bool,
    reasons: seq<Reason>, gasEstimate: Option<int>, terminalRefund: Ledger)

  datatype PsmBuy = PsmBuy(index: nat, psm: Psm)

  /** The evaluator's mutable locals while it walks a plan. */
  datatype Run = Run(
    balances: Ledger, pools: map<PoolId, PoolState>, results: seq<StepResult>, psmBuys: seq<PsmBuy>,
    failure: Option<Reason>)

  function Start(request: Request, pools: map<PoolId, PoolState>): Run {
    Run(map[request.tokenIn.address := request.amountIn], pools, [], [], None)
  }

  predicate IsPsmDaiBuy(state: PoolState, step: Step) {
    state.psm.Some? && step.amountIn > 0 && step.tokenIn == state.psm.value.dai && step.tokenOut == state.psm.value.gem
  }

  /** One iteration of the step loop; a failure stands for its `break`. */
  function ExecuteStep(venue: Venue, chain: int, index: nat, step: Step, run: Run): Run {
    if step.poolId !in run.pools then run.(failure := Some(UnknownPool(index, step.poolId)))
    else
      var state := run.pools[step.poolId];
      if step.amountIn < 0 then run.(failure := Some(NegativeInput(index)))
      else if state.chain != chain then run.(failure := Some(WrongChain(index)))
      else if step.amountIn > Held(run.balances, step.tokenIn) then
        run.(failure := Some(Unheld(index, step.amountIn, step.tokenIn)))
      else
        match venue.swap(state, step.tokenIn, step.tokenOut, step.amountIn)
        case Unsupported(why) => run.(failure := Some(StepUnsupported(index, why)))
        case Swapped(amountOut, next) =>
          match venue.gas(state, step.tokenIn, step.tokenOut)
          case GasUnsupported(why) => run.(failure := Some(StepUnsupported(index, why)))
          case Gas(gas) =>
            if amountOut < 0 then run.(failure := Some(InvalidOutput(index)))
            else Run(
              Move(run.balances, step.tokenIn, step.amountIn, step.tokenOut, amountOut),
              run.pools[step.poolId := next],
              run.results + [StepResult(step, amountOut, gas)],
              if IsPsmDaiBuy(state, step) then run.psmBuys + [PsmBuy(index, state.psm.value)] else run.psmBuys,
              None)
  }

  /** A step either fails and leaves the locals alone, or is recorded, paid for and credited. */
  lemma StepOutcome(venue: Venue, chain: int, index: nat, step: Step, run: Run)
    requires run.failure.None?
    ensures var after := ExecuteStep(venue, chain, index, step, run);
      if after.failure.Some? then after == run.(failure := after.failure)
      else
        && |after.results| == |run.results| + 1
        && var last := after.results[|run.results|];
        && after.results == run.results + [last] && last.step == step
        && 0 <= step.amountIn <= Held(run.balances, step.tokenIn) && last.amountOut >= 0
        && after.balances == Move(run.balances, step.tokenIn, step.amountIn, step.tokenOut, last.amountOut)
        && step.poolId in run.pools
        && var quote := venue.swap(run.pools[step.poolId], step.tokenIn, step.tokenOut, step.amountIn);
        && quote.Swapped? && quote.amountOut == last.amountOut && after.pools == run.pools[step.poolId := quote.next]
  {
  }

  function Execute(venue: Venue, chain: int, steps: seq<Step>, start: Run): Run {
    if steps == [] then start
    else
      var run := Execute(venue, chain, steps[..|steps| - 1], start);
      if run.failure.Some? then run else ExecuteStep(venue, chain, |steps| - 1, steps[|steps| - 1], run)
  }

  function RefundOf(plan: Plan, balances: Ledger, psmBuys: seq<PsmBuy>): Ledger {
    if !plan.request.allowPsmDaiRefund || |psmBuys| != 1 then map[]
    else
      var buy := psmBuys[0];
      var refund := Held(balances, buy.psm.dai);
      if buy.psm.tout != 0 || !(0 < refund < buy.psm.to18) then map[]
      else if exists j :: buy.index < j < |plan.steps| && plan.steps[j].tokenOut == buy.psm.dai then map[]
      else map[buy.psm.dai := refund]
  }

  function StrandedBalances(request: Request, balances: Ledger, refund: Ledger): Ledger {
    map a | a in balances && a !in {request.tokenIn.address, request.tokenOut.address}
      && balances[a] != 0 && a !in refund :: balances[a]
  }

  /** The tokens in the order in which the dictionary of balances got them. */
  function TokenOrder(first: Address, results: seq<StepResult>): seq<Address> {
    if results == [] then [first]
    else
      var step := results[|results| - 1].step;
      AddNew(AddNew(TokenOrder(first, results[..|results| - 1]), step.tokenIn), step.tokenOut)
  }

  /** One reason a stranded token, in that order. */
  function Listed(stranded: Ledger, order: seq<Address>): seq<Reason> {
    if order == [] then []
    else
      var front, a := Listed(stranded, order[..|order| - 1]), order[|order| - 1];
      if a in stranded then front + [Stranded(a, stranded[a])] else front
  }

  function GasTotal(results: seq<StepResult>): Option<int> {
    if results == [] then Some(0)
    else match GasTotal(results[..|results| - 1])
      case None => None
      case Some(sum) =>
        match results[|results| - 1].gas case None => None case Some(gas) => Some(sum + gas)
  }

  /** Two different pools of the plan draw on one capacity id. */
  predicate SharesCapacity(steps: seq<Step>, pools: map<PoolId, PoolState>) {
    exists i, j :: 0 <= i < |steps| && 0 <= j < |steps| && Clash(pools, steps[i].poolId, steps[j].poolId)
  }

  predicate Clash(pools: map<PoolId, PoolState>, a: PoolId, b: PoolId) {
    a != b && a in pools && b in pools && exists c :: c in pools[a].capacityIds && c in pools[b].capacityIds
  }

  predicate ValidRequest(request: Request) {
    && request.amountIn > 0
    && request.tokenIn.chain == request.tokenOut.chain
    && request.tokenIn.address != request.tokenOut.address
  }

  function Reject(plan: Plan, why: Reason): Evaluation {
    Evaluation(plan, 0, 0, plan.request.amountIn, [], false, [why], None, map[])
  }

  /** Everything after the step loop. */
  function Conclude(plan: Plan, run: Run): Evaluation {
    var request := plan.request;
    var refund := RefundOf(plan, run.balances, run.psmBuys);
    var order := TokenOrder(request.tokenIn.address, run.results);
    var stranded := Listed(StrandedBalances(request, run.balances, refund), order);
    var residual := Held(run.balances, request.tokenIn.address);
    var reasons :=
      if run.failure.Some? then [run.failure.value]
      else if stranded != [] then stranded
      else if residual != 0 then [InputRemains]
      else [];
    Evaluation(
      plan, Held(run.balances, request.tokenOut.address), request.amountIn - residual, residual, run.results,
      reasons == [], reasons, if run.results == [] then None else GasTotal(run.results), refund)
  }

  function Evaluate(venue: Venue, plan: Plan, states: seq<PoolState>): Evaluation {
    var pools := PoolsById(states);
    if !ValidRequest(plan.request) then Reject(plan, BadRequest)
    else if SharesCapacity(plan.steps, pools) then Reject(plan, SharedCapacity)
    else Conclude(plan, Execute(venue, plan.request.tokenIn.chain, plan.steps, Start(plan.request, pools)))
  }

  /** `owners.setdefault` over one pool's capacity ids; None where another pool already owns one. */
  method ClaimAll(owners: map<string, PoolId>, id: PoolId, ids: seq<string>)
    returns (after: Option<map<string, PoolId>>)
    ensures after.None? <==> exists c :: c in ids && c in owners && owners[c] != id
    ensures after.Some? ==>
      && (forall c :: c in after.value <==> c in owners || c in ids)
      && (forall c :: c in after.value ==> after.value[c] == if c in owners then owners[c] else id)
  {
    var found := owners;
    for n := 0 to |ids|
      invariant forall c :: c in found <==> c in owners || c in ids[..n]
      invariant forall c :: c in found ==> found[c] == if c in owners then owners[c] else id
      invariant forall m :: 0 <= m < n ==> found[ids[m]] == id
    {
      if ids[n] !in found {
        found := found[ids[n] := id];
      } else if found[ids[n]] != id {
        return None;
      }
    }
    after := Some(found);
  }

  /** The owner scan: the first pool to name a capacity owns it, and a second owner is refused. */
  method FindSharedCapacity(plan: Plan, pools: map<PoolId, PoolState>) returns (shared: bool)
    ensures shared <==> SharesCapacity(plan.steps, pools)
  {
    var owners: map<string, PoolId> := map[];
    for i := 0 to |plan.steps|
      invariant forall c :: c in owners ==>
        exists k :: 0 <= k < i && Claims(pools, plan.steps[k].poolId, c) && owners[c] == plan.steps[k].poolId
      invariant forall k, c :: 0 <= k < i && Claims(pools, plan.steps[k].poolId, c) ==>
        c in owners && owners[c] == plan.steps[k].poolId
    {
      var id := plan.steps[i].poolId;
      if id in pools {
        var claimed := ClaimAll(owners, id, pools[id].capacityIds);
        if claimed.None? {
          ghost var c :| c in pools[id].capacityIds && c in owners && owners[c] != id;
          ghost var k :| 0 <= k < i && Claims(pools, plan.steps[k].poolId, c) && owners[c] == plan.steps[k].poolId;
          assert Clash(pools, plan.steps[k].poolId, plan.steps[i].poolId);
          return true;
        }
        forall c | c in claimed.value && c !in owners
          ensures Claims(pools, plan.steps[i].poolId, c)
        {
        }
        owners := claimed.value;
      }
    }
    forall i, j | 0 <= i < |plan.steps| && 0 <= j < |plan.steps|
      ensures !Clash(pools, plan.steps[i].poolId, plan.steps[j].poolId)
    {
      OneOwnerEach(pools, owners, plan.steps[i].poolId, plan.steps[j].poolId);
    }
    shared := false;
  }

  /** Pools that the owner table names as the owner of all they claim do not clash. */
  lemma OneOwnerEach(pools: map<PoolId, PoolState>, owners: map<string, PoolId>, a: PoolId, b: PoolId)
    requires forall c :: Claims(pools, a, c) ==> c in owners && owners[c] == a
    requires forall c :: Claims(pools, b, c) ==> c in owners && owners[c] == b
    ensures !Clash(pools, a, b)
  {
    if a in pools && b in pools {
      forall c | c in pools[a].capacityIds && c in pools[b].capacityIds
        ensures a == b
      {
        assert Claims(pools, a, c) && Claims(pools, b, c);
      }
    }
  }

  ghost predicate Claims(pools: map<PoolId, PoolState>, id: PoolId, capacity: string) {
    id in pools && capacity in pools[id].capacityIds
  }

  /** The evaluator's step loop, as the source runs it. */
  method EvaluatePlan(venue: Venue, plan: Plan, states: seq<PoolState>) returns (e: Evaluation)
    ensures e == Evaluate(venue, plan, states)
  {
    hide ExecuteStep, Conclude, SharesCapacity;
    if !ValidRequest(plan.request) {
      return Reject(plan, BadRequest);
    }
    var pools := PoolsById(states);
    var shared := FindSharedCapacity(plan, pools);
    if shared {
      return Reject(plan, SharedCapacity);
    }
    var chain := plan.request.tokenIn.chain;
    ghost var start := Start(plan.request, pools);
    var run := Start(plan.request, pools);
    var index := 0;
    while index < |plan.steps| && run.failure.None?
      invariant 0 <= index <= |plan.steps|
      invariant run == Execute(venue, chain, plan.steps[..index], start)
    {
      assert plan.steps[..index + 1][..index] == plan.steps[..index];
      run := ExecuteStep(venue, chain, index, plan.steps[index], run);
      index := index + 1;
    }
    if run.failure.Some? {
      FailureSticks(venue, chain, plan.steps, index, start);
    }
    assert plan.steps[..|plan.steps|] == plan.steps;
    e := Conclude(plan, run);
  }

  // ---------------------------------------------------------------- stranded balances

  lemma {:induction false} OrderCoversBalances(venue: Venue, chain: int, steps: seq<Step>, start: Run, first: Address)
    requires start.results == [] && forall a :: a in start.balances ==> a == first
    ensures var run := Execute(venue, chain, steps, start); var order := TokenOrder(first, run.results);
      Distinct(order) && forall a :: a in run.balances ==> a in order
    decreases |steps|
  {
    if steps != [] {
      hide ExecuteStep, AddNew, Distinct;
      OrderCoversBalances(venue, chain, steps[..|steps| - 1], start, first);
      var run := Execute(venue, chain, steps[..|steps| - 1], start);
      if run.failure.None? {
        OrderCoversStep(venue, chain, |steps| - 1, steps[|steps| - 1], run, first);
      }
    }
  }

  lemma OrderCoversStep(venue: Venue, chain: int, index: nat, step: Step, run: Run, first: Address)
    requires var order := TokenOrder(first, run.results);
      Distinct(order) && forall a :: a in run.balances ==> a in order
    requires run.failure.None?
    ensures var after := ExecuteStep(venue, chain, index, step, run); var order := TokenOrder(first, after.results);
      Distinct(order) && forall a :: a in after.balances ==> a in order
  {
    StepOutcome(venue, chain, index, step, run);
    var after := ExecuteStep(venue, chain, index, step, run);
    hide ExecuteStep, AddNew, Distinct;
    if after.failure.None? {
      assert after.results[..|after.results| - 1] == run.results;
      var order := TokenOrder(first, run.results);
      AddNewAdds(order, step.tokenIn);
      AddNewAdds(AddNew(order, step.tokenIn), step.tokenOut);
    }
  }

  lemma {:induction false} ListedAreStranded(stranded: Ledger, order: seq<Address>)
    requires Distinct(order)
    ensures forall a: Address, n :: Stranded(a, n) in Listed(stranded, order) <==>
      a in order && a in stranded && stranded[a] == n
    ensures Distinct(Listed(stranded, order))
    decreases |order|
  {
    if order != [] {
      var front, a := order[..|order| - 1], order[|order| - 1];
      assert order == front + [a];
      ListedAreStranded(stranded, front);
      if a in stranded {
        AppendDistinct(Listed(stranded, front), Stranded(a, stranded[a]));
      }
    }
  }

  /** A plan whose steps all succeed is refused with one reason for each stranded token, none twice; without one, held
      input is refused, and without that too it is feasible. */
  lemma StrandedAreReported(venue: Venue, plan: Plan, states: seq<PoolState>)
    requires ValidRequest(plan.request) && !SharesCapacity(plan.steps, PoolsById(states))
    requires var start := Start(plan.request, PoolsById(states));
      Execute(venue, plan.request.tokenIn.chain, plan.steps, start).failure.None?
    ensures var run := Execute(venue, plan.request.tokenIn.chain, plan.steps, Start(plan.request, PoolsById(states)));
      var stranded := StrandedBalances(plan.request, run.balances, RefundOf(plan, run.balances, run.psmBuys));
      var e := Evaluate(venue, plan, states);
      && Distinct(e.reasons)
      && (forall a: Address, n :: Stranded(a, n) in e.reasons <==> a in stranded && stranded[a] == n)
      && (InputRemains in e.reasons <==> stranded == map[] && Held(run.balances, plan.request.tokenIn.address) != 0)
      && (e.feasible <==> stranded == map[] && Held(run.balances, plan.request.tokenIn.address) == 0)
  {
    var start := Start(plan.request, PoolsById(states));
    var run := Execute(venue, plan.request.tokenIn.chain, plan.steps, start);
    var stranded := StrandedBalances(plan.request, run.balances, RefundOf(plan, run.balances, run.psmBuys));
    var order := TokenOrder(plan.request.tokenIn.address, run.results);
    OrderCoversBalances(venue, plan.request.tokenIn.chain, plan.steps, start, plan.request.tokenIn.address);
    ListedAreStranded(stranded, order);
    OnlyStranded(stranded, order);
    hide Execute, RefundOf, TokenOrder, Listed, SharesCapacity, GasTotal;
    if stranded != map[] {
      var a :| a in stranded;
      assert a in run.balances && Stranded(a, stranded[a]) in Listed(stranded, order);
    }
  }

  lemma {:induction false} OnlyStranded(stranded: Ledger, order: seq<Address>)
    ensures InputRemains !in Listed(stranded, order)
    ensures stranded == map[] ==> Listed(stranded, order) == []
    decreases |order|
  {
    if order != [] {
      OnlyStranded(stranded, order[..|order| - 1]);
    }
  }

  lemma {:induction false} FailureSticks(venue: Venue, chain: int, steps: seq<Step>, n: nat, start: Run)
    requires n <= |steps|
    requires Execute(venue, chain, steps[..n], start).failure.Some?
    ensures Execute(venue, chain, steps, start) == Execute(venue, chain, steps[..n], start)
    decreases |steps|
  {
    if n < |steps| {
      var front := steps[..|steps| - 1];
      assert front[..n] == steps[..n];
      FailureSticks(venue, chain, front, n, start);
    } else {
      assert steps[..n] == steps;
    }
  }
}
