/** Recognising equal nodes loses no output: each accepted plan of a chain has a completion that pays as much. */
module SearchTwins {
  import opened Market
  import opened Evaluator
  import opened BeamSearch
  import opened SearchCoverage
  import opened Settlement

  /** Pools with ids of their own, on the request's chain, that share no capacity. */
  ghost predicate Separate(request: Request, states: seq<PoolState>) {
    && DistinctIds(states) && OnChain(request, states)
    && forall i, j, c :: 0 <= i < j < |states| && c in states[i].capacityIds ==> c !in states[j].capacityIds
  }

  predicate OnChain(request: Request, states: seq<PoolState>) {
    forall i :: 0 <= i < |states| ==> states[i].chain == request.tokenIn.chain
  }

  /** A swap keeps the pool's id, chain and kind, and a pool that swaps has a gas estimate. */
  ghost predicate Steady(venue: Venue) {
    forall s, i, o, a :: venue.swap(s, i, o, a).Swapped? ==> SteadyAt(venue, s, i, o, venue.swap(s, i, o, a).next)
  }

  predicate SteadyAt(venue: Venue, s: PoolState, i: Address, o: Address, next: PoolState) {
    next.poolId == s.poolId && next.chain == s.chain && next.psm == s.psm && venue.gas(s, i, o).Gas?
  }

  lemma SteadyKeeps(venue: Venue)
    requires Steady(venue)
    ensures KeepsIds(venue) && KeepsPsm(venue)
  {
    forall s, i, o, a | venue.swap(s, i, o, a).Swapped?
      ensures venue.swap(s, i, o, a).next.poolId == s.poolId && venue.swap(s, i, o, a).next.psm == s.psm
    {
      assert SteadyAt(venue, s, i, o, venue.swap(s, i, o, a).next);
    }
  }

  /** The evaluator replays a chain to its node; on the way each pool keeps its chain and kind. */
  ghost predicate Arrives(venue: Venue, request: Request, states: seq<PoolState>, n: Node) {
    && Faithful(venue, request, states, n) && Ran(venue, request, states, n).failure.None?
    && OnChain(request, n.states)
    && forall i :: 0 <= i < |n.states| ==> i < |states| && n.states[i].psm == states[i].psm
  }

  lemma {:induction false} ChainsArrive(
    cfg: Settings, venue: Venue, request: Request, states: seq<PoolState>, n: Node, depth: nat)
    requires Separate(request, states) && Steady(venue) && Reachable(cfg, venue, request, states, n, depth)
    ensures Arrives(venue, request, states, n)
    decreases depth
  {
    hide Takes, Faithful, Separate, Steady;
    if depth == 0 {
      FirstArrives(cfg, venue, request, states);
    } else {
      var prev, o := LastStep(cfg, venue, request, states, n, depth - 1);
      ChainsArrive(cfg, venue, request, states, prev, depth - 1);
      NextArrives(cfg, venue, request, states, prev, o, n);
    }
  }

  lemma FirstArrives(cfg: Settings, venue: Venue, request: Request, states: seq<PoolState>)
    requires Separate(request, states)
    ensures Arrives(venue, request, states, Node(map[request.tokenIn.address := request.amountIn], states, []))
  {
    InitialFaithful(cfg, venue, request, states);
    hide Faithful;
  }

  lemma NextArrives(
    cfg: Settings, venue: Venue, request: Request, states: seq<PoolState>, n: Node, o: Offer, m: Node)
    requires Separate(request, states) && Steady(venue) && Arrives(venue, request, states, n)
    requires Takes(cfg, venue, request, n, o, m)
    ensures Arrives(venue, request, states, m)
  {
    EventIffTakes(cfg, venue, request, n, o, m);
    SteadyKeeps(venue);
    ChildFaithful(venue, request, states, n, o);
    ChildRun(venue, request, states, n, o);
    var run, state := Ran(venue, request, states, n), n.states[o.index];
    StepRunsIff(venue, request.tokenIn.chain, |n.steps|, m.steps[|n.steps|], run);
    assert SteadyAt(venue, state, o.tokenIn, o.tokenOut, m.states[o.index]);
    assert state.poolId in run.pools && run.pools[state.poolId] == state;
    hide Ran, EventOf, KeepsIds, KeepsPsm, Steady, ExecuteStep;
  }

  /** No plan over such pools shares a capacity. */
  lemma NothingIsShared(request: Request, states: seq<PoolState>, steps: seq<Step>)
    requires Separate(request, states)
    ensures !CapacityIsShared(steps, states)
  {
    var pools := PoolsById(states);
    forall i, j, c | 0 <= i < |steps| && 0 <= j < |steps| && steps[i].poolId in pools && steps[j].poolId in pools
      && c in pools[steps[i].poolId].capacityIds && c in pools[steps[j].poolId].capacityIds
      ensures steps[i].poolId == steps[j].poolId
    {
      PoolsByIdKeepsTheLast(states, steps[i].poolId);
      PoolsByIdKeepsTheLast(states, steps[j].poolId);
      var a :| 0 <= a < |states| && pools[steps[i].poolId] == states[a] && states[a].poolId == steps[i].poolId;
      var b :| 0 <= b < |states| && pools[steps[j].poolId] == states[b] && states[b].poolId == steps[j].poolId;
      assert c in states[a].capacityIds && c in states[b].capacityIds;
    }
  }

  ghost predicate PlainPools(pools: map<PoolId, PoolState>) {
    forall id :: id in pools ==> pools[id].psm.None?
  }

  /** Without a LitePSM among the states there is none on the way. */
  lemma {:induction false} PoolsStayPlain(venue: Venue, plan: Plan, states: seq<PoolState>, n: nat)
    requires Steady(venue) && NoPsm(states) && n <= |plan.steps|
    ensures PlainPools(After(venue, plan, states, n).pools)
  {
    hide Steady, ExecuteStep;
    if n == 0 {
      forall id | id in PoolsById(states)
        ensures PoolsById(states)[id].psm.None?
      {
        PoolsByIdKeepsTheLast(states, id);
      }
    } else {
      PoolsStayPlain(venue, plan, states, n - 1);
      OneMore(venue, plan, states, n - 1);
      var run := After(venue, plan, states, n - 1);
      if run.failure.None? {
        var step := plan.steps[n - 1];
        StepOutcome(venue, plan.request.tokenIn.chain, n - 1, step, run);
        SwapStaysPlain(venue, run.pools, step);
        hide After;
      }
    }
  }

  lemma SwapStaysPlain(venue: Venue, pools: map<PoolId, PoolState>, step: Step)
    requires Steady(venue) && PlainPools(pools)
    ensures step.poolId in pools ==>
      var quote := venue.swap(pools[step.poolId], step.tokenIn, step.tokenOut, step.amountIn);
      quote.Swapped? ==> PlainPools(pools[step.poolId := quote.next])
  {
    if step.poolId in pools {
      var quote := venue.swap(pools[step.poolId], step.tokenIn, step.tokenOut, step.amountIn);
      assert quote.Swapped? ==> SteadyAt(venue, pools[step.poolId], step.tokenIn, step.tokenOut, quote.next);
    }
  }

  lemma NothingRefunded(venue: Venue, plan: Plan, states: seq<PoolState>, balances: Ledger, token: Address)
    requires Steady(venue) && NoPsm(states)
    ensures !Refunds(venue, plan, states, balances, token)
  {
    forall k: nat, psm
      ensures !BuysAt(venue, plan, states, k, psm)
    {
      if k < |plan.steps| {
        PoolsStayPlain(venue, plan, states, k);
      }
    }
  }

  /** Whether the plan of a chain is accepted, and with what output, is a matter of the balances at its node. */
  lemma AcceptedBySpot(
    cfg: Settings, venue: Venue, request: Request, states: seq<PoolState>, n: Node, depth: nat, p: Plan)
    requires Separate(request, states) && Steady(venue) && NoPsm(states) && GoodRequest(request)
    requires Reachable(cfg, venue, request, states, n, depth) && p.request == request && p.steps == n.steps
    ensures var e, input, output := Evaluate(venue, p, states), request.tokenIn.address, request.tokenOut.address;
      && (e.feasible <==> forall t :: t != output ==> Held(n.balances, t) == 0)
      && e.amountOut == Held(n.balances, output)
  {
    ChainsArrive(cfg, venue, request, states, n, depth);
    NothingIsShared(request, states, p.steps);
    assert p.steps[..|p.steps|] == p.steps;
    var run := After(venue, p, states, |p.steps|);
    assert run == Ran(venue, request, states, n);
    AcceptedIffNothingIsLeft(venue, p, states);
    ReportIsTheRun(venue, p, states);
    forall t
      ensures !Refunds(venue, p, states, run.balances, t)
    {
      NothingRefunded(venue, p, states, run.balances, t);
    }
    hide Reachable, Separate, Steady, After, Ran, Evaluate, CapacityIsShared, Refunds, OnChain;
  }

  /** A search that says neither that it was truncated nor that its beam was pruned, over separate and steady pools,
      completes for each accepted plan of a chain one that pays the same, whatever nodes it took to be equal. */
  lemma KeysLoseNoOutput(
    cfg: Settings, venue: Venue, request: Request, states: seq<PoolState>, skip: bool, n: Node, p: Plan)
    requires KeysTell(cfg) && TrimsOnly(cfg) && TrimsOnlyBeyond(cfg)
    requires Separate(request, states) && Steady(venue)
    requires Acceptable(cfg, venue, request, states, n, p)
    ensures var s := Explore(cfg, venue, request, states, skip).search;
      !s.truncated && !s.beamPruned ==>
        exists q :: q in s.completions && PaysAsMuch(venue, states, q, p)
  {
    SteadyKeeps(venue);
    SearchIsComplete(cfg, venue, request, states, skip);
    var s := Explore(cfg, venue, request, states, skip).search;
    if !s.truncated && !s.beamPruned {
      hide Explore, KeysTell, TrimsOnly, TrimsOnlyBeyond, KeepsIds, KeepsPsm;
      TwinIsCompleted(cfg, venue, request, states, s, n, p);
    }
  }

  ghost predicate PaysAsMuch(venue: Venue, states: seq<PoolState>, q: Plan, p: Plan) {
    && q.request == p.request && Evaluate(venue, q, states).feasible
    && Evaluate(venue, q, states).amountOut == Evaluate(venue, p, states).amountOut
  }

  lemma TwinIsCompleted(
    cfg: Settings, venue: Venue, request: Request, states: seq<PoolState>, s: Search, n: Node, p: Plan)
    requires Separate(request, states) && Steady(venue)
    requires Acceptable(cfg, venue, request, states, n, p) && Complete(cfg, venue, request, states, s, 0)
    ensures exists q :: q in s.completions && PaysAsMuch(venue, states, q, p)
  {
    var t := LikeIsJudged(cfg, venue, request, states, s, n);
    hide Reachable, Separate, Steady, Evaluate, Alike, Judged, Complete, PaysAsMuch;
    JudgedPays(cfg, venue, request, states, s, n, t, |n.steps|, p);
  }

  lemma LikeIsJudged(cfg: Settings, venue: Venue, request: Request, states: seq<PoolState>, s: Search, n: Node)
    returns (t: Node)
    requires Complete(cfg, venue, request, states, s, 0)
    requires 0 < |n.steps| <= cfg.maxSteps && Reachable(cfg, venue, request, states, n, |n.steps|)
    ensures Reachable(cfg, venue, request, states, t, |n.steps|) && Alike(cfg, n, t)
    ensures Judged(cfg, venue, request, states, s, |n.steps|, t)
  {
    hide Reachable, Alike, Judged;
    assert JudgedAt(cfg, venue, request, states, s, |n.steps|);
    assert JudgedLike(cfg, venue, request, states, s, |n.steps|, n);
    t :| Reachable(cfg, venue, request, states, t, |n.steps|) && Alike(cfg, n, t)
      && Judged(cfg, venue, request, states, s, |n.steps|, t);
  }

  /** The plan of a node like this one, once judged, is completed and pays the same. */
  lemma JudgedPays(
    cfg: Settings, venue: Venue, request: Request, states: seq<PoolState>, s: Search, n: Node, t: Node, depth: nat,
    p: Plan)
    requires Separate(request, states) && Steady(venue) && Alike(cfg, n, t)
    requires Reachable(cfg, venue, request, states, n, depth) && Reachable(cfg, venue, request, states, t, depth)
    requires p.request == request && p.steps == n.steps && Evaluate(venue, p, states).feasible
    requires Judged(cfg, venue, request, states, s, depth, t)
    ensures exists q :: q in s.completions && PaysAsMuch(venue, states, q, p)
  {
    hide Reachable, Separate, Steady, Evaluate, Keyless;
    var twin := p.(steps := t.steps);
    if n == t {
      assert twin == p;
    } else {
      SameSpotPaysAlike(cfg, venue, request, states, n, t, depth, p);
    }
    assert Completed(s, request, t.steps);
    var q :| q in s.completions && q.request == request && q.steps == t.steps;
    SamePlanPaysAlike(venue, states, q, twin);
    assert PaysAsMuch(venue, states, q, p);
  }

  lemma SamePlanPaysAlike(venue: Venue, states: seq<PoolState>, q: Plan, p: Plan)
    requires q.request == p.request && q.steps == p.steps
    ensures Evaluate(venue, q, states).feasible == Evaluate(venue, p, states).feasible
    ensures Evaluate(venue, q, states).amountOut == Evaluate(venue, p, states).amountOut
  {
    hide Execute;
  }

  lemma SameSpotPaysAlike(
    cfg: Settings, venue: Venue, request: Request, states: seq<PoolState>, n: Node, t: Node, depth: nat, p: Plan)
    requires Separate(request, states) && Steady(venue) && SameSpot(n, t) && NoPsm(n.states)
    requires Reachable(cfg, venue, request, states, n, depth) && Reachable(cfg, venue, request, states, t, depth)
    requires p.request == request && p.steps == n.steps && Evaluate(venue, p, states).feasible
    ensures var q := p.(steps := t.steps);
      Evaluate(venue, q, states).feasible
        && Evaluate(venue, q, states).amountOut == Evaluate(venue, p, states).amountOut
  {
    hide Reachable, Separate, Steady;
    ReportIsTheRun(venue, p, states);
    StatesAreSame(cfg, venue, request, states, n, depth);
    AcceptedBySpot(cfg, venue, request, states, n, depth, p);
    AcceptedBySpot(cfg, venue, request, states, t, depth, p.(steps := t.steps));
  }

  lemma StatesAreSame(
    cfg: Settings, venue: Venue, request: Request, states: seq<PoolState>, n: Node, depth: nat)
    requires Separate(request, states) && Steady(venue) && Reachable(cfg, venue, request, states, n, depth)
    requires NoPsm(n.states)
    ensures NoPsm(states)
  {
    ChainsArrive(cfg, venue, request, states, n, depth);
    hide Reachable, Separate, Steady, Ran;
  }
}
