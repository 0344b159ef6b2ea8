/** Exactly which candidates each of the two validators accepts, read off their steps alone. */
module Acceptance {
  import opened Market
  import opened LedgerChecks

  /** Where the k-th allocation's steps begin: the lengths of the paths before it. */
  function Offset(allocs: seq<Allocation>, k: nat): nat
    requires k <= |allocs|
  {
    if k == 0 then 0 else Offset(allocs, k - 1) + |allocs[k - 1].path|
  }

  /** The amounts of the first k allocations. */
  function Allocated(allocs: seq<Allocation>, k: nat): int
    requires k <= |allocs|
  {
    if k == 0 then 0 else Allocated(allocs, k - 1) + allocs[k - 1].amountIn
  }

  /** The outputs of the last steps of the first k paths. */
  function Yielded(steps: seq<Hop>, allocs: seq<Allocation>, k: nat): int
    requires k <= |allocs|
  {
    if k == 0 then 0
    else
      var end := Offset(allocs, k);
      Yielded(steps, allocs, k - 1) + if 0 < end <= |steps| then steps[end - 1].amountOut else 0
  }

  /** The step is its pool's, between the pool's two tokens. */
  predicate Known(records: map<PoolId, set<Address>>, h: Hop) {
    h.poolId in records && records[h.poolId] == {h.tokenIn, h.tokenOut}
  }

  /** Steps that name the pools of the path, start with the request's input and the allocated amount, hand token and
      amount on, and end with the request's output. */
  ghost predicate IsPath(records: map<PoolId, set<Address>>, path: seq<Hop>, alloc: Allocation, ask: Ask) {
    && 0 < |path| == |alloc.path|
    && (forall i :: 0 <= i < |path| ==> path[i].poolId == alloc.path[i] && Known(records, path[i]))
    && path[0].tokenIn == ask.tokenIn && path[0].amountIn == alloc.amountIn
    && (forall i :: 0 < i < |path| ==>
          path[i].tokenIn == path[i - 1].tokenOut && path[i].amountIn == path[i - 1].amountOut)
    && path[|path| - 1].tokenOut == ask.tokenOut
  }

  /** Continuity holds exactly hop by hop. */
  lemma {:induction false} FollowsIff(
    records: map<PoolId, set<Address>>, path: seq<Hop>, token: Address, amount: int)
    ensures Follow(records, path, token, amount).Some? <==>
      && (forall i :: 0 <= i < |path| ==> Known(records, path[i]))
      && (path != [] ==> path[0].tokenIn == token && path[0].amountIn == amount)
      && (forall i :: 0 < i < |path| ==>
            path[i].tokenIn == path[i - 1].tokenOut && path[i].amountIn == path[i - 1].amountOut)
    ensures Follow(records, path, token, amount).Some? && path != [] ==>
      Follow(records, path, token, amount) == Some((path[|path| - 1].tokenOut, path[|path| - 1].amountOut))
    decreases |path|
  {
    if path != [] {
      var front := path[..|path| - 1];
      FollowsIff(records, front, token, amount);
      assert forall i :: 0 <= i < |front| ==> front[i] == path[i];
    }
  }

  /** One allocation passes exactly if the steps at its offset are its path. */
  lemma PathPassesIff(
    records: map<PoolId, set<Address>>, steps: seq<Hop>, offset: nat, alloc: Allocation, ask: Ask)
    requires offset <= |steps|
    ensures var end := offset + |alloc.path|;
      && (PathOutput(records, steps, offset, alloc, ask).Some? <==>
            end <= |steps| && IsPath(records, steps[offset..end], alloc, ask))
      && (PathOutput(records, steps, offset, alloc, ask).Some? ==>
            && |Slice(steps, offset, |alloc.path|)| == |alloc.path| > 0
            && PathOutput(records, steps, offset, alloc, ask) == Some(steps[end - 1].amountOut))
  {
    var path := Slice(steps, offset, |alloc.path|);
    FollowsIff(records, path, ask.tokenIn, alloc.amountIn);
    hide Follow, Known;
    if Pools(path) == alloc.path {
      assert |path| == |alloc.path| && forall i :: 0 <= i < |path| ==> path[i].poolId == alloc.path[i];
    } else if |path| == |alloc.path| {
      var i :| 0 <= i < |path| && Pools(path)[i] != alloc.path[i];
    }
  }

  /** The steps at the k-th allocation's place are its path. */
  ghost predicate InPlace(
    records: map<PoolId, set<Address>>, steps: seq<Hop>, allocs: seq<Allocation>, k: nat, ask: Ask)
    requires k < |allocs|
  {
    var begin, end := Offset(allocs, k), Offset(allocs, k + 1);
    end <= |steps| && IsPath(records, steps[begin..end], allocs[k], ask)
  }

  ghost predicate AllInPlace(
    records: map<PoolId, set<Address>>, steps: seq<Hop>, allocs: seq<Allocation>, n: nat, ask: Ask)
    requires n <= |allocs|
  {
    forall k :: 0 <= k < n ==> InPlace(records, steps, allocs, k, ask)
  }

  /** The loop gets through n allocations exactly if all their paths are in place, with these totals. */
  lemma {:induction false} WalksIff(
    records: map<PoolId, set<Address>>, steps: seq<Hop>, allocs: seq<Allocation>, n: nat, ask: Ask)
    requires n <= |allocs|
    ensures var w := Walk(records, steps, allocs[..n], ask);
      && (w.Some? <==> AllInPlace(records, steps, allocs, n, ask))
      && (w.Some? ==> w == Some(Tally(steps, allocs, n)))
  {
    if n > 0 {
      WalksIff(records, steps, allocs, n - 1, ask);
      hide Walk, InPlace, Tally, AllInPlace;
      WalkStep(records, steps, allocs, n - 1, ask);
      OneMoreInPlace(records, steps, allocs, n - 1, ask);
    }
  }

  lemma OneMoreInPlace(
    records: map<PoolId, set<Address>>, steps: seq<Hop>, allocs: seq<Allocation>, k: nat, ask: Ask)
    requires k < |allocs|
    ensures AllInPlace(records, steps, allocs, k + 1, ask) <==>
      AllInPlace(records, steps, allocs, k, ask) && InPlace(records, steps, allocs, k, ask)
  {
    hide InPlace;
  }

  /** The totals after k allocations whose paths are in place. */
  function Tally(steps: seq<Hop>, allocs: seq<Allocation>, k: nat): Totals
    requires k <= |allocs|
  {
    Totals(Offset(allocs, k), Yielded(steps, allocs, k), Allocated(allocs, k))
  }

  lemma WalkStep(records: map<PoolId, set<Address>>, steps: seq<Hop>, allocs: seq<Allocation>, k: nat, ask: Ask)
    requires k < |allocs|
    ensures var v, w := Walk(records, steps, allocs[..k], ask), Walk(records, steps, allocs[..k + 1], ask);
      && (w.Some? ==> v.Some?)
      && (v == Some(Tally(steps, allocs, k)) ==>
            && (w.Some? <==> InPlace(records, steps, allocs, k, ask))
            && (w.Some? ==> w == Some(Tally(steps, allocs, k + 1))))
  {
    WalkOne(records, steps, allocs, ask, k);
    var v := Walk(records, steps, allocs[..k], ask);
    hide Walk;
    if v == Some(Tally(steps, allocs, k)) {
      WalkOnIff(records, steps, allocs, k, ask);
    }
  }

  lemma YieldedOneMore(steps: seq<Hop>, allocs: seq<Allocation>, k: nat)
    requires k < |allocs|
    ensures var end := Offset(allocs, k + 1);
      0 < end <= |steps| ==> Yielded(steps, allocs, k + 1) == Yielded(steps, allocs, k) + steps[end - 1].amountOut
  {
    hide Offset;
  }

  lemma WalkOnIff(records: map<PoolId, set<Address>>, steps: seq<Hop>, allocs: seq<Allocation>, k: nat, ask: Ask)
    requires k < |allocs| && Offset(allocs, k) <= |steps|
    ensures var w := WalkOn(records, steps, Tally(steps, allocs, k), allocs[k], ask);
      && (w.Some? <==> InPlace(records, steps, allocs, k, ask))
      && (w.Some? ==> w == Some(Tally(steps, allocs, k + 1)))
  {
    var begin := Offset(allocs, k);
    PathPassesIff(records, steps, begin, allocs[k], ask);
    assert Offset(allocs, k + 1) == begin + |allocs[k].path|;
    assert Allocated(allocs, k + 1) == Allocated(allocs, k) + allocs[k].amountIn;
    YieldedOneMore(steps, allocs, k);
    hide PathOutput, IsPath, Slice, Offset, Allocated, Yielded;
  }

  /** A full fill through different pools, whose steps are the paths of its allocations one after the other; the
      allocated amounts add up to the request, and the outputs of the paths to the output. */
  ghost predicate Selected(records: map<PoolId, set<Address>>, c: Candidate, ask: Ask) {
    && c.feasible && c.residualIn == 0 && c.amountInSpent == ask.amountIn
    && (forall i, j :: 0 <= i < j < |c.steps| ==> c.steps[i].poolId != c.steps[j].poolId)
    && var n := |c.allocations|;
    && Offset(c.allocations, n) == |c.steps|
    && AllInPlace(records, c.steps, c.allocations, n, ask)
    && Allocated(c.allocations, n) == ask.amountIn
    && Yielded(c.steps, c.allocations, n) == c.amountOut
  }

  /** The path checker accepts exactly the candidates that are such a fill. */
  lemma AcceptedIffSelected(records: map<PoolId, set<Address>>, c: Candidate, ask: Ask)
    ensures PathAccepts(records, c, ask) <==> Selected(records, c, ask)
  {
    var n := |c.allocations|;
    assert c.allocations[..n] == c.allocations;
    WalksIff(records, c.steps, c.allocations, n, ask);
    hide Walk, AllInPlace, Offset, Allocated, Yielded;
  }

  // ---------------------------------------------------------------- the balance replay

  /** What the first k steps make of a token: the request's amount, what they yield of it less what they spend. */
  function Balance(steps: seq<Hop>, ask: Ask, k: nat, token: Address): int
    requires k <= |steps|
  {
    if k == 0 then if token == ask.tokenIn then ask.amountIn else 0
    else
      Balance(steps, ask, k - 1, token) + (if token == steps[k - 1].tokenOut then steps[k - 1].amountOut else 0)
      - if token == steps[k - 1].tokenIn then steps[k - 1].amountIn else 0
  }

  /** No step spends more than there is by then, and the reported totals and refunds are what is there at the end. */
  ghost predicate Balanced(c: Candidate, ask: Ask) {
    var n := |c.steps|;
    && Payable(c.steps, ask, n)
    && c.amountOut == Balance(c.steps, ask, n, ask.tokenOut)
    && c.residualIn == Balance(c.steps, ask, n, ask.tokenIn)
    && c.amountInSpent == ask.amountIn - Balance(c.steps, ask, n, ask.tokenIn)
    && forall t :: t in c.terminalRefund ==> 0 < c.terminalRefund[t] == Balance(c.steps, ask, n, t)
  }

  /** None of the first n steps spends more than there is by then. */
  ghost predicate Payable(steps: seq<Hop>, ask: Ask, n: nat)
    requires n <= |steps|
  {
    forall k :: 0 <= k < n ==> steps[k].amountIn <= Balance(steps, ask, k, steps[k].tokenIn)
  }

  ghost predicate HoldsBalances(b: Ledger, steps: seq<Hop>, ask: Ask, n: nat)
    requires n <= |steps|
  {
    forall t :: Held(b, t) == Balance(steps, ask, n, t)
  }

  lemma {:induction false} ReplaysIff(steps: seq<Hop>, ask: Ask, n: nat)
    requires n <= |steps|
    ensures var r := Replay(Opening(ask), steps[..n]);
      (r.Some? <==> Payable(steps, ask, n)) && (r.Some? ==> HoldsBalances(r.value, steps, ask, n))
  {
    if n > 0 {
      var h := steps[n - 1];
      ReplaysIff(steps, ask, n - 1);
      assert steps[..n] == steps[..n - 1] + [h];
      ReplayOne(Opening(ask), steps[..n - 1], h);
      OneMorePayable(steps, ask, n - 1);
      hide Payable, Balance, Replay, Apply, Opening;
      var r := Replay(Opening(ask), steps[..n - 1]);
      if r.Some? {
        AppliedBalances(r.value, steps, ask, n);
        assert Held(r.value, h.tokenIn) == Balance(steps, ask, n - 1, h.tokenIn);
      }
      hide HoldsBalances;
    }
  }

  lemma OneMorePayable(steps: seq<Hop>, ask: Ask, n: nat)
    requires n < |steps|
    ensures Payable(steps, ask, n + 1) <==>
      Payable(steps, ask, n) && steps[n].amountIn <= Balance(steps, ask, n, steps[n].tokenIn)
  {
    hide Balance;
  }

  lemma AppliedBalances(b: Ledger, steps: seq<Hop>, ask: Ask, n: nat)
    requires 0 < n <= |steps| && HoldsBalances(b, steps, ask, n - 1)
    ensures HoldsBalances(Apply(b, steps[n - 1]), steps, ask, n)
  {
    var h := steps[n - 1];
    MoveChanges(b, h.tokenIn, h.amountIn, h.tokenOut, h.amountOut);
    hide Move, Held;
  }

  /** The balance replay accepts exactly the candidates whose report is balanced. */
  lemma ReplayAcceptsIffBalanced(c: Candidate, ask: Ask)
    ensures ReplayAccepts(c, ask) <==> Balanced(c, ask)
  {
    assert c.steps[..|c.steps|] == c.steps;
    ReplaysIff(c.steps, ask, |c.steps|);
    hide Replay, Balance, Payable;
  }
}
